/**
  The pipeline over a key file under administration: requests and key operations take turns, and a
  key's issue, update, rotation or revocation is in force from the very next request.
*/
module GatewayKeys {
  import opened Wrappers
  import opened ApiKeys
  import opened KeyLifecycle
  import opened KeyService
  import opened Server
  import opened ServerTheorems
  import KeyCache
  import KeyStore
  import Metrics
  import RateLimit

  /** A whole key operation, with the mtimes of the emptied and of the written file; or a request. */
  datatype Event = Manage(op: Op, emptied: int, written: int) | Ask(request: Request, world: Surroundings)

  /** Whether a request gets as far as the key store. */
  predicate Consults(g: Settings, q: Request, w: Surroundings) {
    Receive(g, q, w).Ok? && SuppliedKey(q).Some?
  }

  /** What an event does to the file and the cache: both steps of an operation, or both halves of an authentication. */
  function ActionsOf(g: Settings, e: Event): seq<Action> {
    match e
    case Manage(op, emptied, written) => [Open(op, emptied), Close(written)]
    case Ask(q, w) => if Consults(g, q, w) then [Begin, Action.End] else []
  }

  function AllActions(g: Settings, events: seq<Event>): seq<Action> {
    if events == [] then []
    else AllActions(g, events[..|events| - 1]) + ActionsOf(g, events[|events| - 1])
  }

  function ServiceAfter(g: Settings, events: seq<Event>): (s: Service)
    ensures KeyService.WellFormed(s)
  {
    PerformAll(g.crypto, AllActions(g, events))
  }

  /** A request's world, with the key file as it is. */
  function WithFile(w: Surroundings, s: Service): Surroundings
    requires KeyService.WellFormed(s)
  {
    var current := s.world.versions[|s.world.versions| - 1];
    w.(keyStat := KeyCache.StatOf(current), keyText := KeyCache.TextOf(current))
  }

  const Start := Shared(KeyStore.FreshCache, RateLimit.EmptyLogs, Metrics.Counters(map[], map[]))

  /** The gateway's state after the events, started before the key file exists. */
  function SharedAfter(g: Settings, events: seq<Event>): Shared
    requires g.policy.routes != []
  {
    if events == [] then Start
    else
      var n := |events| - 1;
      match events[n]
      case Manage(_, _, _) => SharedAfter(g, events[..n])
      case Ask(q, w) => Serve(g, SharedAfter(g, events[..n]), q, WithFile(w, ServiceAfter(g, events[..n]))).state
  }

  /** Whether the store is consulted does not depend on what the key file holds. */
  lemma {:induction false} ConsultsAlike(g: Settings, q: Request, w: Surroundings, stat: KeyStore.FileStat,
                                         text: KeyStore.FileText)
    ensures Consults(g, q, w.(keyStat := stat, keyText := text)) == Consults(g, q, w)
  {
  }

  /** An authentication that nothing interrupts is one refresh from the current version. */
  lemma {:induction false} OneRefresh(g: Settings, s: Service, w: Surroundings)
    requires KeyService.WellFormed(s) && s.world.pending == None && g.hasKeyFile
    ensures var begun := Perform(g.crypto, s, Begin);
            && begun.world.pending == Some(|s.world.versions| - 1)
            && begun.world.versions == s.world.versions && begun.ledgers == s.ledgers
            && Perform(g.crypto, begun, Action.End).world.pending == None
            && Perform(g.crypto, begun, Action.End).world == NextCall(s.world)
            && NextCall(s.world).cache == Refreshed(g, s.world.cache, WithFile(w, s))
  {
  }

  lemma {:induction false} AskKeepsCache(g: Settings, events: seq<Event>, q: Request, w: Surroundings)
    requires g.policy.routes != [] && g.hasKeyFile
    requires SharedAfter(g, events).cache == ServiceAfter(g, events).world.cache
    requires ServiceAfter(g, events).world.pending == None
    ensures var s := ServiceAfter(g, events);
            var after := PerformAll(g.crypto, AllActions(g, events) + ActionsOf(g, Ask(q, w)));
            && Serve(g, SharedAfter(g, events), q, WithFile(w, s)).state.cache == after.world.cache
            && after.world.pending == None
  {
    var actions, s := AllActions(g, events), ServiceAfter(g, events);
    ConsultsAlike(g, q, w, WithFile(w, s).keyStat, WithFile(w, s).keyText);
    if Consults(g, q, w) {
      PerformTwo(g.crypto, actions, Begin, Action.End);
      OneRefresh(g, s, w);
    } else {
      assert actions + [] == actions;
    }
  }

  lemma {:induction false} AskKeepsFile(g: Settings, actions: seq<Action>, e: Event)
    requires e.Ask?
    ensures var before, after := PerformAll(g.crypto, actions), PerformAll(g.crypto, actions + ActionsOf(g, e));
            && after.world.versions == before.world.versions && after.editing == before.editing
            && after.ledgers == before.ledgers
  {
    if Consults(g, e.request, e.world) {
      PerformTwo(g.crypto, actions, Begin, Action.End);
    } else {
      assert actions + [] == actions;
    }
  }

  /** The gateway's cache is the one the key service talks about, and nothing is half done. */
  lemma {:induction false} CacheIsTheServices(g: Settings, events: seq<Event>)
    requires g.policy.routes != [] && g.hasKeyFile
    ensures SharedAfter(g, events).cache == ServiceAfter(g, events).world.cache
    ensures ServiceAfter(g, events).world.pending == None && ServiceAfter(g, events).editing == None
  {
    if events == [] {
      assert PerformAll(g.crypto, []).world.cache == KeyStore.FreshCache;
    } else {
      var n := |events| - 1;
      CacheIsTheServices(g, events[..n]);
      match events[n] {
        case Manage(op, emptied, written) =>
          PerformTwo(g.crypto, AllActions(g, events[..n]), Open(op, emptied), Close(written));
        case Ask(q, w) =>
          AskKeepsCache(g, events[..n], q, w);
          AskKeepsFile(g, AllActions(g, events[..n]), events[n]);
      }
    }
  }

  // ----- The ledger of all operations so far -----

  function OpsSoFar(events: seq<Event>): seq<Op> {
    if events == [] then []
    else
      var n := |events| - 1;
      match events[n]
      case Manage(op, _, _) => OpsSoFar(events[..n]) + [op]
      case Ask(_, _) => OpsSoFar(events[..n])
  }

  lemma {:induction false} OpsAppend(a: seq<Action>, b: seq<Action>)
    ensures OpsOf(a + b) == OpsOf(a) + OpsOf(b)
  {
    if b == [] {
      assert a + b == a;
    } else {
      OpsAppend(a, b[..|b| - 1]);
      assert (a + b)[..|a + b| - 1] == a + b[..|b| - 1];
    }
  }

  lemma {:induction false} OpsOfOne(g: Settings, e: Event)
    ensures OpsOf(ActionsOf(g, e)) == if e.Manage? then [e.op] else []
  {
    if e.Manage? {
      assert [Open(e.op, e.emptied), Close(e.written)][..1] == [Open(e.op, e.emptied)]
             && [Open(e.op, e.emptied)][..0] == [];
      assert OpsOf([Open(e.op, e.emptied)]) == [e.op];
    } else {
      assert [Begin, Action.End][..1] == [Begin] && [Begin][..0] == [];
      assert OpsOf([Begin]) == [];
    }
  }

  lemma {:induction false} OpsOfActions(g: Settings, events: seq<Event>)
    ensures OpsOf(AllActions(g, events)) == OpsSoFar(events)
  {
    if events != [] {
      var n := |events| - 1;
      OpsOfActions(g, events[..n]);
      OpsOfOne(g, events[n]);
      OpsAppend(AllActions(g, events[..n]), ActionsOf(g, events[n]));
    }
  }

  /** The whole operation, on a file that no other has open, applies to the ledger what it applies to the file. */
  lemma {:induction false} EditLedger(c: Crypto, s: Service, op: Op, emptied: int, written: int)
    requires KeyService.WellFormed(s) && s.editing == None && Represents(c, s.records, Current(s))
    ensures Current(Perform(c, Perform(c, s, Open(op, emptied)), Close(written))) == ApplyLedger(Current(s), op)
  {
  }

  lemma {:induction false} RecordsRepresent(c: Crypto, actions: seq<Action>)
    requires Fresh(OpsOf(actions))
    ensures Represents(c, PerformAll(c, actions).records, Current(PerformAll(c, actions)))
  {
    InvHolds(c, actions);
  }

  /** The last ledger of the history is the one that all the operations make. */
  lemma {:induction false} LedgerNow(g: Settings, events: seq<Event>)
    requires g.policy.routes != [] && g.hasKeyFile && Fresh(OpsSoFar(events))
    ensures Current(ServiceAfter(g, events)) == RunLedger(OpsSoFar(events))
  {
    if events != [] {
      var n := |events| - 1;
      var actions := AllActions(g, events[..n]);
      match events[n] {
        case Manage(op, emptied, written) =>
          LedgerNow(g, events[..n]);
          CacheIsTheServices(g, events[..n]);
          OpsOfActions(g, events[..n]);
          RecordsRepresent(g.crypto, actions);
          PerformTwo(g.crypto, actions, Open(op, emptied), Close(written));
          EditLedger(g.crypto, ServiceAfter(g, events[..n]), op, emptied, written);
        case Ask(_, _) =>
          LedgerNow(g, events[..n]);
          AskKeepsFile(g, actions, events[n]);
      }
    }
  }

  // ----- What a request finds -----

  /** Whose secret this is now: the live key that holds it, if the file is in order. */
  ghost predicate Owns(m: Ledger, secret: string, p: Principal) {
    Named(m) && exists id :: Holds(m, id, secret) && p == PrincipalOf(m, id)
  }

  /** What the cache holds was read from a whole version that the stat had seen. */
  predicate Steady(w: KeyCache.World) {
    w.loads != [] ==>
      var l := w.loads[|w.loads| - 1];
      l.stat == l.read < |w.versions| && !Emptied(w.versions[l.read])
  }

  /** Nothing is half done, and nothing was read while it was. */
  predicate Settled(s: Service) {
    Quiet(s) && Steady(s.world) && !Emptied(s.world.versions[|s.world.versions| - 1])
  }

  lemma {:induction false} EditSettles(c: Crypto, s: Service, op: Op, emptied: int, written: int)
    requires Settled(s)
    ensures Settled(Perform(c, Perform(c, s, Open(op, emptied)), Close(written)))
  {
  }

  lemma {:induction false} NextSettles(s: Service)
    requires Settled(s)
    ensures Settled(s.(world := NextCall(s.world)))
  {
  }

  lemma {:induction false} AskSettles(g: Settings, actions: seq<Action>, e: Event)
    requires e.Ask? && Settled(PerformAll(g.crypto, actions))
    ensures Settled(PerformAll(g.crypto, actions + ActionsOf(g, e)))
  {
    if Consults(g, e.request, e.world) {
      PerformTwo(g.crypto, actions, Begin, Action.End);
      NextSettles(PerformAll(g.crypto, actions));
    } else {
      assert actions + [] == actions;
    }
  }

  lemma {:induction false} AlwaysSettled(g: Settings, events: seq<Event>)
    ensures Settled(ServiceAfter(g, events))
  {
    if events != [] {
      var n := |events| - 1;
      AlwaysSettled(g, events[..n]);
      match events[n] {
        case Manage(op, emptied, written) =>
          PerformTwo(g.crypto, AllActions(g, events[..n]), Open(op, emptied), Close(written));
          EditSettles(g.crypto, ServiceAfter(g, events[..n]), op, emptied, written);
        case Ask(_, _) =>
          AskSettles(g, AllActions(g, events[..n]), events[n]);
      }
    }
  }

  /** The version that an undisturbed call answers from: the last one read, if the current one has the stamp that the
      cache has; otherwise the current one. */
  function Answering(w: KeyCache.World): (v: nat)
    requires KeyCache.Sane(w) && Steady(w)
    ensures v < |w.versions|
  {
    var last := |w.versions| - 1;
    if w.loads != [] && w.versions[last].Present? && w.cache.mtime == Some(w.versions[last].mtime)
    then w.loads[|w.loads| - 1].read
    else last
  }

  lemma {:induction false} SettledReads(w: KeyCache.World)
    requires KeyCache.Sane(w) && KeyCache.FromLoads(w) && w.pending == None && Steady(w)
    requires w.versions[|w.versions| - 1].Present? && KeyCache.Decodes(w.versions[|w.versions| - 1])
    ensures w.versions[Answering(w)].Present?
    ensures NextCall(w).cache.loadError == KeyCache.LoadFails(w.versions[Answering(w)])
    ensures NextCall(w).cache.keys == KeyCache.KeysRead(w.versions[Answering(w)])
  {
    if KeyCache.PendingReads(KeyCache.Take(w, KeyCache.Stat)) {
      SourceRead(KeyCache.Take(w, KeyCache.Stat));
    }
  }

  lemma {:induction false} NoFileAnswers(c: Crypto, staticKeys: seq<APIKey>, w: KeyCache.World, secret: string)
    requires KeyCache.Sane(w) && KeyCache.FromLoads(w) && w.pending == None && KeyCache.NeverDeleted(w.versions)
    requires w.versions[|w.versions| - 1].Absent? && FindKey(c, staticKeys, secret) == NoMatch
    ensures KeyStore.Authenticated(c, staticKeys, NextCall(w).cache, secret) == NoMatch
  {
    KeyCache.TakeFromLoads(w, KeyCache.Stat);
    assert staticKeys + [] == staticKeys;
  }

  lemma {:induction false} WholeFileAnswers(c: Crypto, staticKeys: seq<APIKey>, w: KeyCache.World, m: Ledger,
                                            secret: string, tokens: set<string>)
    requires KeyCache.Sane(w) && KeyCache.FromLoads(w) && w.pending == None && Steady(w)
    requires w.versions[|w.versions| - 1].Present? && KeyCache.Decodes(w.versions[|w.versions| - 1])
    requires VersionTracked(c, w.versions[Answering(w)], m, tokens) && !Emptied(w.versions[Answering(w)])
    requires CollisionFree(c, tokens + {secret}) && FindKey(c, staticKeys, secret) == NoMatch
    ensures ServiceAnswers(m, secret, KeyStore.Authenticated(c, staticKeys, NextCall(w).cache, secret))
  {
    SettledReads(w);
    WholeAnswers(c, staticKeys, NextCall(w).cache, w.versions[Answering(w)], m, secret, tokens);
  }

  /** With nothing in between, a call answers from that version's ledger. */
  lemma {:induction false} AnswersAtOnce(c: Crypto, staticKeys: seq<APIKey>, s: Service, secret: string,
                                         tokens: set<string>)
    requires ServiceInv(c, s, tokens) && Settled(s)
    requires CollisionFree(c, tokens + {secret}) && FindKey(c, staticKeys, secret) == NoMatch
    ensures KeyCache.Decodes(s.world.versions[|s.world.versions| - 1])
    ensures ServiceAnswers(s.ledgers[Answering(s.world)], secret,
                           KeyStore.Authenticated(c, staticKeys, NextCall(s.world).cache, secret))
  {
    var v := Answering(s.world);
    NotDeleted(c, s.world.versions, s.ledgers, tokens);
    if s.world.versions[|s.world.versions| - 1].Absent? {
      NoFileAnswers(c, staticKeys, s.world, secret);
    } else {
      SettledReads(s.world);
      WholeFileAnswers(c, staticKeys, s.world, s.ledgers[v], secret, tokens);
    }
  }

  /** The ledger that a request after the events is authenticated from. */
  ghost function LedgerRead(g: Settings, events: seq<Event>): Ledger {
    var s := ServiceAfter(g, events);
    AlwaysSettled(g, events);
    s.ledgers[Answering(s.world)]
  }

  lemma {:induction false} AlwaysFromLoads(g: Settings, events: seq<Event>)
    ensures KeyCache.FromLoads(ServiceAfter(g, events).world)
  {
    WorldFromLoads(g.crypto, AllActions(g, events));
  }

  lemma {:induction false} ServiceAtOnce(g: Settings, events: seq<Event>, secret: string)
    requires Unmistakable(g.crypto, g.staticKeys, OpsSoFar(events), secret)
    ensures var s := ServiceAfter(g, events);
            && KeyCache.Decodes(s.world.versions[|s.world.versions| - 1])
            && ServiceAnswers(LedgerRead(g, events), secret,
                              KeyStore.Authenticated(g.crypto, g.staticKeys, NextCall(s.world).cache, secret))
  {
    OpsOfActions(g, events);
    AlwaysSettled(g, events);
    InvHolds(g.crypto, AllActions(g, events));
    AnswersAtOnce(g.crypto, g.staticKeys, ServiceAfter(g, events), secret, NewTokens(OpsSoFar(events)));
  }

  lemma {:induction false} RefreshIsNext(g: Settings, events: seq<Event>, w: Surroundings)
    requires g.policy.routes != [] && g.hasKeyFile
    ensures var s := ServiceAfter(g, events);
            Refreshed(g, SharedAfter(g, events).cache, WithFile(w, s)) == NextCall(s.world).cache
  {
    CacheIsTheServices(g, events);
    OneRefresh(g, ServiceAfter(g, events), w);
  }

  /** Who a request comes from, by the answer of the key store. */
  lemma {:induction false} OwnsByKey(g: Settings, c: KeyStore.Cache, q: Request, w: Surroundings, m: Ledger,
                                     secret: string, answer: Lookup, p: Principal)
    requires SuppliedKey(q) == Some(secret) && ServiceAnswers(m, secret, answer)
    requires KeyStore.Response(g.crypto, g.staticKeys, g.hasKeyFile, c, secret, w.keyStat, w.keyText) == Ok(answer)
    ensures Authenticate(g, c, q, w) == Known(p) && p.authType == "api_key" <==> Owns(m, secret, p)
  {
  }

  /** The store's response after the events. */
  lemma {:induction false} ResponseAtOnce(g: Settings, events: seq<Event>, w: Surroundings, secret: string)
    returns (answer: Lookup)
    requires Unmistakable(g.crypto, g.staticKeys, OpsSoFar(events), secret)
    ensures var s := ServiceAfter(g, events);
            KeyStore.Response(g.crypto, g.staticKeys, g.hasKeyFile, NextCall(s.world).cache, secret,
                              WithFile(w, s).keyStat, WithFile(w, s).keyText) == Ok(answer)
    ensures ServiceAnswers(LedgerRead(g, events), secret, answer)
  {
    var s := ServiceAfter(g, events);
    answer := KeyStore.Authenticated(g.crypto, g.staticKeys, NextCall(s.world).cache, secret);
    ServiceAtOnce(g, events, secret);
  }

  /** Whatever the mtimes, a request is authenticated by an API key exactly if its secret is the latest plaintext of a
      key that is not revoked, by the ledger of the last version that was read, if the file has the stamp of the cache,
      and by the current one if not; and then it is that key's tenant and models. */
  lemma {:induction false} KeyAsRead(g: Settings, events: seq<Event>, q: Request, w: Surroundings, secret: string,
                                     p: Principal)
    requires g.policy.routes != [] && g.hasKeyFile
    requires SuppliedKey(q) == Some(secret)
    requires Unmistakable(g.crypto, g.staticKeys, OpsSoFar(events), secret)
    ensures var world, cache := WithFile(w, ServiceAfter(g, events)), SharedAfter(g, events).cache;
            Authenticate(g, CacheAfter(g, cache, q, world), q, world) == Known(p) && p.authType == "api_key"
            <==> Owns(LedgerRead(g, events), secret, p)
  {
    var s := ServiceAfter(g, events);
    RefreshIsNext(g, events, w);
    var answer := ResponseAtOnce(g, events, w, secret);
    OwnsByKey(g, NextCall(s.world).cache, q, WithFile(w, s), LedgerRead(g, events), secret, answer, p);
  }

  /** No two whole versions share an mtime.  An emptied version may share its with any other. */
  predicate WholeStampsDiffer(vs: seq<KeyCache.Version>) {
    forall i, j :: 0 <= i < j < |vs| && KeyCache.SameStamp(vs[i], vs[j]) ==> Emptied(vs[i]) || Emptied(vs[j])
  }

  lemma {:induction false} AnsweringLast(w: KeyCache.World)
    requires KeyCache.Sane(w) && KeyCache.FromLoads(w) && Steady(w) && WholeStampsDiffer(w.versions)
    requires !Emptied(w.versions[|w.versions| - 1])
    ensures Answering(w) == |w.versions| - 1
  {
  }

  /** Then the ledger is the one that all the operations so far make. */
  lemma {:induction false} ReadsInForce(g: Settings, events: seq<Event>)
    requires g.policy.routes != [] && g.hasKeyFile && Fresh(OpsSoFar(events))
    requires WholeStampsDiffer(ServiceAfter(g, events).world.versions)
    ensures LedgerRead(g, events) == RunLedger(OpsSoFar(events))
  {
    AlwaysFromLoads(g, events);
    AlwaysSettled(g, events);
    AnsweringLast(ServiceAfter(g, events).world);
    LedgerNow(g, events);
  }

  /** A request is authenticated by an API key exactly if the secret it supplies is, at that moment, the latest
      plaintext of a key that is not revoked; and then it is that key's current tenant and models. */
  lemma {:induction false} KeyInForce(g: Settings, events: seq<Event>, q: Request, w: Surroundings, secret: string,
                                      p: Principal)
    requires g.policy.routes != [] && g.hasKeyFile
    requires SuppliedKey(q) == Some(secret)
    requires WholeStampsDiffer(ServiceAfter(g, events).world.versions)
    requires Unmistakable(g.crypto, g.staticKeys, OpsSoFar(events), secret)
    ensures var world, cache := WithFile(w, ServiceAfter(g, events)), SharedAfter(g, events).cache;
            Authenticate(g, CacheAfter(g, cache, q, world), q, world) == Known(p) && p.authType == "api_key"
            <==> Owns(RunLedger(OpsSoFar(events)), secret, p)
  {
    KeyAsRead(g, events, q, w, secret, p);
    ReadsInForce(g, events);
  }

  /** Nothing is forwarded on a key that has been revoked, rotated away or never issued. */
  lemma {:induction false} ForwardedKeyInForce(g: Settings, events: seq<Event>, q: Request, w: Surroundings,
                                               secret: string, f: Forward)
    requires g.policy.routes != [] && g.hasKeyFile
    requires SuppliedKey(q) == Some(secret)
    requires WholeStampsDiffer(ServiceAfter(g, events).world.versions)
    requires Unmistakable(g.crypto, g.staticKeys, OpsSoFar(events), secret)
    requires Serve(g, SharedAfter(g, events), q, WithFile(w, ServiceAfter(g, events))).forwarded == Some(f)
    ensures f.principal.authType == "api_key" ==> Owns(RunLedger(OpsSoFar(events)), secret, f.principal)
  {
    ForwardedIff(g, SharedAfter(g, events), q, WithFile(w, ServiceAfter(g, events)), f);
    KeyInForce(g, events, q, w, secret, f.principal);
  }
}
