/**
  Key administration and authentication together: key operations rewrite the file while the
  gateway authenticates through its cache.

  An operation writes in two steps: opening the file empties it, and then the records are written.
  Every authentication gives the answer of the ledger as it stood at some moment during the call,
  unless what it answers from was read in between; then it denies.  That may go on after the
  operation is over, if both steps gave the file one mtime, as those of one write well may.
*/
module KeyService {
  import opened Wrappers
  import opened ApiKeys
  import opened KeyLifecycle
  import opened KeyStore
  import opened KeyCache

  /** A key operation opens the file, then closes it with the new records, each with the file's new mtime; or one half
      of an authentication. */
  datatype Action = Open(op: Op, mtime: int) | Close(mtime: int) | Begin | End

  /** The file and the cache; the records last written; the operation that has the file open; and the ledger that
      each file version stands for. */
  datatype Service = Service(world: World, records: seq<Record>, editing: Option<Op>, ledgers: seq<Ledger>)

  predicate WellFormed(s: Service) {
    Sane(s.world) && |s.ledgers| == |s.world.versions|
  }

  function Current(s: Service): Ledger
    requires WellFormed(s)
  {
    s.ledgers[|s.ledgers| - 1]
  }

  /** A file that has been opened for writing and not yet written. */
  predicate Emptied(v: Version) {
    v.Present? && v.text == Malformed
  }

  function WriteFile(s: Service, mtime: int, text: FileText, records: seq<Record>, editing: Option<Op>, m: Ledger)
    : (s': Service)
    requires WellFormed(s)
    ensures WellFormed(s')
  {
    Service(Take(s.world, Write(Present(mtime, text))), records, editing, s.ledgers + [m])
  }

  /** An operation that fails leaves the file alone; operations come one at a time. */
  function Perform(c: Crypto, s: Service, a: Action): (s': Service)
    requires WellFormed(s)
    ensures WellFormed(s')
  {
    match a
    case Open(op, mtime) =>
      if s.editing.Some? || !Succeeds(s.records, op) then s
      else WriteFile(s, mtime, Malformed, s.records, Some(op), Current(s))
    case Close(mtime) =>
      if s.editing.None? then s
      else
        var records := Apply(c, s.records, s.editing.value);
        WriteFile(s, mtime, Parsed(records), records, None, ApplyLedger(Current(s), s.editing.value))
    case Begin => s.(world := Take(s.world, Stat))
    case End => s.(world := Take(s.world, Finish))
  }

  /** From a gateway started before the key file exists. */
  function PerformAll(c: Crypto, actions: seq<Action>): (s: Service)
    ensures WellFormed(s)
  {
    if actions == [] then Service(Initial(Absent).(started := true), [], None, [map[]])
    else Perform(c, PerformAll(c, actions[..|actions| - 1]), actions[|actions| - 1])
  }

  function OpsOf(actions: seq<Action>): seq<Op> {
    if actions == [] then []
    else
      var a := actions[|actions| - 1];
      OpsOf(actions[..|actions| - 1]) + (if a.Open? then [a.op] else [])
  }

  // ----- What every reachable state satisfies -----

  ghost predicate Tracked(c: Crypto, records: seq<Record>, m: Ledger, tokens: set<string>) {
    Represents(c, records, m) && DistinctTokens(m) && TokensFrom(m, tokens)
  }

  ghost predicate VersionTracked(c: Crypto, v: Version, m: Ledger, tokens: set<string>) {
    v.Present? && (Emptied(v) || (v.text.Parsed? && Tracked(c, v.text.records, m, tokens)))
  }

  /** Opening the file leaves the ledger as it was. */
  predicate LedgerKept(versions: seq<Version>, ledgers: seq<Ledger>, i: nat)
    requires i < |versions| == |ledgers|
  {
    i + 1 < |ledgers| && !Emptied(versions[i]) ==> ledgers[i + 1] == ledgers[i]
  }

  predicate LedgersKept(versions: seq<Version>, ledgers: seq<Ledger>)
    requires |versions| == |ledgers|
  {
    forall i :: 0 <= i < |ledgers| ==> LedgerKept(versions, ledgers, i)
  }

  ghost predicate VersionsTracked(c: Crypto, versions: seq<Version>, ledgers: seq<Ledger>, tokens: set<string>)
    requires |versions| == |ledgers|
  {
    forall i :: 1 <= i < |ledgers| ==> VersionTracked(c, versions[i], ledgers[i], tokens)
  }

  ghost predicate HistoryTracked(c: Crypto, versions: seq<Version>, ledgers: seq<Ledger>, tokens: set<string>) {
    && |versions| == |ledgers| > 0
    && versions[0] == Absent && ledgers[0] == map[]
    && VersionsTracked(c, versions, ledgers, tokens) && LedgersKept(versions, ledgers)
  }

  /** The operation that has the file open will succeed, with a token that no key has had. */
  ghost predicate EditReady(records: seq<Record>, editing: Option<Op>, m: Ledger, tokens: set<string>) {
    editing.Some? ==>
      && Succeeds(records, editing.value)
      && (!editing.value.Update? ==> editing.value.token in tokens && TokensFrom(m, tokens - {editing.value.token}))
  }

  ghost predicate FileInv(c: Crypto, versions: seq<Version>, records: seq<Record>, editing: Option<Op>,
                          ledgers: seq<Ledger>, tokens: set<string>) {
    && HistoryTracked(c, versions, ledgers, tokens)
    && (editing.Some? <==> Emptied(versions[|versions| - 1]))
    && Tracked(c, records, ledgers[|ledgers| - 1], tokens)
    && EditReady(records, editing, ledgers[|ledgers| - 1], tokens)
  }

  ghost predicate ServiceInv(c: Crypto, s: Service, tokens: set<string>) {
    && WellFormed(s)
    && FileInv(c, s.world.versions, s.records, s.editing, s.ledgers, tokens)
    && FromLoads(s.world)
  }

  lemma {:induction false} ApplyRepresents(c: Crypto, records: seq<Record>, m: Ledger, op: Op)
    requires Represents(c, records, m)
    ensures Represents(c, Apply(c, records, op), ApplyLedger(m, op))
  {
    if op.Issue? {
      IssueRepresents(c, records, m, op);
    } else {
      EditRepresents(c, records, m, op);
    }
  }

  lemma LedgersGrow(versions: seq<Version>, ledgers: seq<Ledger>, v: Version, m: Ledger)
    requires |versions| == |ledgers| > 0 && LedgersKept(versions, ledgers)
    requires Emptied(versions[|versions| - 1]) || m == ledgers[|ledgers| - 1]
    ensures LedgersKept(versions + [v], ledgers + [m])
  {
    forall i | 0 <= i < |ledgers| + 1
      ensures LedgerKept(versions + [v], ledgers + [m], i)
    {
      assert i < |ledgers| ==> LedgerKept(versions, ledgers, i);
    }
  }

  lemma {:induction false} HistoryGrows(c: Crypto, versions: seq<Version>, ledgers: seq<Ledger>, v: Version, m: Ledger,
                                        tokens: set<string>)
    requires HistoryTracked(c, versions, ledgers, tokens) && VersionTracked(c, v, m, tokens)
    requires Emptied(versions[|versions| - 1]) || m == ledgers[|ledgers| - 1]
    ensures HistoryTracked(c, versions + [v], ledgers + [m], tokens)
  {
    LedgersGrow(versions, ledgers, v, m);
  }

  lemma SameFile(c: Crypto, s: Service, w: World, tokens: set<string>)
    requires ServiceInv(c, s, tokens) && Sane(w) && w.versions == s.world.versions && FromLoads(w)
    ensures ServiceInv(c, s.(world := w), tokens)
  {
  }

  lemma NextFile(c: Crypto, s: Service, mtime: int, text: FileText, records: seq<Record>, editing: Option<Op>,
                 m: Ledger, tokens: set<string>)
    requires WellFormed(s) && FromLoads(s.world) && HistoryTracked(c, s.world.versions, s.ledgers, tokens)
    requires Emptied(s.world.versions[|s.world.versions| - 1]) || m == Current(s)
    requires editing.Some? <==> text.Malformed?
    requires VersionTracked(c, Present(mtime, text), m, tokens) && Tracked(c, records, m, tokens)
    requires EditReady(records, editing, m, tokens)
    ensures ServiceInv(c, WriteFile(s, mtime, text, records, editing, m), tokens)
  {
    HistoryGrows(c, s.world.versions, s.ledgers, Present(mtime, text), m, tokens);
    TakeFromLoads(s.world, Write(Present(mtime, text)));
  }

  function Drawn(op: Op): set<string> {
    if op.Update? then {} else {op.token}
  }

  lemma {:induction false} MoreInv(c: Crypto, s: Service, tokens: set<string>, more: set<string>)
    requires ServiceInv(c, s, tokens) && tokens <= more
    ensures ServiceInv(c, s, more)
  {
  }

  lemma {:induction false} OpenSucceeds(c: Crypto, s: Service, op: Op, mtime: int, tokens: set<string>)
    requires ServiceInv(c, s, tokens) && EditReady(s.records, Some(op), Current(s), tokens)
    ensures ServiceInv(c, WriteFile(s, mtime, Malformed, s.records, Some(op), Current(s)), tokens)
  {
    NextFile(c, s, mtime, Malformed, s.records, Some(op), Current(s), tokens);
  }

  lemma {:induction false} ReadyToOpen(c: Crypto, s: Service, op: Op, tokens: set<string>)
    requires ServiceInv(c, s, tokens) && Succeeds(s.records, op) && (!op.Update? ==> op.token !in tokens)
    ensures EditReady(s.records, Some(op), Current(s), tokens + Drawn(op))
  {
  }

  lemma {:induction false} OpenKeepsInv(c: Crypto, s: Service, op: Op, mtime: int, tokens: set<string>)
    requires ServiceInv(c, s, tokens) && (!op.Update? ==> op.token !in tokens)
    ensures ServiceInv(c, Perform(c, s, Open(op, mtime)), tokens + Drawn(op))
  {
    MoreInv(c, s, tokens, tokens + Drawn(op));
    if s.editing.None? && Succeeds(s.records, op) {
      ReadyToOpen(c, s, op, tokens);
      OpenSucceeds(c, s, op, mtime, tokens + Drawn(op));
    }
  }

  lemma CloseTokens(m: Ledger, op: Op, tokens: set<string>)
    requires DistinctTokens(m) && TokensFrom(m, tokens)
    requires !op.Update? ==> op.token in tokens && TokensFrom(m, tokens - {op.token})
    ensures DistinctTokens(ApplyLedger(m, op)) && TokensFrom(ApplyLedger(m, op), tokens)
  {
  }

  lemma {:induction false} CloseKeepsInv(c: Crypto, s: Service, mtime: int, tokens: set<string>)
    requires ServiceInv(c, s, tokens)
    ensures ServiceInv(c, Perform(c, s, Close(mtime)), tokens)
  {
    if s.editing.Some? {
      var op := s.editing.value;
      var records, m := Apply(c, s.records, op), ApplyLedger(Current(s), op);
      ApplyRepresents(c, s.records, Current(s), op);
      CloseTokens(Current(s), op, tokens);
      NextFile(c, s, mtime, Parsed(records), records, None, m, tokens);
    }
  }

  lemma {:induction false} AuthKeepsInv(c: Crypto, s: Service, a: Action, tokens: set<string>)
    requires ServiceInv(c, s, tokens) && (a.Begin? || a.End?)
    ensures ServiceInv(c, Perform(c, s, a), tokens)
  {
    var step := if a.Begin? then Stat else Finish;
    TakeFromLoads(s.world, step);
    SameFile(c, s, Take(s.world, step), tokens);
  }

  lemma {:induction false} InvHolds(c: Crypto, actions: seq<Action>)
    requires Fresh(OpsOf(actions))
    ensures ServiceInv(c, PerformAll(c, actions), NewTokens(OpsOf(actions)))
  {
    if actions != [] {
      var before, a := actions[..|actions| - 1], actions[|actions| - 1];
      var s, ops := PerformAll(c, before), OpsOf(before);
      if a.Open? {
        assert (ops + [a.op])[..|ops|] == ops;
        InvHolds(c, before);
        OpenKeepsInv(c, s, a.op, a.mtime, NewTokens(ops));
      } else {
        assert ops + [] == ops;
        InvHolds(c, before);
        if a.Close? {
          CloseKeepsInv(c, s, a.mtime, NewTokens(ops));
        } else {
          AuthKeepsInv(c, s, a, NewTokens(ops));
        }
      }
    }
  }

  // ----- Answers -----

  /** A ledger with a nameless key fails closed; any other gives its holder. */
  ghost predicate ServiceAnswers(m: Ledger, secret: string, answer: Lookup) {
    if Named(m) then LedgerAnswers(m, secret, answer) else answer == NoMatch
  }

  /** The answer of some ledger in force since the call began. */
  ghost predicate AnswersSome(ledgers: seq<Ledger>, since: nat, secret: string, answer: Lookup) {
    exists v :: since <= v < |ledgers| && ServiceAnswers(ledgers[v], secret, answer)
  }

  /** What a cache with the keys of a whole version answers is what that version's ledger answers. */
  lemma {:induction false} WholeAnswers(c: Crypto, staticKeys: seq<APIKey>, cache: Cache, v: Version, m: Ledger,
                                        secret: string, tokens: set<string>)
    requires VersionTracked(c, v, m, tokens) && !Emptied(v)
    requires cache.loadError == LoadFails(v) && cache.keys == KeysRead(v)
    requires CollisionFree(c, tokens + {secret}) && FindKey(c, staticKeys, secret) == NoMatch
    ensures ServiceAnswers(m, secret, Authenticated(c, staticKeys, cache, secret))
  {
    var records := v.text.records;
    LoadsIffNamed(c, records, m);
    ParseEach(records);
    if ParseRecords(records).Some? {
      FindAppend(c, staticKeys, cache.keys, secret);
      ListAnswers(c, records, m, cache.keys, secret, tokens);
    }
  }

  /** The version a cache was last loaded from, if it ever was. */
  function Source(w: World): Option<nat> {
    if w.loads == [] then None else Some(w.loads[|w.loads| - 1].read)
  }

  predicate LoadedWhileOpen(w: World) {
    Source(w).Some? && Source(w).value < |w.versions| && Emptied(w.versions[Source(w).value])
  }

  /** No mtime is given to more than two versions, and these follow one another: an operation may leave the file with
      the mtime that opening gave it, or open it with the mtime it had. */
  predicate PairedStamps(vs: seq<Version>) {
    forall i, j :: 0 <= i < j < |vs| && SameStamp(vs[i], vs[j]) ==> j == i + 1
  }

  /** The cache holds what a read of this version, the last that was read, gives. */
  predicate HoldsVersion(w: World, v: nat) {
    && Source(w) == Some(v) && v < |w.versions|
    && w.cache.loadError == LoadFails(w.versions[v]) && w.cache.keys == KeysRead(w.versions[v])
  }

  lemma {:induction false} SourceRead(w: World)
    requires Sane(w) && PendingReads(w) && Decodes(w.versions[|w.versions| - 1])
    ensures HoldsVersion(Take(w, Finish), |w.versions| - 1)
  {
  }

  /** Then, unless the file is deleted, a call answers from a version that was current during it, or just before. */
  lemma {:induction false} SourceCurrent(w: World) returns (source: nat)
    requires Sane(w) && FromLoads(w) && w.pending.Some? && PairedStamps(w.versions)
    requires w.versions[w.pending.value].Present? && Decodes(w.versions[|w.versions| - 1])
    ensures HoldsVersion(Take(w, Finish), source) && w.pending.value <= source + 1
  {
    if PendingReads(w) {
      SourceRead(w);
      source := |w.versions| - 1;
    } else {
      source := Source(w).value;
    }
  }

  /** Tokens are drawn once, no two digests agree by accident, and no static key takes the secret. */
  ghost predicate Unmistakable(c: Crypto, staticKeys: seq<APIKey>, ops: seq<Op>, secret: string) {
    Fresh(ops) && CollisionFree(c, NewTokens(ops) + {secret}) && FindKey(c, staticKeys, secret) == NoMatch
  }

  lemma NotDeleted(c: Crypto, versions: seq<Version>, ledgers: seq<Ledger>, tokens: set<string>)
    requires HistoryTracked(c, versions, ledgers, tokens)
    ensures NeverDeleted(versions) && Decodes(versions[|versions| - 1])
    ensures forall i :: 0 <= i < |versions| && versions[i].Absent? ==> i == 0
  {
    forall i | 1 <= i < |versions|
      ensures versions[i].Present?
    {
      assert VersionTracked(c, versions[i], ledgers[i], tokens);
    }
  }

  /** A whole version just before the call has the ledger that was in force when the call began. */
  lemma {:induction false} JustBefore(c: Crypto, versions: seq<Version>, ledgers: seq<Ledger>, tokens: set<string>,
                                      source: nat, since: nat)
    requires HistoryTracked(c, versions, ledgers, tokens) && source < |versions| && since < |versions|
    requires !Emptied(versions[source]) && since <= source + 1
    ensures ledgers[source] == ledgers[if since <= source then source else since]
  {
    assert LedgerKept(versions, ledgers, source);
  }

  /** An answer that was not read while the file was open is a ledger's. */
  lemma {:induction false} WholeIsCurrent(c: Crypto, staticKeys: seq<APIKey>, s: Service, secret: string,
                                          tokens: set<string>)
    requires ServiceInv(c, s, tokens) && s.world.pending.Some? && PairedStamps(s.world.versions)
    requires CollisionFree(c, tokens + {secret}) && FindKey(c, staticKeys, secret) == NoMatch
    requires !LoadedWhileOpen(Take(s.world, Finish))
    ensures AnswersSome(s.ledgers, s.world.pending.value, secret,
                        Authenticated(c, staticKeys, Take(s.world, Finish).cache, secret))
  {
    var after, since := Take(s.world, Finish), s.world.pending.value;
    NotDeleted(c, s.world.versions, s.ledgers, tokens);
    if s.world.versions[since].Absent? {
      assert staticKeys + [] == staticKeys;
      assert ServiceAnswers(s.ledgers[0], secret, NoMatch);
    } else {
      var v := SourceCurrent(s.world);
      JustBefore(c, s.world.versions, s.ledgers, tokens, v, since);
      SourceAnswers(c, staticKeys, after, s.ledgers, v, secret, tokens);
      assert ServiceAnswers(s.ledgers[if since <= v then v else since], secret,
                            Authenticated(c, staticKeys, after.cache, secret));
    }
  }

  lemma {:induction false} SourceAnswers(c: Crypto, staticKeys: seq<APIKey>, w: World, ledgers: seq<Ledger>, v: nat,
                                         secret: string, tokens: set<string>)
    requires HistoryTracked(c, w.versions, ledgers, tokens)
    requires HoldsVersion(w, v) && w.versions[v].Present? && !Emptied(w.versions[v])
    requires CollisionFree(c, tokens + {secret}) && FindKey(c, staticKeys, secret) == NoMatch
    ensures ServiceAnswers(ledgers[v], secret, Authenticated(c, staticKeys, w.cache, secret))
  {
    assert VersionTracked(c, w.versions[v], ledgers[v], tokens);
    WholeAnswers(c, staticKeys, w.cache, w.versions[v], ledgers[v], secret, tokens);
  }

  /** In every interleaving of key operations with an authentication, when no static key takes the secret: the answer is
      the ledger's at some moment during the call, exactly unless it was read from a file that an operation had open,
      and then it is a denial, due only if some ledger of the call denies the secret as well. */
  lemma {:induction false} EveryAnswerCurrent(c: Crypto, staticKeys: seq<APIKey>, actions: seq<Action>, secret: string)
    requires var s := PerformAll(c, actions);
             s.world.pending.Some? && PairedStamps(s.world.versions)
    requires Unmistakable(c, staticKeys, OpsOf(actions), secret)
    ensures var s := PerformAll(c, actions);
            var after := Take(s.world, Finish);
            var answer := Authenticated(c, staticKeys, after.cache, secret);
            && (LoadedWhileOpen(after) ==> answer == NoMatch)
            && (AnswersSome(s.ledgers, s.world.pending.value, secret, answer) <==>
                  !LoadedWhileOpen(after) || AnswersSome(s.ledgers, s.world.pending.value, secret, NoMatch))
  {
    var s := PerformAll(c, actions);
    InvHolds(c, actions);
    TakeFromLoads(s.world, Finish);
    if !LoadedWhileOpen(Take(s.world, Finish)) {
      WholeIsCurrent(c, staticKeys, s, secret, NewTokens(OpsOf(actions)));
    }
  }

  // ----- The denying interleaving -----

  lemma {:induction false} WorldFromLoads(c: Crypto, actions: seq<Action>)
    ensures FromLoads(PerformAll(c, actions).world)
  {
    if actions != [] {
      var s, a := PerformAll(c, actions[..|actions| - 1]), actions[|actions| - 1];
      WorldFromLoads(c, actions[..|actions| - 1]);
      match a {
        case Open(op, mtime) => TakeFromLoads(s.world, Write(Present(mtime, Malformed)));
        case Close(mtime) =>
          if s.editing.Some? {
            TakeFromLoads(s.world, Write(Present(mtime, Parsed(Apply(c, s.records, s.editing.value)))));
          }
        case Begin => TakeFromLoads(s.world, Stat);
        case End => TakeFromLoads(s.world, Finish);
      }
    }
  }

  lemma {:induction false} PerformTwo(c: Crypto, actions: seq<Action>, a: Action, b: Action)
    ensures PerformAll(c, actions + [a, b]) == Perform(c, Perform(c, PerformAll(c, actions), a), b)
  {
    assert (actions + [a, b])[..|actions| + 1] == actions + [a];
  }

  /** Nobody has the file open, and no call is under way. */
  predicate Quiet(s: Service) {
    WellFormed(s) && s.editing == None && s.world.pending == None
  }

  /** Whatever the state, a call made while an operation has the file open denies everyone, static keys included. */
  lemma {:induction false} OpenFileCloses(c: Crypto, staticKeys: seq<APIKey>, actions: seq<Action>, op: Op, mtime: int,
                                          secret: string)
    requires var s := PerformAll(c, actions);
             Quiet(s) && Succeeds(s.records, op) && s.world.cache.mtime != Some(mtime)
    ensures var s := PerformAll(c, actions + [Open(op, mtime), Begin]);
            && s.world.pending.Some? && s.ledgers[s.world.pending.value..] == [Current(PerformAll(c, actions))]
            && Authenticated(c, staticKeys, Take(s.world, Finish).cache, secret) == NoMatch
  {
    var before := PerformAll(c, actions);
    WorldFromLoads(c, actions);
    PerformTwo(c, actions, Open(op, mtime), Begin);
    assert PerformAll(c, actions + [Open(op, mtime), Begin]).ledgers == before.ledgers + [Current(before)];
  }

  /** So it denies a key that the only ledger in force during the call grants. */
  lemma {:induction false} OpenFileDenies(c: Crypto, staticKeys: seq<APIKey>, actions: seq<Action>, op: Op, mtime: int,
                                          secret: string, id: string)
    requires var s := PerformAll(c, actions);
             && Quiet(s) && Succeeds(s.records, op) && s.world.cache.mtime != Some(mtime)
             && Named(Current(s)) && Holds(Current(s), id, secret)
    ensures var s := PerformAll(c, actions + [Open(op, mtime), Begin]);
            && s.world.pending.Some? && s.ledgers[s.world.pending.value..] == [Current(PerformAll(c, actions))]
            && Authenticated(c, staticKeys, Take(s.world, Finish).cache, secret) == NoMatch
            && !AnswersSome(s.ledgers, s.world.pending.value, secret, NoMatch)
  {
    OpenFileCloses(c, staticKeys, actions, op, mtime, secret);
  }

  // ----- Closed after the operation is over -----

  /** The last load read a file that was open, and its stamp is the current one. */
  predicate Stuck(w: World)
    requires Sane(w)
  {
    LoadedWhileOpen(w) && w.pending == None && StatOf(w.versions[|w.versions| - 1]).Stamped?
    && w.cache.mtime == Some(w.versions[|w.versions| - 1].mtime)
  }

  /** A call that nothing happens during. */
  function NextCall(w: World): (w': World)
    requires Sane(w)
    ensures Sane(w')
  {
    Take(Take(w, Stat), Finish)
  }

  /** A stuck gateway stays so, call after call, until the file changes again. */
  lemma {:induction false} StaysStuck(c: Crypto, staticKeys: seq<APIKey>, w: World, secret: string)
    requires Sane(w) && FromLoads(w) && Stuck(w)
    ensures Stuck(NextCall(w)) && Authenticated(c, staticKeys, NextCall(w).cache, secret) == NoMatch
  {
    assert NextCall(w).cache == w.cache;
  }

  /** What an undisturbed call answers from was read while the file was open exactly if the gateway is stuck. */
  lemma {:induction false} StuckExact(w: World)
    requires Sane(w) && FromLoads(w) && w.pending == None && NeverDeleted(w.versions)
    requires !Emptied(w.versions[|w.versions| - 1]) && Decodes(w.versions[|w.versions| - 1])
    ensures LoadedWhileOpen(NextCall(w)) <==> Stuck(w)
  {
    if PendingReads(Take(w, Stat)) {
      NextReads(w);
    } else {
      NextKeeps(w);
      if w.versions[|w.versions| - 1].Absent? {
        TakeFromLoads(w, Stat);
      }
    }
  }

  lemma {:induction false} NextReads(w: World)
    requires Sane(w) && w.pending == None && PendingReads(Take(w, Stat))
    requires !Emptied(w.versions[|w.versions| - 1]) && Decodes(w.versions[|w.versions| - 1])
    ensures !LoadedWhileOpen(NextCall(w)) && !Stuck(w)
  {
    SourceRead(Take(w, Stat));
  }

  lemma {:induction false} NextKeeps(w: World)
    requires Sane(w) && w.pending == None && !PendingReads(Take(w, Stat))
    ensures LoadedWhileOpen(NextCall(w)) == LoadedWhileOpen(w)
    ensures w.versions[|w.versions| - 1].Present? ==> w.cache.mtime == Some(w.versions[|w.versions| - 1].mtime)
  {
    assert NextCall(w).loads == w.loads && NextCall(w).versions == w.versions;
  }

  lemma {:induction false} BegunLedgers(c: Crypto, s: Service)
    requires Quiet(s)
    ensures var begun := Perform(c, s, Begin);
            && begun.world.pending == Some(|s.world.versions| - 1) && begun.world.versions == s.world.versions
            && begun.ledgers == s.ledgers && begun.ledgers[|s.world.versions| - 1..] == [Current(s)]
            && Take(begun.world, Finish) == NextCall(s.world)
  {
  }

  lemma {:induction false} NextIsCurrent(c: Crypto, staticKeys: seq<APIKey>, s: Service, secret: string,
                                         tokens: set<string>)
    requires ServiceInv(c, s, tokens) && Quiet(s) && PairedStamps(s.world.versions)
             && !LoadedWhileOpen(NextCall(s.world))
    requires CollisionFree(c, tokens + {secret}) && FindKey(c, staticKeys, secret) == NoMatch
    ensures ServiceAnswers(Current(s), secret, Authenticated(c, staticKeys, NextCall(s.world).cache, secret))
  {
    var begun := Perform(c, s, Begin);
    AuthKeepsInv(c, s, Begin, tokens);
    BegunLedgers(c, s);
    WholeIsCurrent(c, staticKeys, begun, secret, tokens);
  }

  /** After every interleaving that leaves the service quiet, the next undisturbed call answers as the current ledger
      exactly unless the gateway is stuck; then it denies, and that is due only if the ledger denies as well. */
  lemma {:induction false} NextCallExact(c: Crypto, staticKeys: seq<APIKey>, actions: seq<Action>, secret: string)
    requires Quiet(PerformAll(c, actions)) && PairedStamps(PerformAll(c, actions).world.versions)
    requires Unmistakable(c, staticKeys, OpsOf(actions), secret)
    ensures var s := PerformAll(c, actions);
            var answer := Authenticated(c, staticKeys, NextCall(s.world).cache, secret);
            && (Stuck(s.world) ==> answer == NoMatch)
            && (ServiceAnswers(Current(s), secret, answer) <==>
                  !Stuck(s.world) || ServiceAnswers(Current(s), secret, NoMatch))
  {
    var s, tokens := PerformAll(c, actions), NewTokens(OpsOf(actions));
    InvHolds(c, actions);
    StuckExact(s.world);
    if Stuck(s.world) {
      StaysStuck(c, staticKeys, s.world, secret);
    } else {
      NextIsCurrent(c, staticKeys, s, secret, tokens);
    }
  }

  /** And then an operation during which a call reads the emptied file, and that writes the records with the same
      mtime. */
  function ReadInBetween(actions: seq<Action>, op: Op, mtime: int): seq<Action> {
    actions + [Open(op, mtime), Begin] + [End, Close(mtime)]
  }

  function AfterBetween(c: Crypto, s: Service, op: Op, mtime: int): (s': Service)
    requires WellFormed(s)
    ensures WellFormed(s')
  {
    var during := Perform(c, s, Open(op, mtime));
    Perform(c, during.(world := NextCall(during.world)), Close(mtime))
  }

  lemma {:induction false} PerformBetween(c: Crypto, actions: seq<Action>, op: Op, mtime: int)
    ensures PerformAll(c, ReadInBetween(actions, op, mtime)) == AfterBetween(c, PerformAll(c, actions), op, mtime)
  {
    PerformTwo(c, actions, Open(op, mtime), Begin);
    PerformTwo(c, actions + [Open(op, mtime), Begin], End, Close(mtime));
  }

  lemma {:induction false} BetweenIsStuck(c: Crypto, s: Service, op: Op, mtime: int)
    requires Quiet(s) && FromLoads(s.world) && Succeeds(s.records, op) && s.world.cache.mtime != Some(mtime)
    ensures var after := AfterBetween(c, s, op, mtime);
            && Quiet(after) && Stuck(after.world)
            && after.world.versions[|after.world.versions| - 1] == Present(mtime, Parsed(Apply(c, s.records, op)))
            && Current(after) == ApplyLedger(Current(s), op)
  {
  }

  /** From every quiet state, the gateway is stuck after such an operation: the file holds the new records, and every
      call denies everyone. */
  lemma {:induction false} WriteLeavesClosed(c: Crypto, staticKeys: seq<APIKey>, actions: seq<Action>, op: Op,
                                             mtime: int, secret: string)
    requires var s := PerformAll(c, actions);
             Quiet(s) && Succeeds(s.records, op) && s.world.cache.mtime != Some(mtime)
    ensures var before, s := PerformAll(c, actions), PerformAll(c, ReadInBetween(actions, op, mtime));
            && Quiet(s) && Stuck(s.world)
            && s.world.versions[|s.world.versions| - 1] == Present(mtime, Parsed(Apply(c, before.records, op)))
            && Current(s) == ApplyLedger(Current(before), op)
            && Authenticated(c, staticKeys, NextCall(s.world).cache, secret) == NoMatch
  {
    var s := PerformAll(c, actions);
    WorldFromLoads(c, actions);
    PerformBetween(c, actions, op, mtime);
    BetweenIsStuck(c, s, op, mtime);
    WorldFromLoads(c, ReadInBetween(actions, op, mtime));
    StaysStuck(c, staticKeys, AfterBetween(c, s, op, mtime).world, secret);
  }

  /** So the key that the operation has just issued, say, is denied, by a call whose only ledger grants it. */
  lemma {:induction false} WriteLeavesDenied(c: Crypto, staticKeys: seq<APIKey>, actions: seq<Action>, op: Op,
                                             mtime: int, secret: string, id: string)
    requires var s := PerformAll(c, actions);
             && Quiet(s) && Succeeds(s.records, op) && s.world.cache.mtime != Some(mtime)
             && Named(ApplyLedger(Current(s), op)) && Holds(ApplyLedger(Current(s), op), id, secret)
    ensures var s := PerformAll(c, ReadInBetween(actions, op, mtime) + [Begin]);
            && s.world.pending.Some? && Authenticated(c, staticKeys, Take(s.world, Finish).cache, secret) == NoMatch
            && s.ledgers[s.world.pending.value..] == [ApplyLedger(Current(PerformAll(c, actions)), op)]
            && !AnswersSome(s.ledgers, s.world.pending.value, secret, NoMatch)
  {
    var all := ReadInBetween(actions, op, mtime);
    WriteLeavesClosed(c, staticKeys, actions, op, mtime, secret);
    BegunLedgers(c, PerformAll(c, all));
  }
}
