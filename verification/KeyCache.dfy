/**
  Stat-then-read as a protocol: one reader, its two observations interleaved step by step with a
  writer that may change, break, delete and recreate the file (gateway/auth.py:45-67).

  A call should answer as a gateway started afresh on some version that was current during the
  call would.  Which histories of the file guarantee it, whatever the interleaving, is settled
  exactly: the file is never deleted, unless no static key takes the secret anyway, and an equal
  mtime tells of an equal answer, where a version that is not UTF-8 raises and leaves no stamp.
*/
module KeyCache {
  import opened Wrappers
  import opened ApiKeys
  import opened KeyStore

  datatype Version = Absent | Present(mtime: int, text: FileText)

  function StatOf(v: Version): FileStat {
    if v.Absent? then Missing else Stamped(v.mtime)
  }

  /** Reading a file that has gone since the stat is an OSError. */
  function TextOf(v: Version): FileText {
    if v.Absent? then Unreadable else v.text
  }

  /** A refresh that read text from the file, or found it gone: which version its stat saw, and which it read. */
  datatype Load = Load(stat: nat, read: nat)

  /** The file's history, its current version last; the reader's cache; between its two observations, which version
      the reader's stat saw; the loads so far; and whether the gateway has started. */
  datatype World = World(versions: seq<Version>, cache: Cache, pending: Option<nat>, loads: seq<Load>, started: bool)

  /** A call whose stat raises takes no step.  The refresh of the constructor comes first: on a fresh cache there is no
      stamp to go by.  If it raises there is no gateway, until a later start. */
  datatype Step = Write(version: Version) | Stat | Finish

  predicate Sane(w: World) {
    w.versions != [] && (w.pending.Some? ==> w.pending.value < |w.versions|)
  }

  function Initial(first: Version): World {
    World([first], FreshCache, None, [], false)
  }

  predicate Decodes(v: Version) {
    !TextOf(v).Undecodable?
  }

  function Take(w: World, s: Step): (w': World)
    requires Sane(w)
    ensures Sane(w')
  {
    match s
    case Write(v) => w.(versions := w.versions + [v])
    case Stat => if w.pending.Some? then w else w.(pending := Some(|w.versions| - 1))
    case Finish =>
      if w.pending.None? then w
      else
        var stat, last := StatOf(w.versions[w.pending.value]), |w.versions| - 1;
        var stale, decodes := Reads(w.cache, false, stat), Decodes(w.versions[last]);
        w.(cache := Reload(w.cache, false, stat, TextOf(w.versions[last])),
           loads := if stale && decodes then w.loads + [Load(w.pending.value, last)] else w.loads,
           pending := None,
           started := w.started || !stale || decodes)
  }

  function Execute(w: World, steps: seq<Step>): (w': World)
    requires Sane(w)
    ensures Sane(w')
  {
    if steps == [] then w else Take(Execute(w, steps[..|steps| - 1]), steps[|steps| - 1])
  }

  // ----- What the cache holds -----

  predicate LoadFails(v: Version) {
    Decodes(v) && KeysOf(TextOf(v)).None?
  }

  /** The keys a read of this version gives; none if it fails. */
  function KeysRead(v: Version): seq<APIKey> {
    match KeysOf(TextOf(v))
    case None => []
    case Some(keys) => keys
  }

  /** The cache is what the last load left, but for keys and stamp dropped on a missing file since. */
  predicate FromLoads(w: World) {
    if w.loads == [] then w.cache == FreshCache
    else
      var l := w.loads[|w.loads| - 1];
      && l.stat <= l.read < |w.versions| && w.versions[l.stat].Present? && Decodes(w.versions[l.read])
      && (w.pending.Some? ==> l.read <= w.pending.value)
      && w.cache.loadError == LoadFails(w.versions[l.read])
      && (if w.cache.mtime.None? then w.cache.keys == []
          else w.cache.mtime == Some(w.versions[l.stat].mtime) && w.cache.keys == KeysRead(w.versions[l.read]))
  }

  lemma {:induction false} FinishFromLoads(w: World)
    requires Sane(w) && FromLoads(w) && w.pending.Some?
    ensures FromLoads(Take(w, Finish))
  {
    var stat, last := StatOf(w.versions[w.pending.value]), |w.versions| - 1;
    if Reads(w.cache, false, stat) && Decodes(w.versions[last]) {
      assert Take(w, Finish).loads == w.loads + [Load(w.pending.value, last)];
    } else {
      assert Take(w, Finish).loads == w.loads;
    }
  }

  lemma {:induction false} TakeFromLoads(w: World, s: Step)
    requires Sane(w) && FromLoads(w)
    ensures FromLoads(Take(w, s))
  {
    if s.Finish? && w.pending.Some? {
      FinishFromLoads(w);
    }
  }

  lemma {:induction false} AlwaysFromLoads(first: Version, steps: seq<Step>)
    ensures FromLoads(Execute(Initial(first), steps))
  {
    if steps != [] {
      AlwaysFromLoads(first, steps[..|steps| - 1]);
      TakeFromLoads(Execute(Initial(first), steps[..|steps| - 1]), steps[|steps| - 1]);
    }
  }

  /** In every interleaving, the error flag says exactly that the last read failed: of a version that does not load,
      or of a file that had gone since the stat. */
  lemma {:induction false} FlagIsLastRead(first: Version, steps: seq<Step>)
    ensures var w := Execute(Initial(first), steps);
            w.cache.loadError <==>
              w.loads != [] && w.loads[|w.loads| - 1].read < |w.versions|
                && LoadFails(w.versions[w.loads[|w.loads| - 1].read])
  {
    AlwaysFromLoads(first, steps);
  }

  // ----- Answers -----

  /** Who asks: the secret, and the gateway's static keys and library. */
  datatype Question = Question(crypto: Crypto, staticKeys: seq<APIKey>, secret: string)

  /** The answer from a cache whose refresh, with this stat and text, has left it so; none if the refresh raised. */
  function Ask(q: Question, c: Cache, stat: FileStat, text: FileText): Option<Lookup> {
    match Response(q.crypto, q.staticKeys, true, c, q.secret, stat, text)
    case Ok(answer) => Some(answer)
    case Err(_) => None
  }

  /** The answer of a gateway started afresh on a version; none if it cannot start. */
  function AnswerOf(q: Question, v: Version): Option<Lookup> {
    Ask(q, Reload(FreshCache, true, StatOf(v), TextOf(v)), StatOf(v), TextOf(v))
  }

  function StaticAnswer(q: Question): Lookup {
    FindKey(q.crypto, q.staticKeys, q.secret)
  }

  lemma {:induction false} AnswerIs(q: Question, v: Version)
    ensures AnswerOf(q, v)
         == if v.Absent? then Some(StaticAnswer(q))
            else if !Decodes(v) then None
            else if LoadFails(v) then Some(NoMatch)
            else Some(FindKey(q.crypto, q.staticKeys + KeysRead(v), q.secret))
    ensures StaticAnswer(q) != NoMatch && v.Present? && Decodes(v) && !LoadFails(v) ==>
              AnswerOf(q, v) == Some(StaticAnswer(q))
  {
    assert q.staticKeys + [] == q.staticKeys;
    FindAppend(q.crypto, q.staticKeys, KeysRead(v), q.secret);
  }

  /** What the pending call is about to answer, if it does not raise. */
  function PendingAnswer(q: Question, w: World): Option<Lookup>
    requires Sane(w) && w.pending.Some?
  {
    Ask(q, Take(w, Finish).cache, StatOf(w.versions[w.pending.value]), TextOf(w.versions[|w.versions| - 1]))
  }

  /** It is the answer of some version current since the call's stat. */
  ghost predicate OfItsTime(q: Question, w: World)
    requires Sane(w) && w.pending.Some?
  {
    exists v :: w.pending.value <= v < |w.versions| && PendingAnswer(q, w) == AnswerOf(q, w.versions[v])
  }

  // ----- Which histories guarantee it -----

  predicate Follows(w: World, vs: seq<Version>) {
    w.versions <= vs
  }

  /** In every interleaving with this history, up to any point of it, every call to a started gateway answers of its
      time. */
  ghost predicate AlwaysOfItsTime(q: Question, vs: seq<Version>)
    requires vs != []
  {
    forall steps ::
      var w := Execute(Initial(vs[0]), steps);
      Follows(w, vs) && w.started && w.pending.Some? ==> OfItsTime(q, w)
  }

  /** Once there is a file, there always is. */
  predicate NeverDeleted(vs: seq<Version>) {
    forall i, j :: 0 <= i < j < |vs| && vs[i].Present? ==> vs[j].Present?
  }

  predicate SameStamp(a: Version, b: Version) {
    a.Present? && b.Present? && a.mtime == b.mtime
  }

  predicate Tells(q: Question, vs: seq<Version>, s: nat, c: nat, j: nat)
    requires s <= c <= j < |vs|
  {
    SameStamp(vs[s], vs[j]) && Decodes(vs[c]) ==> AnswerOf(q, vs[c]) == AnswerOf(q, vs[j])
  }

  /** Whatever is stamped with an mtime, because it was read after a version with it, answers as every later version
      with that mtime; what cannot be decoded gets no stamp. */
  predicate StampsTell(q: Question, vs: seq<Version>) {
    forall s, c, j :: 0 <= s <= c <= j < |vs| ==> Tells(q, vs, s, c, j)
  }

  predicate GoodHistory(q: Question, vs: seq<Version>) {
    (StaticAnswer(q) == NoMatch || NeverDeleted(vs)) && StampsTell(q, vs)
  }

  /** A cache with what a read of v gave answers as v would, but for a read of a missing file. */
  lemma {:induction false} ReadAnswers(q: Question, c: Cache, v: Version)
    requires c.loadError == LoadFails(v) && c.keys == KeysRead(v) && Decodes(v)
    requires v.Present? || StaticAnswer(q) == NoMatch
    ensures AnswerOf(q, v) == Some(Authenticated(q.crypto, q.staticKeys, c, q.secret))
  {
    AnswerIs(q, v);
  }

  predicate PendingReads(w: World)
    requires Sane(w)
  {
    w.pending.Some? && Reads(w.cache, false, StatOf(w.versions[w.pending.value]))
  }

  /** An equal stamp: the answer is that of the version once read. */
  lemma {:induction false} PendingKeeps(q: Question, w: World)
    requires Sane(w) && w.pending.Some? && FromLoads(w)
    requires w.versions[w.pending.value].Present? && !PendingReads(w)
    requires w.loads != [] && (w.versions[w.loads[|w.loads| - 1].read].Present? || StaticAnswer(q) == NoMatch)
    ensures PendingAnswer(q, w) == AnswerOf(q, w.versions[w.loads[|w.loads| - 1].read])
  {
    assert Take(w, Finish).cache == w.cache;
    ReadAnswers(q, w.cache, w.versions[w.loads[|w.loads| - 1].read]);
  }

  /** Another stamp, or none: the answer is that of the version now read. */
  lemma {:induction false} AnswersAsRead(q: Question, w: World)
    requires Sane(w) && PendingReads(w)
    requires w.versions[|w.versions| - 1].Present? || StaticAnswer(q) == NoMatch
    ensures PendingAnswer(q, w) == AnswerOf(q, w.versions[|w.versions| - 1])
  {
    var last := w.versions[|w.versions| - 1];
    if Decodes(last) {
      ReadAnswers(q, Take(w, Finish).cache, last);
    } else {
      AnswerIs(q, last);
    }
  }

  lemma {:induction false} PendingMissing(q: Question, w: World)
    requires Sane(w) && w.pending.Some? && w.versions[w.pending.value].Absent?
    ensures PendingAnswer(q, w) == Some(if w.cache.loadError then NoMatch else StaticAnswer(q))
  {
    assert q.staticKeys + [] == q.staticKeys;
  }

  lemma {:induction false} GoodIsOfItsTime(q: Question, vs: seq<Version>, w: World)
    requires GoodHistory(q, vs) && Sane(w) && Follows(w, vs) && w.pending.Some? && FromLoads(w)
    ensures OfItsTime(q, w)
  {
    var seen, last := w.pending.value, |w.versions| - 1;
    if w.versions[seen].Absent? {
      PendingMissing(q, w);
      AnswerIs(q, Absent);
      assert PendingAnswer(q, w) == AnswerOf(q, w.versions[seen]);
    } else if PendingReads(w) {
      AnswersAsRead(q, w);
      assert PendingAnswer(q, w) == AnswerOf(q, w.versions[last]);
    } else {
      GoodKeeps(q, vs, w);
    }
  }

  lemma {:induction false} GoodKeeps(q: Question, vs: seq<Version>, w: World)
    requires GoodHistory(q, vs) && Sane(w) && Follows(w, vs) && w.pending.Some? && FromLoads(w)
    requires w.versions[w.pending.value].Present? && !PendingReads(w)
    ensures PendingAnswer(q, w) == AnswerOf(q, w.versions[w.pending.value])
  {
    var l := w.loads[|w.loads| - 1];
    PendingKeeps(q, w);
    assert Tells(q, vs, l.stat, l.read, w.pending.value);
  }

  // ----- And no others do -----

  lemma {:induction false} ExecuteAppend(w: World, a: seq<Step>, b: seq<Step>)
    requires Sane(w)
    ensures Execute(w, a + b) == Execute(Execute(w, a), b)
  {
    if b == [] {
      assert a + b == a;
    } else {
      ExecuteAppend(w, a, b[..|b| - 1]);
      assert (a + b)[..|a + b| - 1] == a + b[..|b| - 1];
    }
  }

  lemma {:induction false} ExecuteOne(w: World, s: Step)
    requires Sane(w)
    ensures Execute(w, [s]) == Take(w, s)
  {
    assert [s][..0] == [];
  }

  /** A world that some interleaving with the history leads to. */
  ghost predicate Reachable(vs: seq<Version>, w: World)
    requires vs != []
  {
    exists steps :: LeadsTo(vs, steps, w)
  }

  predicate LeadsTo(vs: seq<Version>, steps: seq<Step>, w: World)
    requires vs != []
  {
    Execute(Initial(vs[0]), steps) == w
  }

  lemma {:induction false} ReachStep(vs: seq<Version>, w: World, s: Step)
    requires vs != [] && Sane(w) && Reachable(vs, w)
    ensures Reachable(vs, Take(w, s))
  {
    var steps :| LeadsTo(vs, steps, w);
    ExecuteAppend(Initial(vs[0]), steps, [s]);
    ExecuteOne(w, s);
    assert LeadsTo(vs, steps + [s], Take(w, s));
  }

  /** The history as far as n versions. */
  function At(w: World, vs: seq<Version>, n: nat): World
    requires n <= |vs|
  {
    w.(versions := vs[..n])
  }

  lemma AtNext(w: World, vs: seq<Version>, n: nat)
    requires n < |vs| && Sane(At(w, vs, n))
    ensures Take(At(w, vs, n), Write(vs[n])) == At(w, vs, n + 1)
  {
    assert vs[..n] + [vs[n]] == vs[..n + 1];
  }

  /** The writer goes on alone. */
  lemma {:induction false} ReachWrites(vs: seq<Version>, w: World, m: nat, n: nat)
    requires 1 <= m <= n <= |vs| && w.versions == vs[..m] && Sane(w) && Reachable(vs, w)
    ensures Sane(At(w, vs, n)) && Reachable(vs, At(w, vs, n))
  {
    if m < n {
      ReachWrites(vs, w, m, n - 1);
      AtNext(w, vs, n - 1);
      ReachStep(vs, At(w, vs, n - 1), Write(vs[n - 1]));
    } else {
      assert At(w, vs, n) == w;
    }
  }

  /** The version at index i is current, and nothing done yet. */
  lemma {:induction false} ReachIdle(vs: seq<Version>, i: nat)
    requires i < |vs|
    ensures Reachable(vs, World(vs[..i + 1], FreshCache, None, [], false))
  {
    var w := Initial(vs[0]);
    assert Execute(w, []) == w;
    assert LeadsTo(vs, [], w);
    assert vs[..1] == [vs[0]];
    ReachWrites(vs, w, 1, i + 1);
  }

  /** What a start leaves that stats at s and reads at c. */
  function Loaded(vs: seq<Version>, s: nat, c: nat): World
    requires s <= c < |vs| && vs[s].Present? && Decodes(vs[c])
  {
    World(vs[..c + 1], Reload(FreshCache, false, Stamped(vs[s].mtime), TextOf(vs[c])), None, [Load(s, c)], true)
  }

  lemma {:induction false} FirstLoad(vs: seq<Version>, s: nat, c: nat)
    requires s <= c < |vs| && vs[s].Present? && Decodes(vs[c])
    ensures Take(World(vs[..c + 1], FreshCache, Some(s), [], false), Finish) == Loaded(vs, s, c)
  {
  }

  lemma {:induction false} ReachLoaded(vs: seq<Version>, s: nat, c: nat)
    requires s <= c < |vs| && vs[s].Present? && Decodes(vs[c])
    ensures Reachable(vs, Loaded(vs, s, c))
  {
    ReachStatted(vs, s, c);
    FirstLoad(vs, s, c);
    ReachStep(vs, World(vs[..c + 1], FreshCache, Some(s), [], false), Finish);
  }

  /** A start that has seen version s, with version c now current. */
  lemma {:induction false} ReachStatted(vs: seq<Version>, s: nat, c: nat)
    requires s <= c < |vs|
    ensures Reachable(vs, World(vs[..c + 1], FreshCache, Some(s), [], false))
  {
    ReachIdle(vs, s);
    var w := World(vs[..s + 1], FreshCache, None, [], false);
    ReachStep(vs, w, Stat);
    ReachWrites(vs, Take(w, Stat), s + 1, c + 1);
  }

  /** Then a call that stats, and finishes, at j. */
  lemma {:induction false} ReachSecond(vs: seq<Version>, s: nat, c: nat, j: nat)
    requires s <= c <= j < |vs| && vs[s].Present? && Decodes(vs[c])
    ensures Reachable(vs, Second(vs, s, c, j))
  {
    ReachLoaded(vs, s, c);
    ReachWrites(vs, Loaded(vs, s, c), c + 1, j + 1);
    ReachStep(vs, At(Loaded(vs, s, c), vs, j + 1), Stat);
  }

  /** A call that answers of no time refutes the history. */
  lemma {:induction false} Refutes(q: Question, vs: seq<Version>, w: World)
    requires vs != [] && Sane(w) && Reachable(vs, w) && Follows(w, vs) && w.started && w.pending.Some?
             && !OfItsTime(q, w)
    ensures !AlwaysOfItsTime(q, vs)
  {
    var steps :| LeadsTo(vs, steps, w);
  }

  /** A call that nothing happens during has one time. */
  lemma OnlyVersion(q: Question, w: World, j: nat)
    requires Sane(w) && w.pending == Some(j) && j == |w.versions| - 1
    ensures OfItsTime(q, w) <==> PendingAnswer(q, w) == AnswerOf(q, w.versions[j])
  {
    if OfItsTime(q, w) {
      var v :| w.pending.value <= v < |w.versions| && PendingAnswer(q, w) == AnswerOf(q, w.versions[v]);
      assert v == j;
    }
  }

  /** A call at j alone, after a start that saw s and read c. */
  function Second(vs: seq<Version>, s: nat, c: nat, j: nat): World
    requires s <= c <= j < |vs| && vs[s].Present? && Decodes(vs[c])
  {
    Loaded(vs, s, c).(versions := vs[..j + 1], pending := Some(j))
  }

  lemma {:induction false} RefutesAt(q: Question, vs: seq<Version>, s: nat, c: nat, j: nat)
    requires s <= c <= j < |vs| && vs[s].Present? && Decodes(vs[c])
    requires PendingAnswer(q, Second(vs, s, c, j)) != AnswerOf(q, vs[j])
    ensures !AlwaysOfItsTime(q, vs)
  {
    ReachSecond(vs, s, c, j);
    OnlyVersion(q, Second(vs, s, c, j), j);
    Refutes(q, vs, Second(vs, s, c, j));
  }

  /** An equal stamp that does not tell: the call keeps what the start read. */
  lemma {:induction false} StampMisleads(q: Question, vs: seq<Version>, s: nat, c: nat, j: nat)
    requires s <= c <= j < |vs| && SameStamp(vs[s], vs[j]) && AnswerOf(q, vs[c]) != AnswerOf(q, vs[j])
    requires Decodes(vs[c]) && (vs[c].Present? || StaticAnswer(q) == NoMatch)
    ensures !AlwaysOfItsTime(q, vs)
  {
    PendingKeeps(q, Second(vs, s, c, j));
    RefutesAt(q, vs, s, c, j);
  }

  /** A version that does not load, seen once, denies everyone after the file has gone. */
  lemma {:induction false} BrokenThenDeleted(q: Question, vs: seq<Version>, h: nat, j: nat)
    requires h < j < |vs| && vs[h].Present? && LoadFails(vs[h]) && vs[j].Absent? && StaticAnswer(q) != NoMatch
    ensures PendingAnswer(q, Second(vs, h, h, j)) == Some(NoMatch)
    ensures !AlwaysOfItsTime(q, vs)
  {
    PendingMissing(q, Second(vs, h, h, j));
    AnswerIs(q, Absent);
    RefutesAt(q, vs, h, h, j);
  }

  /** A version deleted between the stat and the read of a start: the gateway denies a secret that a version in order
      and its absence would both grant. */
  lemma {:induction false} DeletedBetween(q: Question, vs: seq<Version>, j: nat)
    requires 0 < j < |vs| && vs[j - 1].Present? && vs[j].Absent? && StaticAnswer(q) != NoMatch
    ensures AnswerOf(q, vs[j]) == Some(StaticAnswer(q))
    ensures !LoadFails(vs[j - 1]) && Decodes(vs[j - 1]) ==> AnswerOf(q, vs[j - 1]) == Some(StaticAnswer(q))
    ensures PendingAnswer(q, Second(vs, j - 1, j, j)) == Some(NoMatch)
    ensures !AlwaysOfItsTime(q, vs)
  {
    AnswerIs(q, vs[j - 1]);
    AnswerIs(q, vs[j]);
    PendingMissing(q, Second(vs, j - 1, j, j));
    RefutesAt(q, vs, j - 1, j, j);
  }

  lemma {:induction false} FirstDeletion(vs: seq<Version>, i: nat, j: nat) returns (d: nat)
    requires i < j < |vs| && vs[i].Present? && vs[j].Absent?
    ensures 0 < d < |vs| && vs[d - 1].Present? && vs[d].Absent?
    decreases j
  {
    if vs[j - 1].Present? {
      d := j;
    } else {
      d := FirstDeletion(vs, i, j - 1);
    }
  }

  lemma {:induction false} DeletionRefutes(q: Question, vs: seq<Version>)
    requires vs != [] && StaticAnswer(q) != NoMatch && !NeverDeleted(vs)
    ensures !AlwaysOfItsTime(q, vs)
  {
    var i, j :| 0 <= i < j < |vs| && vs[i].Present? && !vs[j].Present?;
    var d := FirstDeletion(vs, i, j);
    DeletedBetween(q, vs, d);
  }

  lemma {:induction false} StampRefutes(q: Question, vs: seq<Version>)
    requires vs != [] && (StaticAnswer(q) == NoMatch || NeverDeleted(vs)) && !StampsTell(q, vs)
    ensures !AlwaysOfItsTime(q, vs)
  {
    var s, c, j :| 0 <= s <= c <= j < |vs| && !Tells(q, vs, s, c, j);
    StampMisleads(q, vs, s, c, j);
  }

  /** The histories on which every call, however interleaved, answers of its time: exactly those in which the file is
      never deleted, unless no static key takes the secret, and an equal stamp tells of an equal answer. */
  lemma {:induction false} AnswersOfTheirTime(q: Question, vs: seq<Version>)
    requires vs != []
    ensures AlwaysOfItsTime(q, vs) <==> GoodHistory(q, vs)
  {
    if GoodHistory(q, vs) {
      forall steps | Follows(Execute(Initial(vs[0]), steps), vs) && Execute(Initial(vs[0]), steps).pending.Some?
        ensures OfItsTime(q, Execute(Initial(vs[0]), steps))
      {
        AlwaysFromLoads(vs[0], steps);
        GoodIsOfItsTime(q, vs, Execute(Initial(vs[0]), steps));
      }
    } else if StaticAnswer(q) != NoMatch && !NeverDeleted(vs) {
      DeletionRefutes(q, vs);
    } else {
      StampRefutes(q, vs);
    }
  }

  /** With the file missing, the next undisturbed call answers as a gateway started afresh would, exactly if the last
      read was in order or no static key takes the secret anyway. */
  lemma {:induction false} MissingFileAnswers(q: Question, first: Version, steps: seq<Step>)
    requires var w := Execute(Initial(first), steps);
             w.pending.None? && w.versions[|w.versions| - 1].Absent?
    ensures var w := Execute(Initial(first), steps);
            var failed := w.loads != [] && w.loads[|w.loads| - 1].read < |w.versions|
                          && LoadFails(w.versions[w.loads[|w.loads| - 1].read]);
            PendingAnswer(q, Take(w, Stat)) == AnswerOf(q, Absent) <==> !failed || StaticAnswer(q) == NoMatch
  {
    FlagIsLastRead(first, steps);
    AnswerIs(q, Absent);
    PendingMissing(q, Take(Execute(Initial(first), steps), Stat));
  }

  /** The next undisturbed call raises exactly if the file is not UTF-8 and its stamp is new to the cache; and that
      leaves the cache as it was, so that the call after it raises as well. */
  lemma {:induction false} RaisesIff(q: Question, w: World)
    requires Sane(w) && w.pending.None?
    ensures var v, during := w.versions[|w.versions| - 1], Take(w, Stat);
            && (PendingAnswer(q, during) == None <==> v.Present? && !Decodes(v) && w.cache.mtime != Some(v.mtime))
            && (PendingAnswer(q, during) == None ==> Take(during, Finish).cache == w.cache)
  {
    var v, during := w.versions[|w.versions| - 1], Take(w, Stat);
    EscapeShows(w.cache, StatOf(v), TextOf(v));
    assert Take(during, Finish).cache == Reload(w.cache, false, StatOf(v), TextOf(v));
  }
}
