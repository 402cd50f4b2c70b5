/**
  Key operations in several threads.  Each reads the records, changes its copy and writes it back
  (gateway/auth.py:86-91, 102-112, 118-125), without a lock, so that one can overwrite another.

  Exactly the schedules in which no operation finishes while another is under way guarantee that
  the file is what the finished operations, one after another, make of it.
*/
module KeyRaces {
  import opened ApiKeys
  import opened KeyLifecycle

  /** A handler reads the file for an operation; later it writes, or finds that the operation fails. */
  datatype Act = Start(handler: nat, op: Op) | Finish(handler: nat)

  datatype Held = Held(op: Op, snapshot: seq<Record>)

  /** The file, the operations under way with the records they read, those finished, in order, and how many of these
      failed; the others returned. */
  datatype Desk = Desk(records: seq<Record>, held: map<nat, Held>, finished: seq<Op>, failed: nat)

  function Do(c: Crypto, s: Desk, a: Act): Desk {
    match a
    case Start(i, op) => if i in s.held then s else s.(held := s.held[i := Held(op, s.records)])
    case Finish(i) =>
      if i !in s.held then s
      else
        var h := s.held[i];
        if Succeeds(h.snapshot, h.op)
        then Desk(Apply(c, h.snapshot, h.op), s.held - {i}, s.finished + [h.op], s.failed)
        else Desk(s.records, s.held - {i}, s.finished + [h.op], s.failed + 1)
  }

  function DoAll(c: Crypto, acts: seq<Act>): Desk {
    if acts == [] then Desk([], map[], [], 0)
    else Do(c, DoAll(c, acts[..|acts| - 1]), acts[|acts| - 1])
  }

  /** The file is what the finished operations make, one after another. */
  predicate Serial(c: Crypto, acts: seq<Act>) {
    DoAll(c, acts).records == Run(c, DoAll(c, acts).finished)
  }

  // ----- Who wrote the file -----

  /** The operation of handler i started at the j-th act, with the file as it was then. */
  predicate StartedAt(c: Crypto, acts: seq<Act>, i: nat, h: Held, j: nat) {
    j < |acts| && acts[j] == Start(i, h.op) && h.snapshot == DoAll(c, acts[..j]).records
  }

  lemma {:induction false} HeldSinceStart(c: Crypto, acts: seq<Act>, i: nat) returns (j: nat)
    requires i in DoAll(c, acts).held
    ensures StartedAt(c, acts, i, DoAll(c, acts).held[i], j)
  {
    var n := |acts| - 1;
    if i in DoAll(c, acts[..n]).held {
      j := HeldSinceStart(c, acts[..n], i);
      assert acts[..n][..j] == acts[..j];
    } else {
      j := n;
    }
  }

  /** An act changes the file only if it finishes an operation that succeeds; then the file is what that operation makes
      of the file as it was when the operation started, and nothing of what was written since. */
  lemma {:induction false} WritesWhatItRead(c: Crypto, acts: seq<Act>)
    requires acts != []
    ensures var n := |acts| - 1;
            var before, after := DoAll(c, acts[..n]), DoAll(c, acts);
            after.records != before.records ==>
              exists i: nat, h, j: nat ::
                && StartedAt(c, acts[..n], i, h, j) && acts[n] == Finish(i) && Succeeds(h.snapshot, h.op)
                && after.records == Apply(c, h.snapshot, h.op) && after.failed == before.failed
  {
    var n := |acts| - 1;
    var before := DoAll(c, acts[..n]);
    if acts[n].Finish? && acts[n].handler in before.held {
      var j := HeldSinceStart(c, acts[..n], acts[n].handler);
    }
  }

  // ----- The shape of a schedule -----

  /** How many operations have finished, and how many had when each one under way started. */
  datatype Clock = Clock(finished: nat, since: map<nat, nat>)

  function Tick(t: Clock, a: Act): Clock {
    match a
    case Start(i, _) => if i in t.since then t else t.(since := t.since[i := t.finished])
    case Finish(i) => if i !in t.since then t else Clock(t.finished + 1, t.since - {i})
  }

  function TickAll(acts: seq<Act>): Clock {
    if acts == [] then Clock(0, map[]) else Tick(TickAll(acts[..|acts| - 1]), acts[|acts| - 1])
  }

  /** An operation finishes here that another one finished during. */
  predicate Late(t: Clock, a: Act) {
    a.Finish? && a.handler in t.since && t.since[a.handler] < t.finished
  }

  predicate Overlaps(acts: seq<Act>) {
    acts != [] && (Overlaps(acts[..|acts| - 1]) || Late(TickAll(acts[..|acts| - 1]), acts[|acts| - 1]))
  }

  predicate SameAct(a: Act, b: Act) {
    a.handler == b.handler && (a.Start? <==> b.Start?)
  }

  /** The same handlers start and finish in the same order, whatever the operations. */
  predicate SameShape(a: seq<Act>, b: seq<Act>) {
    |a| == |b| && forall k :: 0 <= k < |a| ==> SameAct(a[k], b[k])
  }

  lemma {:induction false} ShapeTicks(a: seq<Act>, b: seq<Act>)
    requires SameShape(a, b)
    ensures TickAll(a) == TickAll(b) && (Overlaps(a) <==> Overlaps(b))
  {
    if a != [] {
      var n := |a| - 1;
      ShapeTicks(a[..n], b[..n]);
      assert SameAct(a[n], b[n]);
    }
  }

  predicate Keeps(s: Desk, t: Clock) {
    && |s.finished| == t.finished && s.held.Keys == t.since.Keys
    && (forall i :: i in s.held ==> t.since[i] <= t.finished)
  }

  lemma {:induction false} ClockKeeps(c: Crypto, acts: seq<Act>)
    ensures Keeps(DoAll(c, acts), TickAll(acts))
  {
    if acts != [] {
      ClockKeeps(c, acts[..|acts| - 1]);
    }
  }

  // ----- Without overlap -----

  /** An operation during which none has finished has read the file as it is. */
  predicate UpToDate(s: Desk, t: Clock) {
    forall i :: i in s.held && i in t.since && t.since[i] == t.finished ==> s.held[i].snapshot == s.records
  }

  lemma {:induction false} AlwaysUpToDate(c: Crypto, acts: seq<Act>)
    ensures UpToDate(DoAll(c, acts), TickAll(acts))
  {
    if acts != [] {
      AlwaysUpToDate(c, acts[..|acts| - 1]);
      ClockKeeps(c, acts[..|acts| - 1]);
    }
  }

  lemma {:induction false} NoOverlapIsSerial(c: Crypto, acts: seq<Act>)
    requires !Overlaps(acts)
    ensures Serial(c, acts)
  {
    if acts != [] {
      var before := acts[..|acts| - 1];
      NoOverlapIsSerial(c, before);
      ClockKeeps(c, before);
      AlwaysUpToDate(c, before);
    }
  }

  // ----- With overlap -----

  /** No more records than finished operations; fewer once one has been overwritten. */
  predicate Short(s: Desk, t: Clock, lost: bool) {
    && |s.records| <= t.finished && (lost ==> |s.records| < t.finished)
    && forall i :: i in s.held && i in t.since ==> |s.held[i].snapshot| <= t.since[i]
  }

  /** What was read after the loss is short as well. */
  predicate ShortSince(s: Desk, t: Clock, lost: bool) {
    lost ==> forall i :: i in s.held && i in t.since && t.since[i] == t.finished ==> |s.held[i].snapshot| < t.since[i]
  }

  lemma {:induction false} OverlapIsShort(c: Crypto, acts: seq<Act>)
    ensures Short(DoAll(c, acts), TickAll(acts), Overlaps(acts))
    ensures ShortSince(DoAll(c, acts), TickAll(acts), Overlaps(acts))
  {
    if acts != [] {
      OverlapIsShort(c, acts[..|acts| - 1]);
      ClockKeeps(c, acts[..|acts| - 1]);
    }
  }

  // ----- Issues under distinct names -----

  function Name(n: nat): string {
    seq(n, _ => 'k')
  }

  /** The same schedule, with every operation an issue of its own key. */
  function Issues(acts: seq<Act>): seq<Act> {
    if acts == [] then []
    else
      var n := |acts| - 1;
      var own := Issue(Name(|acts|), "t", [], "", []);
      Issues(acts[..n]) + [if acts[n].Start? then Start(acts[n].handler, own) else acts[n]]
  }

  lemma {:induction false} IssuesShape(acts: seq<Act>)
    ensures SameShape(acts, Issues(acts))
  {
    if acts != [] {
      IssuesShape(acts[..|acts| - 1]);
    }
  }

  predicate OwnIssues(ops: seq<Op>, n: nat) {
    && (forall k :: 0 <= k < |ops| ==> ops[k].Issue? && |ops[k].id| <= n)
    && (forall j, k :: 0 <= j < k < |ops| ==> ops[j].id != ops[k].id)
  }

  /** What is finished and what is under way are all issues of different keys. */
  predicate AllOwn(s: Desk, n: nat) {
    && OwnIssues(s.finished, n)
    && (forall i :: i in s.held ==> OwnIssues(s.finished + [s.held[i].op], n))
    && (forall i, j :: i in s.held && j in s.held && i != j ==> s.held[i].op.id != s.held[j].op.id)
  }

  lemma {:induction false} StartOwn(c: Crypto, s: Desk, i: nat, n: nat)
    requires AllOwn(s, n)
    ensures AllOwn(Do(c, s, Start(i, Issue(Name(n + 1), "t", [], "", []))), n + 1)
  {
    assert |Name(n + 1)| == n + 1;
    forall j | j in s.held
      ensures |s.held[j].op.id| <= n
    {
      assert (s.finished + [s.held[j].op])[|s.finished|] == s.held[j].op;
    }
  }

  lemma {:induction false} FinishOwn(c: Crypto, s: Desk, i: nat, n: nat)
    requires AllOwn(s, n)
    ensures AllOwn(Do(c, s, Finish(i)), n)
  {
    if i in s.held {
      var done := s.finished + [s.held[i].op];
      forall j | j in s.held && j != i
        ensures OwnIssues(done + [s.held[j].op], n)
      {
        assert OwnIssues(s.finished + [s.held[j].op], n) && OwnIssues(done, n);
        assert (s.finished + [s.held[j].op])[|s.finished|] == s.held[j].op;
        forall k | 0 <= k < |s.finished|
          ensures s.finished[k].id != s.held[j].op.id
        {
          assert (s.finished + [s.held[j].op])[k] == s.finished[k];
        }
      }
    }
  }

  lemma {:induction false} IssuesOwn(c: Crypto, acts: seq<Act>)
    ensures AllOwn(DoAll(c, Issues(acts)), |acts|)
  {
    if acts != [] {
      var n := |acts| - 1;
      IssuesShape(acts);
      IssuesOwn(c, acts[..n]);
      assert |Issues(acts)| == |acts| && Issues(acts)[..n] == Issues(acts[..n]);
      var s := DoAll(c, Issues(acts[..n]));
      if acts[n].Start? {
        StartOwn(c, s, acts[n].handler, n);
      } else {
        FinishOwn(c, s, acts[n].handler, n);
      }
    }
  }

  function IdsOf(ops: seq<Op>): set<string> {
    set op | op in ops :: op.id
  }

  predicate FromIds(records: seq<Record>, ids: set<string>) {
    forall r :: r in records ==> r.id in ids
  }

  /** The records in the file, and those read from it, were issued by finished operations, all of which returned. */
  predicate AllIssued(s: Desk) {
    && s.failed == 0 && FromIds(s.records, IdsOf(s.finished))
    && (forall i :: i in s.held ==> FromIds(s.held[i].snapshot, IdsOf(s.finished)))
  }

  lemma {:induction false} FinishIssued(c: Crypto, s: Desk, i: nat, n: nat)
    requires AllOwn(s, n) && AllIssued(s) && i in s.held
    ensures AllIssued(Do(c, s, Finish(i)))
  {
    var h := s.held[i];
    var done := s.finished + [h.op];
    assert OwnIssues(done, n);
    assert h.op.id !in IdsOf(s.finished) by {
      forall op | op in s.finished
        ensures op.id != h.op.id
      {
        var k :| 0 <= k < |s.finished| && s.finished[k] == op;
        assert done[k] == op && done[|s.finished|] == h.op;
      }
    }
    assert IdsOf(done) == IdsOf(s.finished) + {h.op.id};
    assert IndexOf(h.snapshot, h.op.id) == |h.snapshot|;
    assert done[|s.finished|] == h.op;
  }

  lemma {:induction false} IssuesIssued(c: Crypto, acts: seq<Act>)
    ensures AllIssued(DoAll(c, Issues(acts)))
  {
    if acts != [] {
      var n := |acts| - 1;
      IssuesShape(acts);
      IssuesIssued(c, acts[..n]);
      IssuesOwn(c, acts[..n]);
      assert |Issues(acts)| == |acts| && Issues(acts)[..n] == Issues(acts[..n]);
      var s := DoAll(c, Issues(acts[..n]));
      if acts[n].Finish? && acts[n].handler in s.held {
        FinishIssued(c, s, acts[n].handler, n);
      }
    }
  }

  /** Issues of different keys, one after another, all succeed. */
  lemma {:induction false} OwnIssuesAll(c: Crypto, ops: seq<Op>, n: nat)
    requires OwnIssues(ops, n)
    ensures |Run(c, ops)| == |ops|
    ensures forall k :: 0 <= k < |ops| ==> Run(c, ops)[k].id == ops[k].id
  {
    if ops != [] {
      OwnIssuesAll(c, ops[..|ops| - 1], n);
    }
  }

  /** Where one operation finishes during another, some of the issued keys get lost, though every issue returned. */
  lemma {:induction false} OverlapLoses(c: Crypto, acts: seq<Act>)
    requires Overlaps(acts)
    ensures SameShape(acts, Issues(acts)) && !Serial(c, Issues(acts))
    ensures var s := DoAll(c, Issues(acts));
            s.failed == 0 && |s.records| < |s.finished|
  {
    IssuesShape(acts);
    ShapeTicks(acts, Issues(acts));
    OverlapIsShort(c, Issues(acts));
    ClockKeeps(c, Issues(acts));
    IssuesOwn(c, acts);
    IssuesIssued(c, acts);
    OwnIssuesAll(c, DoAll(c, Issues(acts)).finished, |acts|);
  }

  /** The schedules of key operations that keep every update, whatever the operations: exactly those in which none
      finishes during another. */
  lemma {:induction false} SerialIffNoOverlap(c: Crypto, acts: seq<Act>)
    ensures (forall other :: SameShape(acts, other) ==> Serial(c, other)) <==> !Overlaps(acts)
  {
    if Overlaps(acts) {
      OverlapLoses(c, acts);
    } else {
      forall other | SameShape(acts, other)
        ensures Serial(c, other)
      {
        ShapeTicks(acts, other);
        NoOverlapIsSerial(c, other);
      }
    }
  }
}
