/**
  `_allow_window` as the threads of the HTTP server run it: several handlers on one deque,
  without a lock, each Python-level operation on the deque atomic.

  A schedule says which handler moves next; a run is any schedule, with any clock readings.
*/
module RateLimitThreads {
  import opened RateLimit

  /** Where a handler is inside `_allow_window`. */
  datatype Handler =
    | Idle
    | TestEmpty(now: Time)    // about to evaluate `values`
    | TestHead(now: Time)     // about to evaluate `values[0] <= cutoff`
    | PopHead(now: Time)      // about to call `values.popleft()`
    | TestLength(now: Time)   // about to evaluate `len(values) >= limit`
    | Append(now: Time)       // about to call `values.append(now)`
    | Returned(allowed: bool)
    | Raised                  // IndexError: the head was gone

  datatype Shared = Shared(deque: seq<Time>, handlers: seq<Handler>)

  /** A handler is called, makes its next step, or turns away before it has looked at the deque. */
  datatype Action = Call(handler: nat, now: Time) | Move(handler: nat) | Leave(handler: nat)

  function Start(k: nat): Shared {
    Shared([], seq(k, _ => Idle))
  }

  /** One atomic operation of one handler; the new deque and where the handler is next. */
  function Operation(deque: seq<Time>, h: Handler, window: Time, limit: int): (seq<Time>, Handler) {
    match h
    case TestEmpty(now) => (deque, if deque == [] then TestLength(now) else TestHead(now))
    case TestHead(now) =>
      (deque, if deque == [] then Raised else if deque[0] <= now - window then PopHead(now) else TestLength(now))
    case PopHead(now) => if deque == [] then (deque, Raised) else (deque[1..], TestEmpty(now))
    case TestLength(now) => (deque, if |deque| >= limit then Returned(false) else Append(now))
    case Append(now) => (deque + [now], Returned(true))
    case _ => (deque, h)
  }

  predicate Resting(h: Handler) {
    h.Idle? || h.Returned? || h.Raised?
  }

  function Act(s: Shared, a: Action, window: Time, limit: int): (r: Shared)
    ensures |r.handlers| == |s.handlers|
  {
    if a.handler >= |s.handlers| then s
    else
      var h := s.handlers[a.handler];
      match a
      case Call(i, now) => if Resting(h) then s.(handlers := s.handlers[i := TestEmpty(now)]) else s
      case Move(i) =>
        var (deque, h') := Operation(s.deque, h, window, limit);
        Shared(deque, s.handlers[i := h'])
      case Leave(i) => if h.TestEmpty? then s.(handlers := s.handlers[i := Returned(false)]) else s
  }

  function Execute(s: Shared, schedule: seq<Action>, window: Time, limit: int): (r: Shared)
    ensures |r.handlers| == |s.handlers|
  {
    if schedule == [] then s
    else
      var n := |schedule| - 1;
      Act(Execute(s, schedule[..n], window, limit), schedule[n], window, limit)
  }

  // ----- The length bound -----

  /** Handlers that have seen room and are about to append. */
  function Committed(handlers: seq<Handler>): nat {
    if handlers == [] then 0
    else
      var n := |handlers| - 1;
      Committed(handlers[..n]) + (if handlers[n].Append? then 1 else 0)
  }

  lemma {:induction false} CommittedUpdate(handlers: seq<Handler>, i: nat, h: Handler)
    requires i < |handlers|
    ensures Committed(handlers[i := h])
         == Committed(handlers) - (if handlers[i].Append? then 1 else 0) + (if h.Append? then 1 else 0)
  {
    var n := |handlers| - 1;
    if i < n {
      CommittedUpdate(handlers[..n], i, h);
      assert handlers[i := h][..n] == handlers[..n][i := h];
    } else {
      assert handlers[i := h][..n] == handlers[..n];
    }
  }

  lemma {:induction false} CommittedAtMost(handlers: seq<Handler>)
    ensures Committed(handlers) <= |handlers|
  {
    if handlers != [] {
      CommittedAtMost(handlers[..|handlers| - 1]);
    }
  }

  /** What is in the deque and what is about to be, together. */
  predicate Bounded(s: Shared, limit: int) {
    |s.deque| + Committed(s.handlers) <= limit + |s.handlers| - 1
  }

  lemma {:induction false} ActKeepsBound(s: Shared, a: Action, window: Time, limit: int)
    requires Bounded(s, limit)
    ensures Bounded(Act(s, a, window, limit), limit)
  {
    if a.handler < |s.handlers| {
      var s' := Act(s, a, window, limit);
      CommittedUpdate(s.handlers, a.handler, s'.handlers[a.handler]);
      CommittedAtMost(s'.handlers);
      if s'.handlers != s.handlers {
        assert s'.handlers == s.handlers[a.handler := s'.handlers[a.handler]];
      }
    }
  }

  lemma {:induction false} NoneCommitted(k: nat)
    ensures Committed(Start(k).handlers) == 0
  {
    if k > 0 {
      NoneCommitted(k - 1);
      assert Start(k).handlers[..k - 1] == Start(k - 1).handlers;
    }
  }

  /** In every run of k handlers, whatever their clocks say, the deque holds at most limit + k - 1 entries. */
  lemma {:induction false} ThreadBound(k: nat, schedule: seq<Action>, window: Time, limit: int)
    requires k > 0 && limit >= 0
    ensures |Execute(Start(k), schedule, window, limit).deque| <= limit + k - 1
    ensures Bounded(Execute(Start(k), schedule, window, limit), limit)
  {
    if schedule == [] {
      NoneCommitted(k);
    } else {
      var n := |schedule| - 1;
      ThreadBound(k, schedule[..n], window, limit);
      ActKeepsBound(Execute(Start(k), schedule[..n], window, limit), schedule[n], window, limit);
    }
  }

  // ----- The bound is met -----

  lemma {:induction false} ExecuteAppend(s: Shared, first: seq<Action>, second: seq<Action>, window: Time, limit: int)
    ensures Execute(s, first + second, window, limit)
         == Execute(Execute(s, first, window, limit), second, window, limit)
  {
    if second == [] {
      assert first + second == first;
    } else {
      var n := |second| - 1;
      ExecuteAppend(s, first, second[..n], window, limit);
      assert (first + second)[..|first| + n] == first + second[..n];
    }
  }

  /** A handler with the deque's head still fresh goes straight from the call to the append. */
  lemma {:induction false} RunToCommit(s: Shared, i: nat, window: Time, limit: int) returns (schedule: seq<Action>)
    requires i < |s.handlers| && Resting(s.handlers[i]) && |s.deque| < limit && window > 0.0
    requires forall j :: 0 <= j < |s.deque| ==> s.deque[j] == 0.0
    ensures Execute(s, schedule, window, limit) == Shared(s.deque, s.handlers[i := Append(0.0)])
  {
    schedule := [Call(i, 0.0)];
    var moves := if s.deque == [] then 2 else 3;
    var at := s.handlers[i := TestEmpty(0.0)];
    var done := 0;
    while done < moves
      invariant 0 <= done <= moves
      invariant Execute(s, schedule, window, limit) == Shared(s.deque, at)
      invariant at == s.handlers[i := at[i]]
      invariant at[i] == if done == moves then Append(0.0) else if done == moves - 1 then TestLength(0.0)
                         else if done == 0 then TestEmpty(0.0) else TestHead(0.0)
      invariant |at| == |s.handlers|
    {
      ExecuteAppend(s, schedule, [Move(i)], window, limit);
      schedule := schedule + [Move(i)];
      at := Execute(s, schedule, window, limit).handlers;
      done := done + 1;
    }
  }

  lemma {:induction false} Finish(s: Shared, i: nat, window: Time, limit: int)
    requires i < |s.handlers| && s.handlers[i] == Append(0.0)
    ensures Execute(s, [Move(i)], window, limit) == Shared(s.deque + [0.0], s.handlers[i := Returned(true)])
  {
  }

  function Zeros(n: nat): (r: seq<Time>)
    ensures |r| == n
  {
    seq(n, _ => 0.0)
  }

  predicate AllResting(handlers: seq<Handler>) {
    forall i :: 0 <= i < |handlers| ==> Resting(handlers[i])
  }

  /** One handler after another, nothing interleaved, fills the deque up to n entries. */
  lemma {:induction false} FillAlone(k: nat, n: nat, window: Time, limit: int) returns (schedule: seq<Action>)
    requires k > 0 && n <= limit && window > 0.0
    ensures var s := Execute(Start(k), schedule, window, limit);
            s.deque == Zeros(n) && |s.handlers| == k && AllResting(s.handlers)
  {
    if n == 0 {
      schedule := [];
    } else {
      schedule := FillAlone(k, n - 1, window, limit);
      var s := Execute(Start(k), schedule, window, limit);
      var commit := RunToCommit(s, 0, window, limit);
      ExecuteAppend(Start(k), schedule, commit, window, limit);
      var s' := Execute(s, commit, window, limit);
      Finish(s', 0, window, limit);
      ExecuteAppend(Start(k), schedule + commit, [Move(0)], window, limit);
      schedule := schedule + commit + [Move(0)];
    }
  }

  predicate FirstCommitted(handlers: seq<Handler>, n: nat) {
    && n <= |handlers|
    && (forall i :: 0 <= i < n ==> handlers[i] == Append(0.0))
    && (forall i :: n <= i < |handlers| ==> Resting(handlers[i]))
  }

  /** n handlers all see the last free slot before any of them takes it. */
  lemma {:induction false} CommitTogether(s: Shared, n: nat, window: Time, limit: int) returns (schedule: seq<Action>)
    requires AllResting(s.handlers) && n <= |s.handlers| && window > 0.0
    requires |s.deque| < limit && s.deque == Zeros(|s.deque|)
    ensures var r := Execute(s, schedule, window, limit);
            r.deque == s.deque && |r.handlers| == |s.handlers| && FirstCommitted(r.handlers, n)
  {
    if n == 0 {
      schedule := [];
    } else {
      schedule := CommitTogether(s, n - 1, window, limit);
      var commit := RunToCommit(Execute(s, schedule, window, limit), n - 1, window, limit);
      ExecuteAppend(s, schedule, commit, window, limit);
      schedule := schedule + commit;
    }
  }

  /** Then all n of them append. */
  lemma {:induction false} AppendTogether(s: Shared, n: nat, window: Time, limit: int) returns (schedule: seq<Action>)
    requires n <= |s.handlers|
    requires forall i :: 0 <= i < n ==> s.handlers[i] == Append(0.0)
    ensures |Execute(s, schedule, window, limit).deque| == |s.deque| + n
    decreases n
  {
    if n == 0 {
      schedule := [];
    } else {
      Finish(s, n - 1, window, limit);
      var s' := Execute(s, [Move(n - 1)], window, limit);
      schedule := AppendTogether(s', n - 1, window, limit);
      ExecuteAppend(s, [Move(n - 1)], schedule, window, limit);
      schedule := [Move(n - 1)] + schedule;
    }
  }

  /** The bound is exact: for every number of handlers and every limit some run reaches it. */
  lemma {:induction false} ThreadBoundIsMet(k: nat, window: Time, limit: int)
    requires k > 0 && limit > 0 && window > 0.0
    ensures exists schedule :: |Execute(Start(k), schedule, window, limit).deque| == limit + k - 1
  {
    var fill := FillAlone(k, limit - 1, window, limit);
    var s1 := Execute(Start(k), fill, window, limit);
    var commit := CommitTogether(s1, k, window, limit);
    var s2 := Execute(s1, commit, window, limit);
    var finish := AppendTogether(s2, k, window, limit);
    ExecuteAppend(Start(k), fill, commit, window, limit);
    ExecuteAppend(Start(k), fill + commit, finish, window, limit);
    assert |Execute(Start(k), fill + commit + finish, window, limit).deque| == limit + k - 1;
  }

  // ----- When popleft finds the deque empty -----

  ghost predicate CanRaise(k: nat, window: Time, limit: int) {
    exists schedule :: SomeRaised(Execute(Start(k), schedule, window, limit))
  }

  predicate SomeRaised(s: Shared) {
    exists i :: 0 <= i < |s.handlers| && s.handlers[i].Raised?
  }

  /** A lone handler that is about to look at or pop the head still has one. */
  predicate HeadPresent(s: Shared, limit: int) {
    && |s.handlers| <= 1
    && (forall i :: 0 <= i < |s.handlers| ==>
          !s.handlers[i].Raised? && (s.handlers[i].TestHead? || s.handlers[i].PopHead? ==> s.deque != []))
  }

  lemma {:induction false} AloneNeverRaises(k: nat, schedule: seq<Action>, window: Time, limit: int)
    requires k <= 1
    ensures HeadPresent(Execute(Start(k), schedule, window, limit), limit)
  {
    if schedule != [] {
      AloneNeverRaises(k, schedule[..|schedule| - 1], window, limit);
    }
  }

  /** With no room at all nothing is ever appended, so nothing is ever popped. */
  predicate Untouched(s: Shared) {
    && s.deque == []
    && (forall i :: 0 <= i < |s.handlers| ==>
          var h := s.handlers[i];
          h.Idle? || h.Returned? || h.TestEmpty? || h.TestLength?)
  }

  lemma {:induction false} NoRoomNeverRaises(k: nat, schedule: seq<Action>, window: Time, limit: int)
    requires limit <= 0
    ensures Untouched(Execute(Start(k), schedule, window, limit))
  {
    if schedule != [] {
      NoRoomNeverRaises(k, schedule[..|schedule| - 1], window, limit);
    }
  }

  predicate Follows(states: seq<Shared>, schedule: seq<Action>, window: Time, limit: int) {
    && |states| == |schedule| + 1
    && (forall i :: 0 <= i < |schedule| ==> states[i + 1] == Act(states[i], schedule[i], window, limit))
  }

  lemma {:induction false} FollowsExecutes(states: seq<Shared>, schedule: seq<Action>, window: Time, limit: int)
    requires Follows(states, schedule, window, limit)
    ensures Execute(states[0], schedule, window, limit) == states[|schedule|]
  {
    if schedule != [] {
      var n := |schedule| - 1;
      FollowsExecutes(states[..n + 1], schedule[..n], window, limit);
    }
  }

  function With(k: nat, deque: seq<Time>, h0: Handler, h1: Handler): Shared
    requires k >= 2
  {
    Shared(deque, Start(k).handlers[0 := h0][1 := h1])
  }

  /** One request is recorded, and its handler returns. */
  lemma {:induction false} FirstRecorded(k: nat, window: Time, limit: int) returns (schedule: seq<Action>)
    requires k >= 2 && limit > 0 && window > 0.0
    ensures Execute(Start(k), schedule, window, limit) == With(k, [0.0], Returned(true), Idle)
  {
    schedule := [Call(0, 0.0), Move(0), Move(0), Move(0)];
    var states := [With(k, [], Idle, Idle), With(k, [], TestEmpty(0.0), Idle), With(k, [], TestLength(0.0), Idle),
                   With(k, [], Append(0.0), Idle), With(k, [0.0], Returned(true), Idle)];
    assert Follows(states, schedule, window, limit);
    FollowsExecutes(states, schedule, window, limit);
    assert With(k, [], Idle, Idle) == Start(k);
  }

  /** Both handlers see the same expired head, one after the other. */
  lemma {:induction false} FirstSeesHead(k: nat, w: Time, limit: int)
    requires k >= 2 && w > 0.0
    ensures Execute(With(k, [0.0], Returned(true), Idle), [Call(0, w), Move(0), Move(0)], w, limit)
         == With(k, [0.0], PopHead(w), Idle)
  {
    var states := [With(k, [0.0], Returned(true), Idle), With(k, [0.0], TestEmpty(w), Idle),
                   With(k, [0.0], TestHead(w), Idle), With(k, [0.0], PopHead(w), Idle)];
    assert Follows(states, [Call(0, w), Move(0), Move(0)], w, limit);
    FollowsExecutes(states, [Call(0, w), Move(0), Move(0)], w, limit);
  }

  lemma {:induction false} SecondSeesHead(k: nat, w: Time, limit: int)
    requires k >= 2 && w > 0.0
    ensures Execute(With(k, [0.0], PopHead(w), Idle), [Call(1, w), Move(1), Move(1)], w, limit)
         == With(k, [0.0], PopHead(w), PopHead(w))
  {
    var states := [With(k, [0.0], PopHead(w), Idle), With(k, [0.0], PopHead(w), TestEmpty(w)),
                   With(k, [0.0], PopHead(w), TestHead(w)), With(k, [0.0], PopHead(w), PopHead(w))];
    assert Follows(states, [Call(1, w), Move(1), Move(1)], w, limit);
    FollowsExecutes(states, [Call(1, w), Move(1), Move(1)], w, limit);
  }

  /** The first pops it, the second finds nothing to pop. */
  lemma {:induction false} SecondPopRaises(k: nat, w: Time, limit: int)
    requires k >= 2
    ensures Execute(With(k, [0.0], PopHead(w), PopHead(w)), [Move(0), Move(1)], w, limit)
         == With(k, [], TestEmpty(w), Raised)
  {
    var states := [With(k, [0.0], PopHead(w), PopHead(w)), With(k, [], TestEmpty(w), PopHead(w)),
                   With(k, [], TestEmpty(w), Raised)];
    assert Follows(states, [Move(0), Move(1)], w, limit);
    FollowsExecutes(states, [Move(0), Move(1)], w, limit);
  }

  lemma {:induction false} TwoHandlersRaise(k: nat, window: Time, limit: int)
    requires k >= 2 && limit > 0 && window > 0.0
    ensures CanRaise(k, window, limit)
  {
    var record := FirstRecorded(k, window, limit);
    FirstSeesHead(k, window, limit);
    SecondSeesHead(k, window, limit);
    SecondPopRaises(k, window, limit);
    var s := record + [Call(0, window), Move(0), Move(0)];
    var s' := s + [Call(1, window), Move(1), Move(1)];
    ExecuteAppend(Start(k), record, [Call(0, window), Move(0), Move(0)], window, limit);
    ExecuteAppend(Start(k), s, [Call(1, window), Move(1), Move(1)], window, limit);
    ExecuteAppend(Start(k), s', [Move(0), Move(1)], window, limit);
    assert Execute(Start(k), s' + [Move(0), Move(1)], window, limit).handlers[1].Raised?;
    assert SomeRaised(Execute(Start(k), s' + [Move(0), Move(1)], window, limit));
  }

  /** Exactly when pruning can fail with an IndexError: two handlers suffice, one never does. */
  lemma {:induction false} RaisesIff(k: nat, window: Time, limit: int)
    requires window > 0.0
    ensures CanRaise(k, window, limit) <==> k >= 2 && limit > 0
  {
    if k >= 2 && limit > 0 {
      TwoHandlersRaise(k, window, limit);
    } else {
      forall schedule
        ensures !SomeRaised(Execute(Start(k), schedule, window, limit))
      {
        if k <= 1 {
          AloneNeverRaises(k, schedule, window, limit);
        } else {
          NoRoomNeverRaises(k, schedule, window, limit);
        }
      }
    }
  }
}
