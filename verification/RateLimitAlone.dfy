/**
  A handler that nobody interrupts: its atomic steps on the deques, together, are the sequential
  limiter's one step.
*/
module RateLimitAlone {
  import opened RateLimit
  import opened RateLimitAllowRaces
  import opened RateLimitThreads

  // ----- One deque -----

  /** n operations of one handler. */
  function Solo(deque: seq<Time>, h: Handler, n: nat, window: Time, limit: int): (seq<Time>, Handler) {
    if n == 0 then (deque, h)
    else
      var before := Solo(deque, h, n - 1, window, limit);
      Operation(before.0, before.1, window, limit)
  }

  lemma {:induction false} SoloAdd(deque: seq<Time>, h: Handler, n: nat, m: nat, window: Time, limit: int)
    ensures var middle := Solo(deque, h, n, window, limit);
            Solo(deque, h, n + m, window, limit) == Solo(middle.0, middle.1, m, window, limit)
  {
    if m > 0 {
      SoloAdd(deque, h, n, m - 1, window, limit);
    }
  }

  /** The handler is at work until then. */
  predicate BusyBefore(deque: seq<Time>, h: Handler, n: nat, window: Time, limit: int) {
    forall m: nat :: m < n ==> !Resting(Solo(deque, h, m, window, limit).1)
  }

  lemma {:induction false} BusyAdd(deque: seq<Time>, h: Handler, n: nat, m: nat, window: Time, limit: int)
    requires BusyBefore(deque, h, n, window, limit)
    requires var middle := Solo(deque, h, n, window, limit);
             BusyBefore(middle.0, middle.1, m, window, limit)
    ensures BusyBefore(deque, h, n + m, window, limit)
  {
    forall j: nat | j < n + m
      ensures !Resting(Solo(deque, h, j, window, limit).1)
    {
      if j >= n {
        SoloAdd(deque, h, n, j - n, window, limit);
      }
    }
  }

  /** The loop that drops the expired entries. */
  lemma {:induction false} SoloPrunes(deque: seq<Time>, now: Time, window: Time, limit: int) returns (n: nat)
    ensures Solo(deque, TestEmpty(now), n, window, limit) == (Prune(deque, now - window), TestLength(now))
    ensures BusyBefore(deque, TestEmpty(now), n, window, limit)
  {
    var h := TestEmpty(now);
    assert Solo(deque, h, 0, window, limit) == (deque, h);
    var one := Solo(deque, h, 1, window, limit);
    if deque == [] {
      n := 1;
    } else {
      assert one == (deque, TestHead(now));
      var two := Solo(deque, h, 2, window, limit);
      if deque[0] > now - window {
        n := 2;
        assert two == (deque, TestLength(now));
      } else {
        assert two == (deque, PopHead(now));
        assert Solo(deque, h, 3, window, limit) == (deque[1..], TestEmpty(now));
        var m := SoloPrunes(deque[1..], now, window, limit);
        assert BusyBefore(deque, h, 3, window, limit);
        SoloAdd(deque, h, 3, m, window, limit);
        BusyAdd(deque, h, 3, m, window, limit);
        n := 3 + m;
      }
    }
  }

  /** n operations that leave a handler where the last of its call is due, with this outcome. */
  predicate Returns(deque: seq<Time>, now: Time, n: nat, window: Time, limit: int, step: WindowResult) {
    && Solo(deque, TestEmpty(now), n + 1, window, limit) == (step.values, Returned(step.allowed))
    && BusyBefore(deque, TestEmpty(now), n + 1, window, limit)
    && Solo(deque, TestEmpty(now), n, window, limit).1 == if step.allowed then Append(now) else TestLength(now)
  }

  /** All of `_allow_window`. */
  lemma {:induction false} SoloIsWindowStep(deque: seq<Time>, now: Time, window: Time, limit: int) returns (n: nat)
    ensures Returns(deque, now, n, window, limit, WindowStep(deque, now, window, limit))
  {
    var h, kept := TestEmpty(now), Prune(deque, now - window);
    var m := SoloPrunes(deque, now, window, limit);
    n := if |kept| >= limit then m else m + 1;
    assert Solo(deque, h, m + 1, window, limit) == Operation(kept, TestLength(now), window, limit);
    forall j: nat | j < n + 1
      ensures !Resting(Solo(deque, h, j, window, limit).1)
    {
      assert j < m || j == m || j == m + 1;
    }
  }

  function Moves(i: nat, n: nat): seq<Action> {
    seq(n, _ => Move(i))
  }

  lemma {:induction false} MovesAreSolo(s: Shared, i: nat, n: nat, window: Time, limit: int)
    requires i < |s.handlers|
    ensures var r := Solo(s.deque, s.handlers[i], n, window, limit);
            Execute(s, Moves(i, n), window, limit) == Shared(r.0, s.handlers[i := r.1])
  {
    if n > 0 {
      MovesAreSolo(s, i, n - 1, window, limit);
      assert Moves(i, n)[..n - 1] == Moves(i, n - 1);
    }
  }

  /** From every state, a handler that is called and then moves alone leaves the deque, and returns, as the sequential
      method would. */
  lemma {:induction false} AloneIsSequential(s: Shared, i: nat, now: Time, window: Time, limit: int) returns (n: nat)
    requires i < |s.handlers| && Resting(s.handlers[i])
    ensures var step := WindowStep(s.deque, now, window, limit);
            Execute(s, [Call(i, now)] + Moves(i, n), window, limit)
            == Shared(step.values, s.handlers[i := Returned(step.allowed)])
  {
    var m := SoloIsWindowStep(s.deque, now, window, limit);
    n := m + 1;
    var called := s.(handlers := s.handlers[i := TestEmpty(now)]);
    assert [Call(i, now)][..0] == [];
    assert Execute(s, [Call(i, now)], window, limit) == called;
    ExecuteAppend(s, [Call(i, now)], Moves(i, n), window, limit);
    MovesAreSolo(called, i, n, window, limit);
  }

  // ----- Both deques -----

  lemma {:induction false} OneMore(l: Limits, k: nat, schedule: seq<Action>, a: Action)
    ensures ExecuteBoth(l, k, schedule + [a]) == ActBoth(l, ExecuteBoth(l, k, schedule), a)
    ensures Admissions(l, k, schedule + [a]) == Admissions(l, k, schedule) + Lets(l, ExecuteBoth(l, k, schedule), a)
  {
    assert (schedule + [a])[..|schedule|] == schedule;
  }

  lemma MovesMore(schedule: seq<Action>, i: nat, n: nat, m: nat)
    ensures schedule + Moves(i, n + m) == schedule + Moves(i, n) + Moves(i, m)
  {
  }

  lemma MovesSnoc(schedule: seq<Action>, i: nat, n: nat)
    ensures schedule + Moves(i, n + 1) == schedule + Moves(i, n) + [Move(i)]
  {
    MovesMore(schedule, i, n, 1);
    assert Moves(i, 1) == [Move(i)];
  }

  lemma MovesNone(schedule: seq<Action>, i: nat)
    ensures schedule + Moves(i, 0) == schedule
  {
  }

  lemma Overwrites(places: seq<Place>, i: nat, a: Place, b: Place)
    requires i < |places|
    ensures places[i := a][i := b] == places[i := b]
  {
  }

  lemma Rewrites(places: seq<Place>, i: nat)
    requires i < |places|
    ensures places[i := places[i]] == places
  {
  }

  /** One operation before the last: it leaves the handler at work, so it is no append, which returns. */
  lemma {:induction false} BusyStep(deque: seq<Time>, h: Handler, n: nat, window: Time, limit: int)
    requires BusyBefore(deque, h, n + 2, window, limit)
    ensures var r := Solo(deque, h, n, window, limit);
            && Solo(deque, h, n + 1, window, limit) == Operation(r.0, r.1, window, limit)
            && !Resting(Operation(r.0, r.1, window, limit).1) && !r.1.Append?
    ensures BusyBefore(deque, h, n + 1, window, limit)
  {
    assert !Resting(Solo(deque, h, n + 1, window, limit).1);
  }

  lemma BusyLess(deque: seq<Time>, h: Handler, n: nat, window: Time, limit: int)
    requires BusyBefore(deque, h, n + 1, window, limit)
    ensures BusyBefore(deque, h, n, window, limit)
  {
  }

  // One operation on each deque: one that is not the last, and the last.

  lemma {:induction false} MinuteMove(l: Limits, k: nat, schedule: seq<Action>, i: nat, s: Both, h: Handler)
    requires i < k && ExecuteBoth(l, k, schedule) == s && s.places[i] == InMinute(h) && !h.Append?
    requires !Resting(Operation(s.minute, h, MINUTE, l.perMinute).1)
    ensures var r := Operation(s.minute, h, MINUTE, l.perMinute);
            && ExecuteBoth(l, k, schedule + [Move(i)]) == Both(r.0, s.day, s.places[i := InMinute(r.1)])
            && Admissions(l, k, schedule + [Move(i)]) == Admissions(l, k, schedule)
  {
    OneMore(l, k, schedule, Move(i));
  }

  lemma {:induction false} MinuteLast(l: Limits, k: nat, schedule: seq<Action>, i: nat, s: Both, h: Handler)
    requires i < k && ExecuteBoth(l, k, schedule) == s && s.places[i] == InMinute(h) && (h.Append? || h.TestLength?)
    requires Resting(Operation(s.minute, h, MINUTE, l.perMinute).1)
    ensures ExecuteBoth(l, k, schedule + [Move(i)])
         == Both(Operation(s.minute, h, MINUTE, l.perMinute).0, s.day,
                 s.places[i := if h.Append? then ToDay(l, h.now) else Out])
    ensures Admissions(l, k, schedule + [Move(i)])
         == Admissions(l, k, schedule) + if h.Append? && l.perDay == 0 then [h.now] else []
  {
    OneMore(l, k, schedule, Move(i));
  }

  lemma {:induction false} DayMove(l: Limits, k: nat, schedule: seq<Action>, i: nat, s: Both, h: Handler)
    requires i < k && ExecuteBoth(l, k, schedule) == s && s.places[i] == InDay(h) && !h.Append?
    requires !Resting(Operation(s.day, h, DAY, l.perDay).1)
    ensures var r := Operation(s.day, h, DAY, l.perDay);
            && ExecuteBoth(l, k, schedule + [Move(i)]) == Both(s.minute, r.0, s.places[i := InDay(r.1)])
            && Admissions(l, k, schedule + [Move(i)]) == Admissions(l, k, schedule)
  {
    OneMore(l, k, schedule, Move(i));
  }

  lemma {:induction false} DayLast(l: Limits, k: nat, schedule: seq<Action>, i: nat, s: Both, h: Handler)
    requires i < k && ExecuteBoth(l, k, schedule) == s && s.places[i] == InDay(h) && (h.Append? || h.TestLength?)
    requires Resting(Operation(s.day, h, DAY, l.perDay).1)
    ensures ExecuteBoth(l, k, schedule + [Move(i)])
         == Both(s.minute, Operation(s.day, h, DAY, l.perDay).0, s.places[i := Out])
    ensures Admissions(l, k, schedule + [Move(i)]) == Admissions(l, k, schedule) + if h.Append? then [h.now] else []
  {
    OneMore(l, k, schedule, Move(i));
  }

  /** On the minute deque, up to the last operation. */
  predicate MinuteReached(l: Limits, k: nat, schedule: seq<Action>, after: seq<Action>, i: nat, s: Both,
                          r: (seq<Time>, Handler))
    requires i < |s.places|
  {
    && ExecuteBoth(l, k, after) == Both(r.0, s.day, s.places[i := InMinute(r.1)])
    && Admissions(l, k, after) == Admissions(l, k, schedule)
  }

  lemma {:induction false} MinuteNext(l: Limits, k: nat, schedule: seq<Action>, after: seq<Action>, i: nat, s: Both,
                                      r: (seq<Time>, Handler), r': (seq<Time>, Handler))
    requires i < k == |s.places| && MinuteReached(l, k, schedule, after, i, s, r)
    requires r' == Operation(r.0, r.1, MINUTE, l.perMinute) && !Resting(r'.1) && !r.1.Append?
    ensures MinuteReached(l, k, schedule, after + [Move(i)], i, s, r')
  {
    MinuteMove(l, k, after, i, Both(r.0, s.day, s.places[i := InMinute(r.1)]), r.1);
    Overwrites(s.places, i, InMinute(r.1), InMinute(r'.1));
  }

  lemma {:induction false} MinuteStep(l: Limits, k: nat, schedule: seq<Action>, after: seq<Action>, i: nat, n: nat,
                                      now: Time, s: Both)
    requires i < k == |s.places| && BusyBefore(s.minute, TestEmpty(now), n + 2, MINUTE, l.perMinute)
    requires MinuteReached(l, k, schedule, after, i, s, Solo(s.minute, TestEmpty(now), n, MINUTE, l.perMinute))
    ensures MinuteReached(l, k, schedule, after + [Move(i)], i, s,
                          Solo(s.minute, TestEmpty(now), n + 1, MINUTE, l.perMinute))
  {
    BusyStep(s.minute, TestEmpty(now), n, MINUTE, l.perMinute);
    MinuteNext(l, k, schedule, after, i, s, Solo(s.minute, TestEmpty(now), n, MINUTE, l.perMinute),
               Solo(s.minute, TestEmpty(now), n + 1, MINUTE, l.perMinute));
  }

  lemma {:induction false} MinuteMoves(l: Limits, k: nat, schedule: seq<Action>, i: nat, n: nat, now: Time, s: Both)
    requires i < k && ExecuteBoth(l, k, schedule) == s && s.places[i] == InMinute(TestEmpty(now))
    requires BusyBefore(s.minute, TestEmpty(now), n + 1, MINUTE, l.perMinute)
    ensures MinuteReached(l, k, schedule, schedule + Moves(i, n), i, s,
                          Solo(s.minute, TestEmpty(now), n, MINUTE, l.perMinute))
  {
    if n == 0 {
      MovesNone(schedule, i);
      Rewrites(s.places, i);
    } else {
      var before := schedule + Moves(i, n - 1);
      assert schedule + Moves(i, n) == before + [Move(i)] by {
        MovesSnoc(schedule, i, n - 1);
      }
      BusyLess(s.minute, TestEmpty(now), n, MINUTE, l.perMinute);
      MinuteMoves(l, k, schedule, i, n - 1, now, s);
      MinuteStep(l, k, schedule, before, i, n - 1, now, s);
    }
  }

  predicate DayReached(l: Limits, k: nat, schedule: seq<Action>, after: seq<Action>, i: nat, s: Both,
                       r: (seq<Time>, Handler))
    requires i < |s.places|
  {
    && ExecuteBoth(l, k, after) == Both(s.minute, r.0, s.places[i := InDay(r.1)])
    && Admissions(l, k, after) == Admissions(l, k, schedule)
  }

  lemma {:induction false} DayNext(l: Limits, k: nat, schedule: seq<Action>, after: seq<Action>, i: nat, s: Both,
                                   r: (seq<Time>, Handler), r': (seq<Time>, Handler))
    requires i < k == |s.places| && DayReached(l, k, schedule, after, i, s, r)
    requires r' == Operation(r.0, r.1, DAY, l.perDay) && !Resting(r'.1) && !r.1.Append?
    ensures DayReached(l, k, schedule, after + [Move(i)], i, s, r')
  {
    DayMove(l, k, after, i, Both(s.minute, r.0, s.places[i := InDay(r.1)]), r.1);
    Overwrites(s.places, i, InDay(r.1), InDay(r'.1));
  }

  lemma {:induction false} DayStep(l: Limits, k: nat, schedule: seq<Action>, after: seq<Action>, i: nat, n: nat,
                                   now: Time, s: Both)
    requires i < k == |s.places| && BusyBefore(s.day, TestEmpty(now), n + 2, DAY, l.perDay)
    requires DayReached(l, k, schedule, after, i, s, Solo(s.day, TestEmpty(now), n, DAY, l.perDay))
    ensures DayReached(l, k, schedule, after + [Move(i)], i, s, Solo(s.day, TestEmpty(now), n + 1, DAY, l.perDay))
  {
    BusyStep(s.day, TestEmpty(now), n, DAY, l.perDay);
    DayNext(l, k, schedule, after, i, s, Solo(s.day, TestEmpty(now), n, DAY, l.perDay),
            Solo(s.day, TestEmpty(now), n + 1, DAY, l.perDay));
  }

  lemma {:induction false} DayMoves(l: Limits, k: nat, schedule: seq<Action>, i: nat, n: nat, now: Time, s: Both)
    requires i < k && ExecuteBoth(l, k, schedule) == s && s.places[i] == InDay(TestEmpty(now))
    requires BusyBefore(s.day, TestEmpty(now), n + 1, DAY, l.perDay)
    ensures DayReached(l, k, schedule, schedule + Moves(i, n), i, s, Solo(s.day, TestEmpty(now), n, DAY, l.perDay))
  {
    if n == 0 {
      MovesNone(schedule, i);
      Rewrites(s.places, i);
    } else {
      var before := schedule + Moves(i, n - 1);
      assert schedule + Moves(i, n) == before + [Move(i)] by {
        MovesSnoc(schedule, i, n - 1);
      }
      BusyLess(s.day, TestEmpty(now), n, DAY, l.perDay);
      DayMoves(l, k, schedule, i, n - 1, now, s);
      DayStep(l, k, schedule, before, i, n - 1, now, s);
    }
  }

  lemma {:induction false} MinuteEnds(l: Limits, k: nat, schedule: seq<Action>, after: seq<Action>, i: nat, s: Both,
                                      r: (seq<Time>, Handler))
    requires i < k == |s.places| && MinuteReached(l, k, schedule, after, i, s, r)
    requires Resting(Operation(r.0, r.1, MINUTE, l.perMinute).1) && (r.1.Append? || r.1.TestLength?)
    ensures ExecuteBoth(l, k, after + [Move(i)])
         == Both(Operation(r.0, r.1, MINUTE, l.perMinute).0, s.day,
                 s.places[i := if r.1.Append? then ToDay(l, r.1.now) else Out])
    ensures Admissions(l, k, after + [Move(i)])
         == Admissions(l, k, schedule) + if r.1.Append? && l.perDay == 0 then [r.1.now] else []
  {
    MinuteLast(l, k, after, i, Both(r.0, s.day, s.places[i := InMinute(r.1)]), r.1);
    Overwrites(s.places, i, InMinute(r.1), if r.1.Append? then ToDay(l, r.1.now) else Out);
  }

  lemma {:induction false} MinuteReturns(l: Limits, k: nat, schedule: seq<Action>, i: nat, now: Time, n: nat, s: Both,
                                         step: WindowResult)
    requires i < k && ExecuteBoth(l, k, schedule) == s && s.places[i] == InMinute(TestEmpty(now))
    requires Returns(s.minute, now, n, MINUTE, l.perMinute, step)
    ensures ExecuteBoth(l, k, schedule + Moves(i, n) + [Move(i)])
         == Both(step.values, s.day, s.places[i := if step.allowed then ToDay(l, now) else Out])
    ensures Admissions(l, k, schedule + Moves(i, n) + [Move(i)])
         == Admissions(l, k, schedule) + if step.allowed && l.perDay == 0 then [now] else []
  {
    MinuteMoves(l, k, schedule, i, n, now, s);
    MinuteEnds(l, k, schedule, schedule + Moves(i, n), i, s, Solo(s.minute, TestEmpty(now), n, MINUTE, l.perMinute));
  }

  lemma {:induction false} MinuteAlone(l: Limits, k: nat, schedule: seq<Action>, i: nat, now: Time) returns (n: nat)
    requires i < k && ExecuteBoth(l, k, schedule).places[i] == InMinute(TestEmpty(now))
    ensures var s := ExecuteBoth(l, k, schedule);
            var step := WindowStep(s.minute, now, MINUTE, l.perMinute);
            && ExecuteBoth(l, k, schedule + Moves(i, n))
               == Both(step.values, s.day, s.places[i := if step.allowed then ToDay(l, now) else Out])
            && Admissions(l, k, schedule + Moves(i, n))
               == Admissions(l, k, schedule) + if step.allowed && l.perDay == 0 then [now] else []
  {
    var s := ExecuteBoth(l, k, schedule);
    var step := WindowStep(s.minute, now, MINUTE, l.perMinute);
    var m := SoloIsWindowStep(s.minute, now, MINUTE, l.perMinute);
    n := m + 1;
    assert schedule + Moves(i, n) == schedule + Moves(i, m) + [Move(i)] by {
      MovesSnoc(schedule, i, m);
    }
    MinuteReturns(l, k, schedule, i, now, m, s, step);
  }

  lemma {:induction false} DayEnds(l: Limits, k: nat, schedule: seq<Action>, after: seq<Action>, i: nat, s: Both,
                                   r: (seq<Time>, Handler))
    requires i < k == |s.places| && DayReached(l, k, schedule, after, i, s, r)
    requires Resting(Operation(r.0, r.1, DAY, l.perDay).1) && (r.1.Append? || r.1.TestLength?)
    ensures ExecuteBoth(l, k, after + [Move(i)])
         == Both(s.minute, Operation(r.0, r.1, DAY, l.perDay).0, s.places[i := Out])
    ensures Admissions(l, k, after + [Move(i)])
         == Admissions(l, k, schedule) + if r.1.Append? then [r.1.now] else []
  {
    DayLast(l, k, after, i, Both(s.minute, r.0, s.places[i := InDay(r.1)]), r.1);
    Overwrites(s.places, i, InDay(r.1), Out);
  }

  lemma {:induction false} DayReturns(l: Limits, k: nat, schedule: seq<Action>, i: nat, now: Time, n: nat, s: Both,
                                      step: WindowResult)
    requires i < k && ExecuteBoth(l, k, schedule) == s && s.places[i] == InDay(TestEmpty(now))
    requires Returns(s.day, now, n, DAY, l.perDay, step)
    ensures ExecuteBoth(l, k, schedule + Moves(i, n) + [Move(i)])
         == Both(s.minute, step.values, s.places[i := Out])
    ensures Admissions(l, k, schedule + Moves(i, n) + [Move(i)])
         == Admissions(l, k, schedule) + if step.allowed then [now] else []
  {
    DayMoves(l, k, schedule, i, n, now, s);
    DayEnds(l, k, schedule, schedule + Moves(i, n), i, s, Solo(s.day, TestEmpty(now), n, DAY, l.perDay));
  }

  lemma {:induction false} DayAlone(l: Limits, k: nat, schedule: seq<Action>, i: nat, now: Time) returns (n: nat)
    requires i < k && ExecuteBoth(l, k, schedule).places[i] == InDay(TestEmpty(now))
    ensures var s := ExecuteBoth(l, k, schedule);
            var step := WindowStep(s.day, now, DAY, l.perDay);
            && ExecuteBoth(l, k, schedule + Moves(i, n))
               == Both(s.minute, step.values, s.places[i := Out])
            && Admissions(l, k, schedule + Moves(i, n))
               == Admissions(l, k, schedule) + if step.allowed then [now] else []
  {
    var s := ExecuteBoth(l, k, schedule);
    var step := WindowStep(s.day, now, DAY, l.perDay);
    var m := SoloIsWindowStep(s.day, now, DAY, l.perDay);
    n := m + 1;
    assert schedule + Moves(i, n) == schedule + Moves(i, m) + [Move(i)] by {
      MovesSnoc(schedule, i, m);
    }
    DayReturns(l, k, schedule, i, now, m, s, step);
  }

  /** What a step of the sequential limiter makes of the two deques. */
  function Stepped(l: Limits, s: Both, now: Time): TenantResult {
    TenantStep(l, TenantLogs(s.minute, s.day), now)
  }

  /** The handler is out again, the deques are these, and the call was let through or not. */
  predicate Done(l: Limits, k: nat, schedule: seq<Action>, after: seq<Action>, now: Time, r: TenantResult) {
    && ExecuteBoth(l, k, after) == Both(r.logs.minute, r.logs.day, ExecuteBoth(l, k, schedule).places)
    && Admissions(l, k, after) == Admissions(l, k, schedule) + if r.verdict == Admitted then [now] else []
  }

  lemma {:induction false} Called(l: Limits, k: nat, schedule: seq<Action>, i: nat, now: Time)
    requires i < k && ExecuteBoth(l, k, schedule).places[i] == Out
    ensures var s := ExecuteBoth(l, k, schedule);
            && ExecuteBoth(l, k, schedule + [Call(i, now)]) == s.(places := s.places[i := Enter(l, now)])
            && Admissions(l, k, schedule + [Call(i, now)])
               == Admissions(l, k, schedule) + if Enter(l, now).Out? then [now] else []
  {
    OneMore(l, k, schedule, Call(i, now));
  }

  /** With the minute window off. */
  lemma {:induction false} DayOnly(l: Limits, k: nat, schedule: seq<Action>, i: nat, now: Time) returns (n: nat)
    requires i < k && ExecuteBoth(l, k, schedule).places[i] == Out && l.perMinute == 0
    ensures Done(l, k, schedule, schedule + [Call(i, now)] + Moves(i, n), now,
                 Stepped(l, ExecuteBoth(l, k, schedule), now))
  {
    var s, called := ExecuteBoth(l, k, schedule), schedule + [Call(i, now)];
    Called(l, k, schedule, i, now);
    Overwrites(s.places, i, Enter(l, now), Out);
    Rewrites(s.places, i);
    if l.perDay == 0 {
      n := 0;
      MovesNone(called, i);
    } else {
      n := DayAlone(l, k, called, i, now);
    }
  }

  /** With it on, where it has the last word. */
  lemma {:induction false} MinuteOnly(l: Limits, k: nat, schedule: seq<Action>, i: nat, now: Time) returns (n: nat)
    requires i < k && ExecuteBoth(l, k, schedule).places[i] == Out && l.perMinute != 0
    ensures var s := ExecuteBoth(l, k, schedule);
            var step := WindowStep(s.minute, now, MINUTE, l.perMinute);
            && ExecuteBoth(l, k, schedule + [Call(i, now)] + Moves(i, n))
               == Both(step.values, s.day, s.places[i := if step.allowed then ToDay(l, now) else Out])
            && Admissions(l, k, schedule + [Call(i, now)] + Moves(i, n))
               == Admissions(l, k, schedule) + if step.allowed && l.perDay == 0 then [now] else []
  {
    var s := ExecuteBoth(l, k, schedule);
    var step := WindowStep(s.minute, now, MINUTE, l.perMinute);
    Called(l, k, schedule, i, now);
    n := MinuteAlone(l, k, schedule + [Call(i, now)], i, now);
    Overwrites(s.places, i, Enter(l, now), if step.allowed then ToDay(l, now) else Out);
  }

  /** And where the day window has. */
  lemma {:induction false} ThenDay(l: Limits, k: nat, schedule: seq<Action>, after: seq<Action>, i: nat, now: Time,
                                   s: Both, values: seq<Time>)
    returns (n: nat)
    requires i < k == |s.places| && s.places[i] == Out && l.perDay != 0
    requires ExecuteBoth(l, k, after) == Both(values, s.day, s.places[i := ToDay(l, now)])
    requires Admissions(l, k, after) == Admissions(l, k, schedule)
    ensures var step := WindowStep(s.day, now, DAY, l.perDay);
            && ExecuteBoth(l, k, after + Moves(i, n)) == Both(values, step.values, s.places)
            && Admissions(l, k, after + Moves(i, n))
               == Admissions(l, k, schedule) + if step.allowed then [now] else []
  {
    n := DayAlone(l, k, after, i, now);
    Overwrites(s.places, i, ToDay(l, now), Out);
    Rewrites(s.places, i);
  }

  /** The two windows' steps are the tenant's. */
  lemma BothWindows(l: Limits, s: Both, now: Time)
    requires l.perMinute != 0
    ensures var m, d := WindowStep(s.minute, now, MINUTE, l.perMinute), WindowStep(s.day, now, DAY, l.perDay);
            Stepped(l, s, now)
            == if !m.allowed then TenantResult(TenantLogs(m.values, s.day), MinuteRefused)
               else if l.perDay == 0 then TenantResult(TenantLogs(m.values, s.day), Admitted)
               else TenantResult(TenantLogs(m.values, d.values), if d.allowed then Admitted else DayRefused)
  {
  }

  lemma {:induction false} MinuteFirst(l: Limits, k: nat, schedule: seq<Action>, i: nat, now: Time) returns (n: nat)
    requires i < k && ExecuteBoth(l, k, schedule).places[i] == Out && l.perMinute != 0
    ensures Done(l, k, schedule, schedule + [Call(i, now)] + Moves(i, n), now,
                 Stepped(l, ExecuteBoth(l, k, schedule), now))
  {
    var s := ExecuteBoth(l, k, schedule);
    var called := schedule + [Call(i, now)];
    var step := WindowStep(s.minute, now, MINUTE, l.perMinute);
    BothWindows(l, s, now);
    n := MinuteOnly(l, k, schedule, i, now);
    if step.allowed && l.perDay != 0 {
      var m := n;
      var d := ThenDay(l, k, schedule, called + Moves(i, m), i, now, s, step.values);
      n := m + d;
      assert called + Moves(i, n) == called + Moves(i, m) + Moves(i, d) by {
        MovesMore(called, i, m, d);
      }
    } else {
      Rewrites(s.places, i);
    }
  }

  /** After every schedule, a call of `allow` whose handler then moves alone leaves both deques, and lets the request
      through or not, as the sequential limiter would. */
  lemma {:induction false} AloneIsAllow(l: Limits, k: nat, schedule: seq<Action>, i: nat, now: Time) returns (n: nat)
    requires i < k && ExecuteBoth(l, k, schedule).places[i] == Out
    ensures var before, after := ExecuteBoth(l, k, schedule), schedule + [Call(i, now)] + Moves(i, n);
            var r := TenantStep(l, TenantLogs(before.minute, before.day), now);
            && ExecuteBoth(l, k, after) == Both(r.logs.minute, r.logs.day, before.places)
            && Admissions(l, k, after) == Admissions(l, k, schedule) + if r.verdict == Admitted then [now] else []
  {
    if l.perMinute == 0 {
      n := DayOnly(l, k, schedule, i, now);
    } else {
      n := MinuteFirst(l, k, schedule, i, now);
    }
  }
}
