/**
  The whole of `allow` without a lock: handlers interleaving on one tenant's two deques, the minute
  window first, each with the one clock reading of its call (gateway/rate_limit.py:14-30).

  Calls reach the day deque in an order that is not that of their clock readings.  But before its
  first look at a deque a handler knows nothing of it.  So each may as well be taken to be called
  there at once, and to wait, or to turn away where the minute window refuses it; and then each
  deque by itself follows a schedule on a clock that does not go back.
*/
module RateLimitAllowRaces {
  import opened RateLimit
  import opened RateLimitHistory
  import opened RateLimitRaces
  import opened RateLimitThreads
  import RateLimitRaceRuns

  /** Where a handler is inside `allow`. */
  datatype Place = Out | InMinute(step: Handler) | InDay(step: Handler)

  datatype Both = Both(minute: seq<Time>, day: seq<Time>, places: seq<Place>)

  /** Past the minute window, if it is on. */
  function ToDay(l: Limits, now: Time): Place {
    if l.perDay != 0 then InDay(TestEmpty(now)) else Out
  }

  function Enter(l: Limits, now: Time): Place {
    if l.perMinute != 0 then InMinute(TestEmpty(now)) else ToDay(l, now)
  }

  function AfterMinute(l: Limits, before: Handler, after: Handler): Place {
    if before.Append? then ToDay(l, before.now) else if Resting(after) then Out else InMinute(after)
  }

  /** One atomic operation of one handler. */
  function ActBoth(l: Limits, s: Both, a: Action): (r: Both)
    ensures |r.places| == |s.places|
  {
    if a.handler >= |s.places| then s
    else
      match a
      case Call(i, now) => if s.places[i].Out? then s.(places := s.places[i := Enter(l, now)]) else s
      case Leave(_) => s
      case Move(i) =>
        match s.places[i]
        case Out => s
        case InMinute(h) =>
          var (deque, h') := Operation(s.minute, h, MINUTE, l.perMinute);
          Both(deque, s.day, s.places[i := AfterMinute(l, h, h')])
        case InDay(h) =>
          var (deque, h') := Operation(s.day, h, DAY, l.perDay);
          Both(s.minute, deque, s.places[i := if Resting(h') then Out else InDay(h')])
  }

  function ExecuteBoth(l: Limits, k: nat, schedule: seq<Action>): (r: Both)
    ensures |r.places| == k
  {
    if schedule == [] then Both([], [], seq(k, _ => Out))
    else
      var n := |schedule| - 1;
      ActBoth(l, ExecuteBoth(l, k, schedule[..n]), schedule[n])
  }

  /** The clock reading of the call that this operation lets through, if any. */
  function Lets(l: Limits, s: Both, a: Action): seq<Time> {
    if a.handler >= |s.places| then []
    else
      match a
      case Call(i, now) => if s.places[i].Out? && Enter(l, now).Out? then [now] else []
      case Leave(_) => []
      case Move(i) =>
        match s.places[i]
        case Out => []
        case InMinute(h) => if h.Append? && l.perDay == 0 then [h.now] else []
        case InDay(h) => if h.Append? then [h.now] else []
  }

  /** The calls of a schedule that return True, in that order. */
  function Admissions(l: Limits, k: nat, schedule: seq<Action>): seq<Time> {
    if schedule == [] then []
    else
      var n := |schedule| - 1;
      Admissions(l, k, schedule[..n]) + Lets(l, ExecuteBoth(l, k, schedule[..n]), schedule[n])
  }

  // ----- What one deque sees -----

  /** A step of no handler. */
  function Pause(s: Both): Action {
    Move(|s.places|)
  }

  function MinuteAction(l: Limits, s: Both, a: Action): Action {
    if a.handler >= |s.places| then Pause(s)
    else if a.Call? && s.places[a.handler].Out? && l.perMinute != 0 then a
    else if a.Move? && s.places[a.handler].InMinute? then a
    else Pause(s)
  }

  /** The minute window refuses the handler here, or raises. */
  predicate TurnsAway(l: Limits, s: Both, a: Action) {
    && a.Move? && a.handler < |s.places| && s.places[a.handler].InMinute?
    && var h := s.places[a.handler].step;
       !h.Append? && Resting(Operation(s.minute, h, MINUTE, l.perMinute).1)
  }

  function DayAction(l: Limits, s: Both, a: Action): Action {
    if a.handler >= |s.places| then Pause(s)
    else if a.Call? && s.places[a.handler].Out? then a
    else if a.Move? && s.places[a.handler].InDay? then a
    else if TurnsAway(l, s, a) then Leave(a.handler)
    else Pause(s)
  }

  function MinuteSchedule(l: Limits, k: nat, schedule: seq<Action>): (r: seq<Action>)
    ensures |r| == |schedule|
  {
    if schedule == [] then []
    else
      var n := |schedule| - 1;
      MinuteSchedule(l, k, schedule[..n]) + [MinuteAction(l, ExecuteBoth(l, k, schedule[..n]), schedule[n])]
  }

  function DaySchedule(l: Limits, k: nat, schedule: seq<Action>): (r: seq<Action>)
    ensures |r| == |schedule|
  {
    if schedule == [] then []
    else
      var n := |schedule| - 1;
      DaySchedule(l, k, schedule[..n]) + [DayAction(l, ExecuteBoth(l, k, schedule[..n]), schedule[n])]
  }

  /** The same calls, or fewer. */
  predicate Thins(schedule: seq<Action>, thin: seq<Action>) {
    |thin| == |schedule| && forall i :: 0 <= i < |thin| && thin[i].Call? ==> thin[i] == schedule[i]
  }

  lemma {:induction false} BothThin(l: Limits, k: nat, schedule: seq<Action>)
    ensures Thins(schedule, MinuteSchedule(l, k, schedule)) && Thins(schedule, DaySchedule(l, k, schedule))
  {
    if schedule != [] {
      BothThin(l, k, schedule[..|schedule| - 1]);
    }
  }

  lemma {:induction false} ThinAfter(schedule: seq<Action>, thin: seq<Action>, t: Time)
    requires Thins(schedule, thin) && CallsAfter(thin, t)
    ensures CallsAfter(schedule, t)
  {
    var n := |thin| - 1;
    if CallsAfter(thin[..n], t) {
      ThinAfter(schedule[..n], thin[..n], t);
    }
  }

  lemma {:induction false} ThinForward(schedule: seq<Action>, thin: seq<Action>)
    requires Thins(schedule, thin) && ClockForward(schedule)
    ensures ClockForward(thin)
  {
    if schedule != [] {
      var n := |schedule| - 1;
      ThinForward(schedule[..n], thin[..n]);
      if thin[n].Call? && CallsAfter(thin[..n], thin[n].now) {
        ThinAfter(schedule[..n], thin[..n], thin[n].now);
      }
    }
  }

  // ----- Each deque is that of its own schedule -----

  predicate SameInMinute(p: Place, h: Handler) {
    if p.InMinute? then h == p.step && !Resting(h) else Resting(h)
  }

  predicate MinuteAlike(s: Both, m: Shared) {
    && m.deque == s.minute && |m.handlers| == |s.places|
    && forall i :: 0 <= i < |s.places| ==> SameInMinute(s.places[i], m.handlers[i])
  }

  lemma {:induction false} MinuteStep(l: Limits, s: Both, m: Shared, a: Action)
    requires l.perMinute != 0 && MinuteAlike(s, m)
    ensures MinuteAlike(ActBoth(l, s, a), Act(m, MinuteAction(l, s, a), MINUTE, l.perMinute))
  {
    if a.handler < |s.places| {
      assert SameInMinute(s.places[a.handler], m.handlers[a.handler]);
    }
  }

  /** A handler that is still in the minute window waits at the day deque. */
  predicate SameInDay(p: Place, h: Handler) {
    match p
    case Out => Resting(h)
    case InMinute(step) => !Resting(step) && h == TestEmpty(step.now)
    case InDay(step) => !Resting(step) && h == step
  }

  predicate DayAlike(s: Both, d: Shared) {
    && d.deque == s.day && |d.handlers| == |s.places|
    && forall i :: 0 <= i < |s.places| ==> SameInDay(s.places[i], d.handlers[i])
  }

  lemma {:induction false} DayStep(l: Limits, s: Both, d: Shared, a: Action)
    requires l.perDay != 0 && DayAlike(s, d)
    ensures DayAlike(ActBoth(l, s, a), Act(d, DayAction(l, s, a), DAY, l.perDay))
  {
    if a.handler < |s.places| {
      assert SameInDay(s.places[a.handler], d.handlers[a.handler]);
    }
  }

  function MinuteShared(l: Limits, k: nat, schedule: seq<Action>): Shared {
    Execute(Start(k), MinuteSchedule(l, k, schedule), MINUTE, l.perMinute)
  }

  function DayShared(l: Limits, k: nat, schedule: seq<Action>): Shared {
    Execute(Start(k), DaySchedule(l, k, schedule), DAY, l.perDay)
  }

  lemma {:induction false} AlwaysMinuteAlike(l: Limits, k: nat, schedule: seq<Action>)
    requires l.perMinute != 0
    ensures MinuteAlike(ExecuteBoth(l, k, schedule), MinuteShared(l, k, schedule))
  {
    if schedule != [] {
      var n := |schedule| - 1;
      AlwaysMinuteAlike(l, k, schedule[..n]);
      MinuteStep(l, ExecuteBoth(l, k, schedule[..n]), MinuteShared(l, k, schedule[..n]), schedule[n]);
      assert MinuteSchedule(l, k, schedule)[..n] == MinuteSchedule(l, k, schedule[..n]);
    }
  }

  lemma {:induction false} AlwaysDayAlike(l: Limits, k: nat, schedule: seq<Action>)
    requires l.perDay != 0
    ensures DayAlike(ExecuteBoth(l, k, schedule), DayShared(l, k, schedule))
  {
    if schedule != [] {
      var n := |schedule| - 1;
      AlwaysDayAlike(l, k, schedule[..n]);
      DayStep(l, ExecuteBoth(l, k, schedule[..n]), DayShared(l, k, schedule[..n]), schedule[n]);
      assert DaySchedule(l, k, schedule)[..n] == DaySchedule(l, k, schedule[..n]);
    }
  }

  // ----- Admissions are recorded -----

  /** What one operation appends to a deque. */
  function AppendedBy(s: Shared, a: Action): seq<Time> {
    if Appends(s, a) then [s.handlers[a.handler].now] else []
  }

  function MinuteRecords(l: Limits, k: nat, schedule: seq<Action>): seq<Time> {
    Log(Start(k), MinuteSchedule(l, k, schedule), MINUTE, l.perMinute)
  }

  function DayRecords(l: Limits, k: nat, schedule: seq<Action>): seq<Time> {
    Log(Start(k), DaySchedule(l, k, schedule), DAY, l.perDay)
  }

  lemma {:induction false} MinuteRecordsStep(l: Limits, k: nat, schedule: seq<Action>)
    requires schedule != []
    ensures var n := |schedule| - 1;
            var s := ExecuteBoth(l, k, schedule[..n]);
            MinuteRecords(l, k, schedule) == MinuteRecords(l, k, schedule[..n])
              + AppendedBy(MinuteShared(l, k, schedule[..n]), MinuteAction(l, s, schedule[n]))
  {
    var n := |schedule| - 1;
    assert MinuteSchedule(l, k, schedule)[..n] == MinuteSchedule(l, k, schedule[..n]);
  }

  lemma {:induction false} DayRecordsStep(l: Limits, k: nat, schedule: seq<Action>)
    requires schedule != []
    ensures var n := |schedule| - 1;
            var s := ExecuteBoth(l, k, schedule[..n]);
            DayRecords(l, k, schedule) == DayRecords(l, k, schedule[..n])
              + AppendedBy(DayShared(l, k, schedule[..n]), DayAction(l, s, schedule[n]))
  {
    var n := |schedule| - 1;
    assert DaySchedule(l, k, schedule)[..n] == DaySchedule(l, k, schedule[..n]);
  }

  lemma {:induction false} DayLets(l: Limits, s: Both, d: Shared, a: Action)
    requires l.perDay != 0 && DayAlike(s, d)
    ensures AppendedBy(d, DayAction(l, s, a)) == Lets(l, s, a)
  {
    if a.handler < |s.places| {
      assert SameInDay(s.places[a.handler], d.handlers[a.handler]);
    }
  }

  /** With the day window on, the admitted requests are those recorded in the day deque. */
  lemma {:induction false} DayAdmissions(l: Limits, k: nat, schedule: seq<Action>)
    requires l.perDay != 0
    ensures Admissions(l, k, schedule) == DayRecords(l, k, schedule)
  {
    if schedule != [] {
      var n := |schedule| - 1;
      DayAdmissions(l, k, schedule[..n]);
      AlwaysDayAlike(l, k, schedule[..n]);
      DayLets(l, ExecuteBoth(l, k, schedule[..n]), DayShared(l, k, schedule[..n]), schedule[n]);
      DayRecordsStep(l, k, schedule);
    }
  }

  /** The handlers that are past the minute window. */
  function AtDay(p: Place): Handler {
    if p.InDay? then p.step else Idle
  }

  function Past(places: seq<Place>): (r: seq<Handler>)
    ensures |r| == |places|
  {
    seq(|places|, i requires 0 <= i < |places| => AtDay(places[i]))
  }

  function PastIn(s: Both, lo: Time, hi: Time): nat {
    Tally(Past(s.places), Inside(lo, hi))
  }

  lemma {:induction false} PastUpdate(places: seq<Place>, i: nat, p: Place, lo: Time, hi: Time)
    requires i < |places|
    ensures Tally(Past(places[i := p]), Inside(lo, hi))
         == Tally(Past(places), Inside(lo, hi))
              - (if Inside(lo, hi)(AtDay(places[i])) then 1 else 0) + (if Inside(lo, hi)(AtDay(p)) then 1 else 0)
  {
    assert Past(places[i := p]) == Past(places)[i := AtDay(p)];
    TallyUpdate(Past(places), Inside(lo, hi), i, AtDay(p));
  }

  lemma {:induction false} CountOne(log: seq<Time>, t: seq<Time>, lo: Time, hi: Time)
    requires |t| <= 1
    ensures CountIn(log + t, lo, hi) == CountIn(log, lo, hi) + CountIn(t, lo, hi)
  {
    if t == [] {
      assert log + t == log;
    } else {
      assert (log + t)[..|log|] == log && t[..0] == [];
      assert CountIn(t, lo, hi) == if lo < t[0] <= hi then 1 else 0;
    }
  }

  /** A request past the minute window was recorded there; it is admitted at most once. */
  lemma {:induction false} PastStep(l: Limits, s: Both, m: Shared, a: Action, lo: Time, hi: Time)
    requires l.perMinute != 0 && MinuteAlike(s, m)
    ensures CountIn(Lets(l, s, a), lo, hi) + PastIn(ActBoth(l, s, a), lo, hi)
         <= PastIn(s, lo, hi) + CountIn(AppendedBy(m, MinuteAction(l, s, a)), lo, hi)
  {
    if a.handler < |s.places| {
      assert SameInMinute(s.places[a.handler], m.handlers[a.handler]);
      PastUpdate(s.places, a.handler, ActBoth(l, s, a).places[a.handler], lo, hi);
    }
  }

  lemma {:induction false} MinuteAdmissions(l: Limits, k: nat, schedule: seq<Action>, lo: Time, hi: Time)
    requires l.perMinute != 0
    ensures CountIn(Admissions(l, k, schedule), lo, hi) + PastIn(ExecuteBoth(l, k, schedule), lo, hi)
         <= CountIn(MinuteRecords(l, k, schedule), lo, hi)
  {
    var s := ExecuteBoth(l, k, schedule);
    if schedule == [] {
      TallyNone(Past(s.places), Inside(lo, hi));
    } else {
      var n := |schedule| - 1;
      var before, m := ExecuteBoth(l, k, schedule[..n]), MinuteShared(l, k, schedule[..n]);
      MinuteAdmissions(l, k, schedule[..n], lo, hi);
      AlwaysMinuteAlike(l, k, schedule[..n]);
      PastStep(l, before, m, schedule[n], lo, hi);
      MinuteRecordsStep(l, k, schedule);
      CountOne(Admissions(l, k, schedule[..n]), Lets(l, before, schedule[n]), lo, hi);
      CountOne(MinuteRecords(l, k, schedule[..n]), AppendedBy(m, MinuteAction(l, before, schedule[n])), lo, hi);
    }
  }

  // ----- The bounds -----

  /** What k handlers can record in a window; a negative limit refuses everyone. */
  function RaceLimit(k: nat, limit: int): int
    requires k > 0
  {
    if limit < 0 then 0 else limit + (k - 1) * (k + 2)
  }

  lemma {:induction false} NothingRecorded(k: nat, schedule: seq<Action>, window: Time, limit: int)
    requires limit < 0
    ensures Log(Start(k), schedule, window, limit) == []
  {
    if schedule != [] {
      NothingRecorded(k, schedule[..|schedule| - 1], window, limit);
      NoRoomNeverRaises(k, schedule[..|schedule| - 1], window, limit);
    }
  }

  lemma {:induction false} LogBound(k: nat, schedule: seq<Action>, window: Time, limit: int, lo: Time, hi: Time)
    requires k > 0 && ClockForward(schedule) && lo <= hi <= lo + window
    ensures CountIn(Log(Start(k), schedule, window, limit), lo, hi) <= RaceLimit(k, limit)
  {
    if limit < 0 {
      NothingRecorded(k, schedule, window, limit);
    } else {
      RaceBound(k, schedule, window, limit, lo, hi);
    }
  }

  /** On a clock that does not go back, k handlers without a lock let through at most
      per_minute + (k - 1) * (k + 2) requests of a tenant in any minute, and at most per_day + (k - 1) * (k + 2) in any
      day, whichever limits are on. */
  lemma {:induction false} AllowRaceBound(l: Limits, k: nat, schedule: seq<Action>, lo: Time, hi: Time)
    requires k > 0 && ClockForward(schedule) && lo <= hi
    ensures l.perMinute != 0 && hi <= lo + MINUTE ==>
              CountIn(Admissions(l, k, schedule), lo, hi) <= RaceLimit(k, l.perMinute)
    ensures l.perDay != 0 && hi <= lo + DAY ==>
              CountIn(Admissions(l, k, schedule), lo, hi) <= RaceLimit(k, l.perDay)
  {
    BothThin(l, k, schedule);
    if l.perMinute != 0 && hi <= lo + MINUTE {
      ThinForward(schedule, MinuteSchedule(l, k, schedule));
      LogBound(k, MinuteSchedule(l, k, schedule), MINUTE, l.perMinute, lo, hi);
      MinuteAdmissions(l, k, schedule, lo, hi);
    }
    if l.perDay != 0 && hi <= lo + DAY {
      ThinForward(schedule, DaySchedule(l, k, schedule));
      LogBound(k, DaySchedule(l, k, schedule), DAY, l.perDay, lo, hi);
      DayAdmissions(l, k, schedule);
    }
  }

  // ----- The bounds are met -----

  predicate NoneInMinute(s: Both) {
    forall i :: 0 <= i < |s.places| ==> !s.places[i].InMinute?
  }

  predicate NoneInDay(s: Both) {
    forall i :: 0 <= i < |s.places| ==> !s.places[i].InDay?
  }

  lemma {:induction false} OnlyMinuteStep(s: Both, m: Shared, a: Action, limit: int)
    requires limit != 0 && !a.Leave? && MinuteAlike(s, m) && NoneInDay(s)
    ensures MinuteAlike(ActBoth(Limits(limit, 0), s, a), Act(m, a, MINUTE, limit))
    ensures NoneInDay(ActBoth(Limits(limit, 0), s, a)) && Lets(Limits(limit, 0), s, a) == AppendedBy(m, a)
  {
    if a.handler < |s.places| {
      assert SameInMinute(s.places[a.handler], m.handlers[a.handler]);
    }
  }

  lemma {:induction false} OnlyDayStep(s: Both, d: Shared, a: Action, limit: int)
    requires limit != 0 && !a.Leave? && DayAlike(s, d) && NoneInMinute(s)
    ensures DayAlike(ActBoth(Limits(0, limit), s, a), Act(d, a, DAY, limit))
    ensures NoneInMinute(ActBoth(Limits(0, limit), s, a)) && Lets(Limits(0, limit), s, a) == AppendedBy(d, a)
  {
    if a.handler < |s.places| {
      assert SameInDay(s.places[a.handler], d.handlers[a.handler]);
    }
  }

  /** With one window on, `allow` is that window. */
  lemma {:induction false} OnlyMinute(k: nat, schedule: seq<Action>, limit: int)
    requires limit != 0 && RateLimitRaceRuns.NoneLeaves(schedule)
    ensures var s := ExecuteBoth(Limits(limit, 0), k, schedule);
            NoneInDay(s) && MinuteAlike(s, Execute(Start(k), schedule, MINUTE, limit))
    ensures Admissions(Limits(limit, 0), k, schedule) == Log(Start(k), schedule, MINUTE, limit)
  {
    if schedule != [] {
      var n := |schedule| - 1;
      var s, m := ExecuteBoth(Limits(limit, 0), k, schedule[..n]), Execute(Start(k), schedule[..n], MINUTE, limit);
      OnlyMinute(k, schedule[..n], limit);
      OnlyMinuteStep(s, m, schedule[n], limit);
    }
  }

  lemma {:induction false} OnlyDay(k: nat, schedule: seq<Action>, limit: int)
    requires limit != 0 && RateLimitRaceRuns.NoneLeaves(schedule)
    ensures var s := ExecuteBoth(Limits(0, limit), k, schedule);
            NoneInMinute(s) && DayAlike(s, Execute(Start(k), schedule, DAY, limit))
    ensures Admissions(Limits(0, limit), k, schedule) == Log(Start(k), schedule, DAY, limit)
  {
    if schedule != [] {
      var n := |schedule| - 1;
      var s, d := ExecuteBoth(Limits(0, limit), k, schedule[..n]), Execute(Start(k), schedule[..n], DAY, limit);
      OnlyDay(k, schedule[..n], limit);
      OnlyDayStep(s, d, schedule[n], limit);
    }
  }

  /** Each bound is met, for every number of handlers and every positive limit, with the other limit off. */
  lemma {:induction false} AllowRaceBoundIsMet(k: nat, limit: int) returns (minute: seq<Action>, day: seq<Action>)
    requires k > 0 && limit > 0
    ensures ClockForward(minute) && ClockForward(day)
    ensures CountIn(Admissions(Limits(limit, 0), k, minute), -MINUTE, 0.0) == RaceLimit(k, limit)
    ensures CountIn(Admissions(Limits(0, limit), k, day), -DAY, 0.0) == RaceLimit(k, limit)
  {
    minute := RateLimitRaceRuns.RaceBoundIsMet(k, MINUTE, limit);
    day := RateLimitRaceRuns.RaceBoundIsMet(k, DAY, limit);
    OnlyMinute(k, minute, limit);
    OnlyDay(k, day, limit);
  }
}
