/**
  How many requests of a tenant handlers without a lock can record inside one window.

  A handler that has seen an expired head pops whatever is first when its turn comes, so entries
  inside the window get lost and make room for more.  The bound on the deque's length is then no
  bound on admissions; the one proved here is, on a clock that does not go back.
*/
module RateLimitRaces {
  import opened RateLimit
  import opened RateLimitThreads
  import opened RateLimitHistory

  // ----- What a schedule records -----

  predicate Appends(s: Shared, a: Action) {
    a.Move? && a.handler < |s.handlers| && s.handlers[a.handler].Append?
  }

  /** The timestamps appended in a schedule, in order. */
  function Log(s: Shared, schedule: seq<Action>, window: Time, limit: int): seq<Time> {
    if schedule == [] then []
    else
      var n := |schedule| - 1;
      var before := Execute(s, schedule[..n], window, limit);
      var log := Log(s, schedule[..n], window, limit);
      if Appends(before, schedule[n]) then log + [before.handlers[schedule[n].handler].now] else log
  }

  /** Some call reads the clock after t. */
  predicate CallsAfter(schedule: seq<Action>, t: Time) {
    schedule != [] &&
    var n := |schedule| - 1;
    CallsAfter(schedule[..n], t) || (schedule[n].Call? && schedule[n].now > t)
  }

  /** The clock readings of the calls do not decrease. */
  predicate ClockForward(schedule: seq<Action>) {
    schedule == [] ||
    var n := |schedule| - 1;
    ClockForward(schedule[..n]) && (schedule[n].Call? ==> !CallsAfter(schedule[..n], schedule[n].now))
  }

  /** A clock that has passed t shows more than t from then on. */
  lemma {:induction false} ClockPassed(schedule: seq<Action>, t: Time, now: Time)
    requires CallsAfter(schedule, t) && !CallsAfter(schedule, now)
    ensures now > t
  {
    var n := |schedule| - 1;
    if CallsAfter(schedule[..n], t) {
      ClockPassed(schedule[..n], t, now);
    }
  }

  // ----- Counting handlers -----

  function Tally(handlers: seq<Handler>, p: Handler -> bool): nat {
    if handlers == [] then 0
    else
      var n := |handlers| - 1;
      Tally(handlers[..n], p) + (if p(handlers[n]) then 1 else 0)
  }

  lemma {:induction false} TallyUpdate(handlers: seq<Handler>, p: Handler -> bool, i: nat, h: Handler)
    requires i < |handlers|
    ensures Tally(handlers[i := h], p)
         == Tally(handlers, p) - (if p(handlers[i]) then 1 else 0) + (if p(h) then 1 else 0)
  {
    var n := |handlers| - 1;
    if i < n {
      TallyUpdate(handlers[..n], p, i, h);
      assert handlers[i := h][..n] == handlers[..n][i := h];
    } else {
      assert handlers[i := h][..n] == handlers[..n];
    }
  }

  lemma {:induction false} TallyAtMost(handlers: seq<Handler>, p: Handler -> bool)
    ensures Tally(handlers, p) <= |handlers|
  {
    if handlers != [] {
      TallyAtMost(handlers[..|handlers| - 1], p);
    }
  }

  /** One handler outside the count leaves at most the others. */
  lemma {:induction false} TallyMisses(handlers: seq<Handler>, p: Handler -> bool, i: nat)
    requires i < |handlers| && !p(handlers[i])
    ensures Tally(handlers, p) <= |handlers| - 1
  {
    var n := |handlers| - 1;
    if i < n {
      TallyMisses(handlers[..n], p, i);
    } else {
      TallyAtMost(handlers[..n], p);
    }
  }

  lemma {:induction false} TallyNone(handlers: seq<Handler>, p: Handler -> bool)
    requires forall i :: 0 <= i < |handlers| ==> !p(handlers[i])
    ensures Tally(handlers, p) == 0
  {
    if handlers != [] {
      TallyNone(handlers[..|handlers| - 1], p);
    }
  }

  /** Handlers at work for a request of the window's time or before, of the time before it, of its own time. */
  function Before(lo: Time): Handler -> bool {
    (h: Handler) => !Resting(h) && h.now <= lo
  }

  function Inside(lo: Time, hi: Time): Handler -> bool {
    (h: Handler) => !Resting(h) && lo < h.now <= hi
  }

  function Popping(): Handler -> bool {
    (h: Handler) => h.PopHead?
  }

  // ----- Stretches of old entries -----

  /** Stretches of entries from before the window that do not start at the head. */
  function Stretches(deque: seq<Time>, lo: Time): nat {
    if |deque| < 2 then 0
    else Stretches(deque[1..], lo) + (if deque[0] > lo && deque[1] <= lo then 1 else 0)
  }

  lemma {:induction false} StretchesSnoc(deque: seq<Time>, t: Time, lo: Time)
    ensures Stretches(deque + [t], lo) <= Stretches(deque, lo) + (if t <= lo && deque != [] then 1 else 0)
  {
    if |deque| >= 2 {
      StretchesSnoc(deque[1..], t, lo);
      assert (deque + [t])[1..] == deque[1..] + [t];
    }
  }

  lemma {:induction false} StretchesNone(deque: seq<Time>, lo: Time)
    requires forall i :: 0 <= i < |deque| ==> deque[i] <= lo
    ensures Stretches(deque, lo) == 0
  {
    if |deque| >= 2 {
      StretchesNone(deque[1..], lo);
    }
  }

  lemma {:induction false} CountHead(log: seq<Time>, lo: Time, hi: Time)
    requires log != []
    ensures CountIn(log, lo, hi) == CountIn(log[1..], lo, hi) + (if lo < log[0] <= hi then 1 else 0)
  {
    var n := |log| - 1;
    if n > 0 {
      CountHead(log[..n], lo, hi);
      assert log[..n][1..] == log[1..][..n - 1] && log[1..][n - 1] == log[n];
    } else {
      assert log[..0] == [] && log[1..] == [];
    }
  }

  lemma {:induction false} CountAtMost(log: seq<Time>, lo: Time, hi: Time)
    ensures CountIn(log, lo, hi) <= |log|
  {
    if log != [] {
      CountAtMost(log[..|log| - 1], lo, hi);
    }
  }

  lemma {:induction false} CountNone(log: seq<Time>, lo: Time, hi: Time)
    requires forall i :: 0 <= i < |log| ==> log[i] <= lo
    ensures CountIn(log, lo, hi) == 0
  {
    if log != [] {
      CountNone(log[..|log| - 1], lo, hi);
    }
  }

  // ----- The three phases of a run, as the clock passes the window -----

  predicate UpToNow(s: Shared, t: Time) {
    && (forall i :: 0 <= i < |s.deque| ==> s.deque[i] <= t)
    && (forall i :: 0 <= i < |s.handlers| ==> !Resting(s.handlers[i]) ==> s.handlers[i].now <= t)
  }

  /** Entries of the window that handlers with a stale view can still pop. */
  function AtRisk(s: Shared, lo: Time): nat
    requires s.handlers != []
  {
    if s.deque != [] && s.deque[0] <= lo then |s.handlers| - 1 else Tally(s.handlers, Popping())
  }

  /** Later chances for such views: old stretches to come to the head, and old entries still to be appended. */
  function Chances(s: Shared, lo: Time): nat {
    Stretches(s.deque, lo) + Tally(s.handlers, Before(lo))
  }

  /** (k - 1) * n, by addition. */
  function OthersTimes(k: nat, n: nat): nat
    requires k > 0
  {
    if n == 0 then 0 else OthersTimes(k, n - 1) + k - 1
  }

  lemma {:induction false} OthersTimesIs(k: nat, n: nat)
    requires k > 0
    ensures OthersTimes(k, n) == (k - 1) * n
  {
    if n > 0 {
      OthersTimesIs(k, n - 1);
    }
  }

  lemma {:induction false} OthersTimesGrows(k: nat, few: nat, many: nat)
    requires k > 0 && few <= many
    ensures OthersTimes(k, few) <= OthersTimes(k, many)
    ensures few < many ==> OthersTimes(k, few) + k - 1 <= OthersTimes(k, many)
  {
    if few < many {
      OthersTimesGrows(k, few, many - 1);
    }
  }

  /** `recorded` entries of the window so far; those no longer in the deque were popped by a stale view. */
  predicate Losses(s: Shared, recorded: nat, lo: Time, hi: Time) {
    var k := |s.handlers|;
    k > 0 && recorded - CountIn(s.deque, lo, hi) + AtRisk(s, lo) + OthersTimes(k, Chances(s, lo)) <= OthersTimes(k, k)
  }

  function Bound(k: nat, limit: int): int
    requires k > 0
  {
    limit + OthersTimes(k, k + 2)
  }

  predicate Afterwards(s: Shared, recorded: nat, lo: Time, hi: Time, limit: int) {
    s.handlers != [] && recorded + Tally(s.handlers, Inside(lo, hi)) <= Bound(|s.handlers|, limit)
  }

  /** Handler i's new state changes the three counts by what it was and what it is. */
  lemma {:induction false} Moves(handlers: seq<Handler>, i: nat, h: Handler, lo: Time, hi: Time)
    requires i < |handlers|
    ensures Tally(handlers[i := h], Popping())
         == Tally(handlers, Popping()) - (if handlers[i].PopHead? then 1 else 0) + (if h.PopHead? then 1 else 0)
    ensures Tally(handlers[i := h], Before(lo))
         == Tally(handlers, Before(lo)) - (if Before(lo)(handlers[i]) then 1 else 0) + (if Before(lo)(h) then 1 else 0)
    ensures Tally(handlers[i := h], Inside(lo, hi))
         == Tally(handlers, Inside(lo, hi)) - (if Inside(lo, hi)(handlers[i]) then 1 else 0)
            + (if Inside(lo, hi)(h) then 1 else 0)
  {
    TallyUpdate(handlers, Popping(), i, h);
    TallyUpdate(handlers, Before(lo), i, h);
    TallyUpdate(handlers, Inside(lo, hi), i, h);
  }

  /** A step that leaves the deque alone, adds no old handler, and starts popping only at an old head. */
  lemma {:induction false} QuietStep(s: Shared, i: nat, h: Handler, recorded: nat, lo: Time, hi: Time)
    requires i < |s.handlers| && Losses(s, recorded, lo, hi)
    requires Before(lo)(h) ==> Before(lo)(s.handlers[i])
    requires h.PopHead? ==> s.handlers[i].PopHead? || (s.deque != [] && s.deque[0] <= lo)
    ensures Losses(s.(handlers := s.handlers[i := h]), recorded, lo, hi)
  {
    Moves(s.handlers, i, h, lo, hi);
    OthersTimesGrows(|s.handlers|, Chances(s.(handlers := s.handlers[i := h]), lo), Chances(s, lo));
  }

  /** Popping an old head: at most the others are left with a stale view. */
  lemma {:induction false} PopOld(s: Shared, i: nat, h: Handler, recorded: nat, lo: Time, hi: Time)
    requires i < |s.handlers| && Losses(s, recorded, lo, hi)
    requires s.handlers[i].PopHead? && !h.PopHead? && (Before(lo)(h) ==> Before(lo)(s.handlers[i]))
    requires s.deque != [] && s.deque[0] <= lo
    ensures Losses(Shared(s.deque[1..], s.handlers[i := h]), recorded, lo, hi)
  {
    Moves(s.handlers, i, h, lo, hi);
    TallyMisses(s.handlers[i := h], Popping(), i);
    CountHead(s.deque, lo, hi);
    OthersTimesGrows(|s.handlers|, Chances(Shared(s.deque[1..], s.handlers[i := h]), lo), Chances(s, lo));
  }

  /** Popping an entry of the window: one stale view less, and one chance less if that brings an old entry to the
      head. */
  lemma {:induction false} PopInside(s: Shared, i: nat, h: Handler, recorded: nat, lo: Time, hi: Time)
    requires i < |s.handlers| && Losses(s, recorded, lo, hi)
    requires s.handlers[i].PopHead? && !h.PopHead? && (Before(lo)(h) ==> Before(lo)(s.handlers[i]))
    requires s.deque != [] && s.deque[0] > lo
    ensures Losses(Shared(s.deque[1..], s.handlers[i := h]), recorded, lo, hi)
  {
    Moves(s.handlers, i, h, lo, hi);
    CountHead(s.deque, lo, hi);
    var s' := Shared(s.deque[1..], s.handlers[i := h]);
    OthersTimesGrows(|s.handlers|, Chances(s', lo), Chances(s, lo));
  }

  /** Appending uses up an old handler's chance, or adds to both counts. */
  lemma {:induction false} AppendStep(s: Shared, i: nat, recorded: nat, lo: Time, hi: Time)
    requires i < |s.handlers| && s.handlers[i].Append? && s.handlers[i].now <= hi && Losses(s, recorded, lo, hi)
    ensures var now := s.handlers[i].now;
            Losses(Shared(s.deque + [now], s.handlers[i := Returned(true)]), recorded + (if lo < now then 1 else 0), lo,
                   hi)
  {
    var now, h := s.handlers[i].now, Returned(true);
    var s' := Shared(s.deque + [now], s.handlers[i := h]);
    Moves(s.handlers, i, h, lo, hi);
    TallyAtMost(s.handlers, Popping());
    StretchesSnoc(s.deque, now, lo);
    OthersTimesGrows(|s.handlers|, Chances(s', lo), Chances(s, lo));
    if now <= lo && s.deque == [] {
      TallyMisses(s.handlers, Popping(), i);
    }
  }

  // ----- Steps and phases -----

  /** Whether a step records an entry of the window. */
  function Recorded(s: Shared, a: Action, lo: Time, hi: Time): nat {
    if Appends(s, a) && lo < s.handlers[a.handler].now <= hi then 1 else 0
  }

  lemma {:induction false} BeforeStep(s: Shared, a: Action, window: Time, limit: int, t: Time)
    requires UpToNow(s, t) && (a.Call? ==> a.now <= t)
    ensures UpToNow(Act(s, a, window, limit), t)
  {
  }

  lemma {:induction false} InsideMove(s: Shared, i: nat, window: Time, limit: int, recorded: nat, lo: Time, hi: Time)
    requires Losses(s, recorded, lo, hi) && UpToNow(s, hi) && hi <= lo + window && i < |s.handlers|
    ensures Losses(Act(s, Move(i), window, limit), recorded + Recorded(s, Move(i), lo, hi), lo, hi)
  {
    var h := s.handlers[i];
    if h.Append? {
      AppendStep(s, i, recorded, lo, hi);
    } else if h.PopHead? && s.deque != [] {
      if s.deque[0] <= lo {
        PopOld(s, i, TestEmpty(h.now), recorded, lo, hi);
      } else {
        PopInside(s, i, TestEmpty(h.now), recorded, lo, hi);
      }
    } else {
      QuietStep(s, i, Operation(s.deque, h, window, limit).1, recorded, lo, hi);
    }
  }

  lemma {:induction false} InsideStep(s: Shared, a: Action, window: Time, limit: int, recorded: nat, lo: Time, hi: Time)
    requires Losses(s, recorded, lo, hi) && UpToNow(s, hi) && hi <= lo + window
    requires a.Call? ==> lo < a.now <= hi
    ensures Losses(Act(s, a, window, limit), recorded + Recorded(s, a, lo, hi), lo, hi)
  {
    if a.handler < |s.handlers| {
      match a {
        case Move(i) => InsideMove(s, i, window, limit, recorded, lo, hi);
        case Call(i, now) =>
          if Resting(s.handlers[i]) {
            QuietStep(s, i, TestEmpty(now), recorded, lo, hi);
          }
        case Leave(i) =>
          if s.handlers[i].TestEmpty? {
            QuietStep(s, i, Returned(false), recorded, lo, hi);
          }
      }
    }
  }

  lemma {:induction false} EnterWindow(s: Shared, a: Action, window: Time, limit: int, lo: Time, hi: Time)
    requires UpToNow(s, lo) && a.Call? && lo < a.now <= hi && s.handlers != []
    requires a.handler < |s.handlers| && Resting(s.handlers[a.handler])
    ensures Losses(Act(s, a, window, limit), 0, lo, hi)
  {
    var k, s' := |s.handlers|, Act(s, a, window, limit);
    StretchesNone(s.deque, lo);
    CountNone(s.deque, lo, hi);
    TallyMisses(s'.handlers, Before(lo), a.handler);
    TallyMisses(s'.handlers, Popping(), a.handler);
    OthersTimesGrows(k, Chances(s', lo), k - 1);
  }

  lemma {:induction false} LeaveWindow(s: Shared, a: Action, window: Time, limit: int, recorded: nat, lo: Time,
                                       hi: Time)
    requires Losses(s, recorded, lo, hi) && Bounded(s, limit) && a.Call? && a.now > hi
    requires a.handler < |s.handlers| && Resting(s.handlers[a.handler])
    ensures Afterwards(Act(s, a, window, limit), recorded, lo, hi, limit)
  {
    var k, s' := |s.handlers|, Act(s, a, window, limit);
    CountAtMost(s.deque, lo, hi);
    TallyMisses(s'.handlers, Inside(lo, hi), a.handler);
    OthersTimesGrows(k, 0, Chances(s, lo));
    assert OthersTimes(k, k + 2) == OthersTimes(k, k) + 2 * (k - 1);
  }

  /** After the window, each handler still at work for a request of it can record one entry. */
  lemma {:induction false} AfterStep(s: Shared, a: Action, window: Time, limit: int, recorded: nat, lo: Time, hi: Time)
    requires Afterwards(s, recorded, lo, hi, limit) && (a.Call? ==> a.now > hi)
    ensures Afterwards(Act(s, a, window, limit), recorded + Recorded(s, a, lo, hi), lo, hi, limit)
  {
    if a.handler < |s.handlers| {
      var s' := Act(s, a, window, limit);
      TallyUpdate(s.handlers, Inside(lo, hi), a.handler, s'.handlers[a.handler]);
      assert s'.handlers == s.handlers[a.handler := s'.handlers[a.handler]];
    }
  }

  predicate Phase(schedule: seq<Action>, s: Shared, recorded: nat, lo: Time, hi: Time, limit: int) {
    || (recorded == 0 && UpToNow(s, lo))
    || (CallsAfter(schedule, lo) && UpToNow(s, hi) && Losses(s, recorded, lo, hi))
    || (CallsAfter(schedule, hi) && Afterwards(s, recorded, lo, hi, limit))
  }

  lemma {:induction false} PhaseStep(before: seq<Action>, s: Shared, a: Action, window: Time, limit: int, recorded: nat,
                                     lo: Time, hi: Time)
    requires s.handlers != [] && Phase(before, s, recorded, lo, hi, limit) && Bounded(s, limit) && limit >= 0
    requires lo <= hi <= lo + window && (a.Call? ==> !CallsAfter(before, a.now))
    ensures Phase(before + [a], Act(s, a, window, limit), recorded + Recorded(s, a, lo, hi), lo, hi, limit)
  {
    assert (before + [a])[..|before|] == before;
    var effective := a.Call? && a.handler < |s.handlers| && Resting(s.handlers[a.handler]);
    if a.Call? && !effective {
      assert Act(s, a, window, limit) == s;
    } else if CallsAfter(before, hi) && Afterwards(s, recorded, lo, hi, limit) {
      if a.Call? {
        ClockPassed(before, hi, a.now);
      }
      AfterStep(s, a, window, limit, recorded, lo, hi);
    } else if CallsAfter(before, lo) && UpToNow(s, hi) && Losses(s, recorded, lo, hi) {
      if a.Call? {
        ClockPassed(before, lo, a.now);
      }
      if a.Call? && a.now > hi {
        LeaveWindow(s, a, window, limit, recorded, lo, hi);
      } else {
        InsideStep(s, a, window, limit, recorded, lo, hi);
        BeforeStep(s, a, window, limit, hi);
      }
    } else if a.Call? && a.now > hi {
      TallyNone(Act(s, a, window, limit).handlers, Inside(lo, hi));
      OthersTimesGrows(|s.handlers|, 0, |s.handlers| + 2);
    } else if a.Call? && a.now > lo {
      EnterWindow(s, a, window, limit, lo, hi);
    } else {
      BeforeStep(s, a, window, limit, lo);
    }
  }

  // ----- The bound -----

  lemma {:induction false} PhaseAlways(k: nat, schedule: seq<Action>, window: Time, limit: int, lo: Time, hi: Time)
    requires k > 0 && limit >= 0 && ClockForward(schedule) && lo <= hi <= lo + window
    ensures Phase(schedule, Execute(Start(k), schedule, window, limit),
                  CountIn(Log(Start(k), schedule, window, limit), lo, hi), lo, hi, limit)
  {
    if schedule != [] {
      var n := |schedule| - 1;
      var s, log := Execute(Start(k), schedule[..n], window, limit), Log(Start(k), schedule[..n], window, limit);
      PhaseAlways(k, schedule[..n], window, limit, lo, hi);
      ThreadBound(k, schedule[..n], window, limit);
      PhaseStep(schedule[..n], s, schedule[n], window, limit, CountIn(log, lo, hi), lo, hi);
      assert schedule == schedule[..n] + [schedule[n]];
    }
  }

  lemma {:induction false} PhaseBound(schedule: seq<Action>, s: Shared, recorded: nat, lo: Time, hi: Time, limit: int)
    requires s.handlers != [] && limit >= 0 && Phase(schedule, s, recorded, lo, hi, limit) && Bounded(s, limit)
    ensures recorded <= Bound(|s.handlers|, limit)
  {
    var k := |s.handlers|;
    CountAtMost(s.deque, lo, hi);
    OthersTimesGrows(k, 0, Chances(s, lo));
    OthersTimesGrows(k, 0, k + 2);
    assert OthersTimes(k, k + 2) == OthersTimes(k, k) + 2 * (k - 1);
  }

  /** On a clock that does not go back, k handlers without a lock record at most limit + (k - 1) * (k + 2) requests in
      any window: the limit itself for one handler. */
  lemma {:induction false} RaceBound(k: nat, schedule: seq<Action>, window: Time, limit: int, lo: Time, hi: Time)
    requires k > 0 && limit >= 0 && ClockForward(schedule) && lo <= hi <= lo + window
    ensures CountIn(Log(Start(k), schedule, window, limit), lo, hi) <= limit + (k - 1) * (k + 2)
  {
    PhaseAlways(k, schedule, window, limit, lo, hi);
    ThreadBound(k, schedule, window, limit);
    PhaseBound(schedule, Execute(Start(k), schedule, window, limit),
               CountIn(Log(Start(k), schedule, window, limit), lo, hi), lo, hi, limit);
    OthersTimesIs(k, k + 2);
  }
}
