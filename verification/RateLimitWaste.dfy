/**
  What a wasted minute slot costs.

  For every pair of limits whose day window can be reached there is an arrival sequence on which
  the limiter admits fewer requests than a competitor: the day's quota is used up early, a burst
  just before the day is over is refused by the day window but fills the minute window, and when
  the day window has room again the minute window has not.
*/
module RateLimitWaste {
  import opened RateLimit
  import opened RateLimitHistory
  import opened RateLimitOptimality

  // ----- The arrivals -----

  function Repeat(s: seq<Time>, n: nat, t: Time): seq<Time> {
    if n == 0 then s else Repeat(s, n - 1, t) + [t]
  }

  function RepeatPick(s: seq<bool>, n: nat, p: bool): seq<bool> {
    if n == 0 then s else RepeatPick(s, n - 1, p) + [p]
  }

  /** When minute number g starts. */
  function Start(g: nat): Time {
    (g as real) * MINUTE
  }

  /** A full minute quota at the start of each of the first g minutes. */
  function Minutes(pm: nat, g: nat): seq<Time> {
    if g == 0 then [] else Repeat(Minutes(pm, g - 1), pm, Start(g - 1))
  }

  const ALMOST: Time := 86399.0

  /** A day quota of g full minutes and e more requests, 0 <= e < pm. */
  datatype Burst = Burst(pm: nat, g: nat, e: nat) {
    ghost predicate Valid() {
      pm > 0 && g <= 1439 && e < pm && g + e > 0
    }

    function PerDay(): nat {
      g * pm + e
    }

    /** As many requests as the day window has room for once its first minute has expired. */
    function Late(): nat {
      if g > 0 then pm else e
    }

    function Early(): seq<Time> {
      Repeat(Minutes(pm, g), e, Start(g))
    }

    function BeforeMidnight(): seq<Time> {
      Repeat(Early(), pm, ALMOST)
    }

    function Times(): seq<Time> {
      Repeat(BeforeMidnight(), Late(), DAY)
    }

    /** What the competitor takes: the early and the late requests, none of the burst. */
    function Chosen(): seq<Time> {
      Repeat(Early(), Late(), DAY)
    }

    function Picks(): seq<bool> {
      RepeatPick(RepeatPick(RepeatPick([], |Early()|, true), pm, false), Late(), true)
    }

    /** How many early requests can still be in the minute window when the burst comes. */
    function Straddling(): nat {
      if g == 1439 then e else 0
    }
  }

  // ----- Repeated requests -----

  lemma {:induction false} RepeatSorted(ts: seq<Time>, n: nat, t: Time)
    requires Sorted(ts) && UpTo(ts, t)
    ensures Sorted(Repeat(ts, n, t)) && UpTo(Repeat(ts, n, t), t)
  {
    if n > 0 {
      RepeatSorted(ts, n - 1, t);
      RecordSorted(Repeat(ts, n - 1, t), t, true);
    }
  }

  lemma {:induction false} RepeatInside(log: seq<Time>, n: nat, t: Time, cutoff: Time)
    requires t > cutoff
    ensures CountAfter(Repeat(log, n, t), cutoff) == CountAfter(log, cutoff) + n
  {
    if n > 0 {
      RepeatInside(log, n - 1, t, cutoff);
      CountAfterRecord(Repeat(log, n - 1, t), t, true, cutoff);
    }
  }

  lemma {:induction false} RepeatOutside(log: seq<Time>, n: nat, t: Time, cutoff: Time)
    requires t <= cutoff
    ensures CountAfter(Repeat(log, n, t), cutoff) == CountAfter(log, cutoff)
  {
    if n > 0 {
      RepeatOutside(log, n - 1, t, cutoff);
      CountAfterRecord(Repeat(log, n - 1, t), t, true, cutoff);
    }
  }

  lemma AfterRepeat(log: seq<Time>, n: nat, t: Time, cutoff: Time)
    ensures CountAfter(Repeat(log, n, t), cutoff) == CountAfter(log, cutoff) + (if t > cutoff then n else 0)
  {
    if t > cutoff {
      RepeatInside(log, n, t, cutoff);
    } else {
      RepeatOutside(log, n, t, cutoff);
    }
  }

  lemma {:induction false} AfterNone(log: seq<Time>, cutoff: Time)
    requires Sorted(log) && UpTo(log, cutoff)
    ensures CountAfter(log, cutoff) == 0
  {
    if log != [] {
      AfterNone(log[..|log| - 1], cutoff);
    }
  }

  lemma {:induction false} RepeatLength(ts: seq<Time>, n: nat, t: Time)
    ensures |Repeat(ts, n, t)| == |ts| + n
  {
    if n > 0 {
      RepeatLength(ts, n - 1, t);
    }
  }

  lemma {:induction false} SelectSkip(ts: seq<Time>, ps: seq<bool>, n: nat, t: Time)
    requires |ts| == |ps|
    ensures |Repeat(ts, n, t)| == |RepeatPick(ps, n, false)|
    ensures Select(Repeat(ts, n, t), RepeatPick(ps, n, false)) == Select(ts, ps)
  {
    if n > 0 {
      SelectSkip(ts, ps, n - 1, t);
      SelectSnoc(Repeat(ts, n - 1, t), RepeatPick(ps, n - 1, false), t, false);
    }
  }

  lemma {:induction false} SelectTake(ts: seq<Time>, ps: seq<bool>, n: nat, t: Time)
    requires |ts| == |ps|
    ensures |Repeat(ts, n, t)| == |RepeatPick(ps, n, true)|
    ensures Select(Repeat(ts, n, t), RepeatPick(ps, n, true)) == Repeat(Select(ts, ps), n, t)
  {
    if n > 0 {
      SelectTake(ts, ps, n - 1, t);
      SelectSnoc(Repeat(ts, n - 1, t), RepeatPick(ps, n - 1, true), t, true);
    }
  }

  lemma {:induction false} SelectAll(ts: seq<Time>)
    ensures |RepeatPick([], |ts|, true)| == |ts|
    ensures Select(ts, RepeatPick([], |ts|, true)) == ts
  {
    if ts != [] {
      var n := |ts| - 1;
      SelectAll(ts[..n]);
      SelectSnoc(ts[..n], RepeatPick([], n, true), ts[n], true);
      assert ts == ts[..n] + [ts[n]];
    }
  }

  // ----- The early requests -----

  lemma {:induction false} MinutesShape(pm: nat, g: nat)
    ensures |Minutes(pm, g)| == g * pm
    ensures Sorted(Minutes(pm, g)) && UpTo(Minutes(pm, g), Start(g) - MINUTE)
  {
    if g > 0 {
      MinutesShape(pm, g - 1);
      RepeatSorted(Minutes(pm, g - 1), pm, Start(g - 1));
      RepeatLength(Minutes(pm, g - 1), pm, Start(g - 1));
      assert g * pm == (g - 1) * pm + pm;
    }
  }

  lemma {:induction false} EarlyLength(b: Burst)
    ensures |b.Early()| == b.PerDay()
  {
    MinutesShape(b.pm, b.g);
    RepeatLength(Minutes(b.pm, b.g), b.e, Start(b.g));
  }

  lemma {:induction false} TimesSorted(b: Burst)
    requires b.Valid()
    ensures Sorted(b.Early()) && UpTo(b.Early(), DAY - MINUTE)
    ensures Sorted(b.BeforeMidnight()) && UpTo(b.BeforeMidnight(), ALMOST)
    ensures Sorted(b.Times()) && UpTo(b.Times(), DAY)
  {
    MinutesShape(b.pm, b.g);
    RepeatSorted(Minutes(b.pm, b.g), b.e, Start(b.g));
    RepeatSorted(b.Early(), b.pm, ALMOST);
    RepeatSorted(b.BeforeMidnight(), b.Late(), DAY);
  }

  // ----- The competitor stays within both limits -----

  /** Each entry of a log finds its window of the log not yet full. */
  predicate SelfGuarded(log: seq<Time>, window: Time, limit: int) {
    log == [] ||
    var n := |log| - 1;
    SelfGuarded(log[..n], window, limit) && CountAfter(log[..n], log[n] - window) < limit
  }

  lemma {:induction false} SelfGuardedRespects(log: seq<Time>, window: Time, limit: int)
    requires SelfGuarded(log, window, limit)
    ensures RespectsWindow(log, window, limit)
  {
    forall lo: Time
      ensures SpanCount(log, lo, window) <= Positive(limit)
    {
      SelfGuardedSpan(log, window, limit, lo);
    }
  }

  lemma {:induction false} SelfGuardedSpan(log: seq<Time>, window: Time, limit: int, lo: Time)
    requires SelfGuarded(log, window, limit)
    ensures SpanCount(log, lo, window) <= Positive(limit)
  {
    if log != [] {
      var n := |log| - 1;
      SelfGuardedSpan(log[..n], window, limit, lo);
      if log[n] <= lo + window {
        CountInAfter(log[..n], lo, lo + window, log[n] - window);
      }
    }
  }

  lemma {:induction false} SelfGuardedSnoc(log: seq<Time>, t: Time, window: Time, limit: int)
    requires SelfGuarded(log, window, limit) && CountAfter(log, t - window) < limit
    ensures SelfGuarded(log + [t], window, limit)
  {
    assert (log + [t])[..|log|] == log;
  }

  lemma {:induction false} RoomLeft(log: seq<Time>, n: nat, t: Time, window: Time, limit: int)
    requires window > 0.0 && CountAfter(log, t - window) + n < limit
    ensures CountAfter(Repeat(log, n, t), t - window) < limit
  {
    AfterRepeat(log, n, t, t - window);
  }

  /** While there is room, requests at one instant find it. */
  lemma {:induction false} SelfGuardedRepeat(log: seq<Time>, n: nat, t: Time, window: Time, limit: int)
    requires SelfGuarded(log, window, limit) && window > 0.0
    requires CountAfter(log, t - window) + n <= limit
    ensures SelfGuarded(Repeat(log, n, t), window, limit)
  {
    if n > 0 {
      SelfGuardedRepeat(log, n - 1, t, window, limit);
      RoomLeft(log, n - 1, t, window, limit);
      SelfGuardedSnoc(Repeat(log, n - 1, t), t, window, limit);
    }
  }

  lemma {:induction false} MinutesGuarded(pm: nat, g: nat, pd: nat)
    requires |Minutes(pm, g)| <= pd
    ensures SelfGuarded(Minutes(pm, g), MINUTE, pm)
    ensures SelfGuarded(Minutes(pm, g), DAY, pd)
  {
    if g > 0 {
      var before := Minutes(pm, g - 1);
      RepeatLength(before, pm, Start(g - 1));
      MinutesGuarded(pm, g - 1, pd);
      MinutesShape(pm, g - 1);
      AfterNone(before, Start(g - 1) - MINUTE);
      SelfGuardedRepeat(before, pm, Start(g - 1), MINUTE, pm);
      SelfGuardedRepeat(before, pm, Start(g - 1), DAY, pd);
    }
  }

  /** Once the first minute has expired, the full minutes leave room for one more. */
  lemma {:induction false} FirstMinuteExpires(pm: nat, g: nat)
    requires g > 0
    ensures CountAfter(Minutes(pm, g), 0.0) + pm == |Minutes(pm, g)|
  {
    var before := Minutes(pm, g - 1);
    AfterRepeat(before, pm, Start(g - 1), 0.0);
    RepeatLength(before, pm, Start(g - 1));
    if g > 1 {
      FirstMinuteExpires(pm, g - 1);
    }
  }

  lemma {:induction false} LateFit(b: Burst)
    requires b.Valid()
    ensures CountAfter(b.Early(), 0.0) + b.Late() == |b.Early()|
  {
    AfterRepeat(Minutes(b.pm, b.g), b.e, Start(b.g), 0.0);
    RepeatLength(Minutes(b.pm, b.g), b.e, Start(b.g));
    if b.g > 0 {
      FirstMinuteExpires(b.pm, b.g);
    }
  }

  lemma {:induction false} EarlyGuarded(b: Burst)
    requires b.Valid()
    ensures SelfGuarded(b.Early(), MINUTE, b.pm)
    ensures SelfGuarded(b.Early(), DAY, |b.Early()|)
  {
    var minutes := Minutes(b.pm, b.g);
    MinutesShape(b.pm, b.g);
    RepeatLength(minutes, b.e, Start(b.g));
    MinutesGuarded(b.pm, b.g, |b.Early()|);
    AfterNone(minutes, Start(b.g) - MINUTE);
    SelfGuardedRepeat(minutes, b.e, Start(b.g), MINUTE, b.pm);
    SelfGuardedRepeat(minutes, b.e, Start(b.g), DAY, |b.Early()|);
  }

  lemma {:induction false} ChosenGuarded(b: Burst)
    requires b.Valid()
    ensures SelfGuarded(b.Chosen(), MINUTE, b.pm)
    ensures SelfGuarded(b.Chosen(), DAY, b.PerDay())
  {
    EarlyGuarded(b);
    EarlyLength(b);
    TimesSorted(b);
    AfterNone(b.Early(), DAY - MINUTE);
    SelfGuardedRepeat(b.Early(), b.Late(), DAY, MINUTE, b.pm);
    LateFit(b);
    SelfGuardedRepeat(b.Early(), b.Late(), DAY, DAY, b.PerDay());
  }

  lemma {:induction false} PicksChoose(b: Burst)
    ensures |b.Times()| == |b.Picks()|
    ensures Select(b.Times(), b.Picks()) == b.Chosen()
  {
    var taken := RepeatPick([], |b.Early()|, true);
    SelectAll(b.Early());
    SelectSkip(b.Early(), taken, b.pm, ALMOST);
    SelectTake(b.BeforeMidnight(), RepeatPick(taken, b.pm, false), b.Late(), DAY);
  }

  lemma {:induction false} BurstCompetitor(b: Burst)
    requires b.Valid()
    ensures Competitor(Limits(b.pm, b.PerDay()), b.Times(), b.Picks())
    ensures |Select(b.Times(), b.Picks())| == b.PerDay() + b.Late()
  {
    TimesSorted(b);
    EarlyLength(b);
    PicksChoose(b);
    RepeatLength(b.Early(), b.Late(), DAY);
    ChosenGuarded(b);
    SelfGuardedRespects(b.Chosen(), MINUTE, b.pm);
    SelfGuardedRespects(b.Chosen(), DAY, b.PerDay());
  }

  // ----- The limiter on the same arrivals -----

  /** The reference's two logs, as one state. */
  datatype Tally = Tally(minuteLog: seq<Time>, admittedLog: seq<Time>)

  function TallyOf(l: Limits, times: seq<Time>): Tally {
    Tally(MinuteLog(times, Reference(l, times)), AdmittedLog(times, Reference(l, times)))
  }

  function TallyStep(l: Limits, s: Tally, t: Time): Tally {
    var verdict := ReferenceVerdict(l, s.minuteLog, s.admittedLog, t);
    Tally(Record(s.minuteLog, t, verdict != MinuteRefused), Record(s.admittedLog, t, verdict == Admitted))
  }

  function TallyRepeat(l: Limits, s: Tally, n: nat, t: Time): Tally {
    if n == 0 then s else TallyStep(l, TallyRepeat(l, s, n - 1, t), t)
  }

  lemma {:induction false} TallySnoc(l: Limits, times: seq<Time>, t: Time)
    ensures TallyOf(l, times + [t]) == TallyStep(l, TallyOf(l, times), t)
  {
    var v := Reference(l, times);
    assert (times + [t])[..|times|] == times;
    VerdictSnoc(times, v, t, ReferenceVerdict(l, MinuteLog(times, v), AdmittedLog(times, v), t));
  }

  lemma {:induction false} TallyOfRepeat(l: Limits, ts: seq<Time>, n: nat, t: Time)
    ensures TallyOf(l, Repeat(ts, n, t)) == TallyRepeat(l, TallyOf(l, ts), n, t)
  {
    if n > 0 {
      TallyOfRepeat(l, ts, n - 1, t);
      TallySnoc(l, Repeat(ts, n - 1, t), t);
    }
  }

  function Recent(s: Tally, cutoff: Time): nat {
    CountAfter(s.minuteLog, cutoff)
  }

  /** One more request t: a minute slot unless the minute window is full, and an admission only with it. */
  lemma {:induction false} OneMore(l: Limits, s: Tally, t: Time, cutoff: Time)
    requires cutoff < t
    ensures 0 <= |TallyStep(l, s, t).admittedLog| - |s.admittedLog|
         <= Recent(TallyStep(l, s, t), cutoff) - Recent(s, cutoff)
    ensures Recent(TallyStep(l, s, t), cutoff)
         == Recent(s, cutoff) + (if Full(s.minuteLog, t, MINUTE, l.perMinute) then 0 else 1)
  {
    CountAfterRecord(s.minuteLog, t, ReferenceVerdict(l, s.minuteLog, s.admittedLog, t) != MinuteRefused, cutoff);
  }

  /** n requests at one instant add the same to every window that contains it, at least as much as they add
      admissions, and leave the minute window holding at least n, or full. */
  lemma {:induction false} BurstGrowth(l: Limits, s: Tally, n: nat, t: Time, cutoff: Time)
    requires l.perMinute > 0 && t - MINUTE <= cutoff < t
    ensures var r := TallyRepeat(l, s, n, t);
            && Recent(r, cutoff) - Recent(s, cutoff) == Recent(r, t - MINUTE) - Recent(s, t - MINUTE)
            && |r.admittedLog| - |s.admittedLog| <= Recent(r, cutoff) - Recent(s, cutoff)
            && Recent(r, t - MINUTE) >= if n < l.perMinute then n else l.perMinute
  {
    if n > 0 {
      BurstGrowth(l, s, n - 1, t, cutoff);
      OneMore(l, TallyRepeat(l, s, n - 1, t), t, cutoff);
      OneMore(l, TallyRepeat(l, s, n - 1, t), t, t - MINUTE);
    }
  }

  /** The minute window is never over its limit at the latest instant of a run. */
  lemma {:induction false} MinuteNeverOver(l: Limits, times: seq<Time>, hi: Time)
    requires l.perMinute > 0 && Sorted(times) && UpTo(times, hi)
    ensures Recent(TallyOf(l, times), hi - MINUTE) <= l.perMinute
  {
    var picks := MinutePicks(Reference(l, times));
    SelectSorted(times, picks, hi);
    AfterWithin(Select(times, picks), hi - MINUTE, hi);
    ReferenceGuardsMinute(l, times);
    WindowBound(times, picks, MINUTE, l.perMinute, hi - MINUTE, hi);
  }

  predicate NonNegative(times: seq<Time>) {
    times == [] || (times[|times| - 1] >= 0.0 && NonNegative(times[..|times| - 1]))
  }

  lemma {:induction false} RepeatNonNegative(ts: seq<Time>, n: nat, t: Time)
    requires NonNegative(ts) && t >= 0.0
    ensures NonNegative(Repeat(ts, n, t))
  {
    if n > 0 {
      var before := Repeat(ts, n - 1, t);
      RepeatNonNegative(ts, n - 1, t);
      assert (before + [t])[..|before|] == before;
    }
  }

  lemma {:induction false} MinutesNonNegative(pm: nat, g: nat)
    ensures NonNegative(Minutes(pm, g))
  {
    if g > 0 {
      MinutesNonNegative(pm, g - 1);
      RepeatNonNegative(Minutes(pm, g - 1), pm, Start(g - 1));
    }
  }

  lemma {:induction false} AllAfter(times: seq<Time>, picks: seq<bool>, cutoff: Time)
    requires |times| == |picks| && NonNegative(times) && cutoff < 0.0
    ensures CountAfter(Select(times, picks), cutoff) == |Select(times, picks)|
  {
    if times != [] {
      var n := |times| - 1;
      AllAfter(times[..n], picks[..n], cutoff);
      CountAfterRecord(Select(times[..n], picks[..n]), times[n], picks[n], cutoff);
    }
  }

  /** Admissions that all fall in one day: at most `perDay`. */
  lemma {:induction false} OneDay(l: Limits, times: seq<Time>)
    requires l.perDay > 0 && Sorted(times) && UpTo(times, ALMOST) && NonNegative(times)
    ensures |TallyOf(l, times).admittedLog| <= l.perDay
  {
    var picks := AdmitPicks(Reference(l, times));
    AllAfter(times, picks, ALMOST - DAY);
    SelectSorted(times, picks, ALMOST);
    AfterWithin(Select(times, picks), ALMOST - DAY, ALMOST);
    ReferenceGuardsDay(l, times);
    WindowBound(times, picks, DAY, l.perDay, ALMOST - DAY, ALMOST);
  }

  lemma {:induction false} SelectAfterBound(times: seq<Time>, picks: seq<bool>, cutoff: Time)
    requires |times| == |picks|
    ensures CountAfter(Select(times, picks), cutoff) <= CountAfter(times, cutoff)
  {
    if times != [] {
      var n := |times| - 1;
      SelectAfterBound(times[..n], picks[..n], cutoff);
      CountAfterRecord(Select(times[..n], picks[..n]), times[n], picks[n], cutoff);
    }
  }

  lemma {:induction false} EarlyStraddling(b: Burst)
    requires b.Valid()
    ensures CountAfter(b.Early(), ALMOST - MINUTE) <= b.Straddling()
  {
    MinutesShape(b.pm, b.g);
    AfterNone(Minutes(b.pm, b.g), ALMOST - MINUTE);
    AfterRepeat(Minutes(b.pm, b.g), b.e, Start(b.g), ALMOST - MINUTE);
  }

  /** The burst takes every minute slot that early requests do not hold. */
  lemma {:induction false} BurstTakesSlots(b: Burst, l: Limits)
    requires b.Valid() && l == Limits(b.pm, b.PerDay())
    ensures Recent(TallyOf(l, b.BeforeMidnight()), DAY - MINUTE) >= b.pm - b.Straddling()
  {
    var early := b.Early();
    TallyOfRepeat(l, early, b.pm, ALMOST);
    BurstGrowth(l, TallyOf(l, early), b.pm, ALMOST, DAY - MINUTE);
    EarlyStraddling(b);
    SelectAfterBound(early, MinutePicks(Reference(l, early)), ALMOST - MINUTE);
  }

  lemma {:induction false} AdmittedBeforeMidnight(b: Burst, l: Limits)
    requires b.Valid() && l == Limits(b.pm, b.PerDay())
    ensures |TallyOf(l, b.BeforeMidnight()).admittedLog| <= l.perDay
  {
    TimesSorted(b);
    MinutesNonNegative(b.pm, b.g);
    RepeatNonNegative(Minutes(b.pm, b.g), b.e, Start(b.g));
    RepeatNonNegative(b.Early(), b.pm, ALMOST);
    OneDay(l, b.BeforeMidnight());
  }

  /** The limiter loses to the competitor that sits the burst out. */
  lemma {:induction false} BurstLoses(b: Burst, l: Limits)
    requires b.Valid() && l == Limits(b.pm, b.PerDay())
    ensures |TallyOf(l, b.Times()).admittedLog| < b.PerDay() + b.Late()
  {
    var before := b.BeforeMidnight();
    TimesSorted(b);
    AdmittedBeforeMidnight(b, l);
    BurstTakesSlots(b, l);
    TallyOfRepeat(l, before, b.Late(), DAY);
    BurstGrowth(l, TallyOf(l, before), b.Late(), DAY, DAY - MINUTE);
    MinuteNeverOver(l, b.Times(), DAY);
  }

  // ----- Exactly when the limiter is optimal -----

  /** A window with a negative limit has no room for any competitor's pick. */
  lemma {:induction false} NegativeLimit(times: seq<Time>, picks: seq<bool>, window: Time, limit: int)
    requires |times| == |picks| && limit < 0 && Guarded(times, picks, window, limit)
    ensures Select(times, picks) == []
  {
    if times != [] {
      var n := |times| - 1;
      NegativeLimit(times[..n], picks[..n], window, limit);
    }
  }

  lemma {:induction false} OptimalFor(l: Limits, times: seq<Time>, picks: seq<bool>)
    requires l.perMinute <= 0 || l.perDay <= 0 || l.perDay >= 1440 * l.perMinute
    requires Competitor(l, times, picks)
    ensures |Select(times, picks)| <= AdmittedCount(l, times)
  {
    if l.perMinute < 0 {
      RespectsGuards(times, picks, MINUTE, l.perMinute);
      NegativeLimit(times, picks, MINUTE, l.perMinute);
    } else if l.perDay < 0 {
      RespectsGuards(times, picks, DAY, l.perDay);
      NegativeLimit(times, picks, DAY, l.perDay);
    } else {
      if l.perMinute == 0 || l.perDay == 0 {
        OneWindowWastesNothing(l, times);
      } else {
        WindowRefinement(l, times, LastOf(times));
        DayNeverRefuses(l, times);
      }
      AheadAtEveryPrefix(l, times, picks);
    }
  }

  lemma FewMinutes(pm: int, g: int, e: int)
    requires 0 < pm && 0 <= e && g * pm + e < 1440 * pm
    ensures g <= 1439
  {
    assert (1440 - g) * pm > 0;
  }

  /** The day quota as full minutes and a rest. */
  lemma {:induction false} AsBurst(pm: int, pd: int) returns (b: Burst)
    requires 0 < pm && 0 < pd < 1440 * pm
    ensures b.Valid() && b.pm == pm && b.PerDay() == pd
  {
    var g, e := pd / pm, pd % pm;
    assert pd == g * pm + e;
    FewMinutes(pm, g, e);
    b := Burst(pm, g, e);
  }

  lemma {:induction false} NotOptimalFor(l: Limits)
    requires 0 < l.perMinute && 0 < l.perDay < 1440 * l.perMinute
    ensures !Optimal(l)
  {
    var b := AsBurst(l.perMinute, l.perDay);
    BurstLoses(b, l);
    BurstCompetitor(b);
    WindowRefinement(l, b.Times(), LastOf(b.Times()));
    assert Competitor(l, b.Times(), b.Picks()) && |Select(b.Times(), b.Picks())| > AdmittedCount(l, b.Times());
  }

  /** Exactly which limits make the limiter admit as many requests as can be admitted, on every
      non-decreasing arrival sequence. */
  lemma {:induction false} OptimalIff(l: Limits)
    ensures Optimal(l) <==> l.perMinute <= 0 || l.perDay <= 0 || l.perDay >= 1440 * l.perMinute
  {
    if l.perMinute <= 0 || l.perDay <= 0 || l.perDay >= 1440 * l.perMinute {
      forall times, picks | Competitor(l, times, picks)
        ensures |Select(times, picks)| <= AdmittedCount(l, times)
      {
        OptimalFor(l, times, picks);
      }
    } else {
      NotOptimalFor(l);
    }
  }
}
