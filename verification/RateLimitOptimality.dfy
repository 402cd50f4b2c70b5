/**
  How much does the limiter admit?  Against every other way of choosing requests that keeps
  each window within its limit, on every non-decreasing arrival sequence.

  With both windows on, a request refused by the day window has already taken a minute slot.
  As long as that has not happened the limiter is ahead of every competitor; RateLimitWaste
  says for exactly which limits it can cost an admission.
*/
module RateLimitOptimality {
  import opened RateLimit
  import opened RateLimitHistory

  // ----- Competitors -----

  /** No stretch of length `window` holds more than `limit` of the log; a limit of 0 is no limit. */
  ghost predicate RespectsWindow(log: seq<Time>, window: Time, limit: int) {
    limit != 0 ==> forall lo: Time :: SpanCount(log, lo, window) <= Positive(limit)
  }

  function SpanCount(log: seq<Time>, lo: Time, window: Time): nat {
    CountIn(log, lo, lo + window)
  }

  /** A choice of requests, made with all of `times` in view, that keeps both windows within their limits. */
  ghost predicate Competitor(l: Limits, times: seq<Time>, picks: seq<bool>) {
    && |times| == |picks|
    && Sorted(times)
    && RespectsWindow(Select(times, picks), MINUTE, l.perMinute)
    && RespectsWindow(Select(times, picks), DAY, l.perDay)
  }

  function AdmittedCount(l: Limits, times: seq<Time>): nat {
    |AdmittedLog(times, TenantRun(l, times).verdicts)|
  }

  /** The limiter never admits fewer than a competitor does. */
  ghost predicate Optimal(l: Limits) {
    forall times, picks :: Competitor(l, times, picks) ==> |Select(times, picks)| <= AdmittedCount(l, times)
  }

  lemma {:induction false} AfterWithin(log: seq<Time>, lo: Time, hi: Time)
    requires Sorted(log) && UpTo(log, hi)
    ensures CountAfter(log, lo) == CountIn(log, lo, hi)
  {
    if log != [] {
      AfterWithin(log[..|log| - 1], lo, log[|log| - 1]);
      CountLater(log[..|log| - 1], lo, log[|log| - 1], hi);
    }
  }

  lemma {:induction false} CountLater(log: seq<Time>, lo: Time, early: Time, late: Time)
    requires Sorted(log) && UpTo(log, early) && early <= late
    ensures CountIn(log, lo, early) == CountIn(log, lo, late)
  {
    if log != [] {
      var n := |log| - 1;
      CountLater(log[..n], lo, log[n], early);
      CountLater(log[..n], lo, log[n], late);
    }
  }

  lemma {:induction false} RespectsInit(times: seq<Time>, picks: seq<bool>, window: Time, limit: int)
    requires |times| == |picks| && times != [] && RespectsWindow(Select(times, picks), window, limit)
    ensures RespectsWindow(Select(times[..|times| - 1], picks[..|times| - 1]), window, limit)
  {
    var n := |times| - 1;
    var log := Select(times[..n], picks[..n]);
    if limit != 0 {
      forall lo: Time
        ensures SpanCount(log, lo, window) <= Positive(limit)
      {
        assert SpanCount(Select(times, picks), lo, window) <= Positive(limit);
      }
    }
  }

  lemma {:induction false} RespectsGuards(times: seq<Time>, picks: seq<bool>, window: Time, limit: int)
    requires |times| == |picks| && Sorted(times) && limit != 0 && window > 0.0
    requires RespectsWindow(Select(times, picks), window, limit)
    ensures Guarded(times, picks, window, limit)
  {
    if times != [] {
      var n := |times| - 1;
      var log, t := Select(times[..n], picks[..n]), times[n];
      RespectsInit(times, picks, window, limit);
      RespectsGuards(times[..n], picks[..n], window, limit);
      if picks[n] {
        SelectSorted(times[..n], picks[..n], t);
        AfterWithin(log, t - window, t);
        assert SpanCount(Select(times, picks), t - window, window) <= Positive(limit);
      }
    }
  }

  // ----- Greedy choice -----

  /** After no prefix has the competitor picked more than the greedy choice. */
  predicate NeverAhead(times: seq<Time>, picks: seq<bool>, greedy: seq<bool>)
    requires |times| == |picks| == |greedy|
  {
    && |Select(times, picks)| <= |Select(times, greedy)|
    && (times != [] ==>
          var n := |times| - 1;
          NeverAhead(times[..n], picks[..n], greedy[..n]))
  }

  lemma {:induction false} NothingAfter(times: seq<Time>, picks: seq<bool>, cutoff: Time)
    requires |times| == |picks| && Sorted(times) && UpTo(times, cutoff)
    ensures CountAfter(Select(times, picks), cutoff) == 0
  {
    if times != [] {
      var n := |times| - 1;
      NothingAfter(times[..n], picks[..n], cutoff);
      CountAfterRecord(Select(times[..n], picks[..n]), times[n], picks[n], cutoff);
    }
  }

  /** The exchange argument: what the competitor had picked before the window opened is no more than what
      the greedy choice had. */
  lemma {:induction false} BeforeWindow(times: seq<Time>, picks: seq<bool>, greedy: seq<bool>, cutoff: Time)
    requires |times| == |picks| == |greedy| && Sorted(times) && NeverAhead(times, picks, greedy)
    ensures |Select(times, picks)| - CountAfter(Select(times, picks), cutoff)
         <= |Select(times, greedy)| - CountAfter(Select(times, greedy), cutoff)
  {
    if UpTo(times, cutoff) {
      NothingAfter(times, picks, cutoff);
      NothingAfter(times, greedy, cutoff);
    } else {
      var n := |times| - 1;
      BeforeWindow(times[..n], picks[..n], greedy[..n], cutoff);
      CountAfterRecord(Select(times[..n], picks[..n]), times[n], picks[n], cutoff);
      CountAfterRecord(Select(times[..n], greedy[..n]), times[n], greedy[n], cutoff);
    }
  }

  predicate NoDayRefusal(v: seq<Verdict>) {
    v == [] || (v[|v| - 1] != DayRefused && NoDayRefusal(v[..|v| - 1]))
  }

  /** Nothing was refused by the day window while the minute window was on. */
  predicate NoSlotWasted(l: Limits, v: seq<Verdict>) {
    l.perMinute != 0 ==> NoDayRefusal(v)
  }

  lemma {:induction false} SameLogs(times: seq<Time>, v: seq<Verdict>)
    requires |times| == |v| && NoDayRefusal(v)
    ensures MinuteLog(times, v) == AdmittedLog(times, v)
  {
    if times != [] {
      SameLogs(times[..|v| - 1], v[..|v| - 1]);
      PicksInit(v);
    }
  }

  /** Where the limiter refuses and the competitor has room, the limiter is strictly ahead. */
  lemma {:induction false} RefusalIsAhead(l: Limits, times: seq<Time>, picks: seq<bool>, v: seq<Verdict>, t: Time)
    requires |times| == |picks| == |v| && Sorted(times)
    requires NoSlotWasted(l, v) && NeverAhead(times, picks, AdmitPicks(v))
    requires l.perMinute != 0 ==> CountAfter(Select(times, picks), t - MINUTE) < l.perMinute
    requires l.perDay != 0 ==> CountAfter(Select(times, picks), t - DAY) < l.perDay
    requires ReferenceVerdict(l, MinuteLog(times, v), AdmittedLog(times, v), t) != Admitted
    ensures |Select(times, picks)| < |AdmittedLog(times, v)|
  {
    if Full(MinuteLog(times, v), t, MINUTE, l.perMinute) {
      SameLogs(times, v);
      BeforeWindow(times, picks, AdmitPicks(v), t - MINUTE);
    } else {
      BeforeWindow(times, picks, AdmitPicks(v), t - DAY);
    }
  }

  predicate Fits(l: Limits, times: seq<Time>, picks: seq<bool>)
    requires |times| == |picks|
  {
    && (l.perMinute != 0 ==> Guarded(times, picks, MINUTE, l.perMinute))
    && (l.perDay != 0 ==> Guarded(times, picks, DAY, l.perDay))
  }

  lemma {:induction false} GreedyStaysAhead(l: Limits, times: seq<Time>, picks: seq<bool>)
    requires |times| == |picks| && Sorted(times) && Fits(l, times, picks)
    requires NoSlotWasted(l, Reference(l, times))
    ensures NeverAhead(times, picks, AdmitPicks(Reference(l, times)))
  {
    if times != [] {
      var n := |times| - 1;
      var v := Reference(l, times);
      ReferenceInit(l, times);
      GreedyStaysAhead(l, times[..n], picks[..n]);
      if picks[n] && v[n] != Admitted {
        RefusalIsAhead(l, times[..n], picks[..n], v[..n], times[n]);
      }
    }
  }

  /** If no slot was wasted, the limiter is ahead of every competitor after every prefix, so its k-th
      admission is never later than the competitor's. */
  lemma {:induction false} AheadAtEveryPrefix(l: Limits, times: seq<Time>, picks: seq<bool>)
    requires Competitor(l, times, picks)
    requires NoSlotWasted(l, TenantRun(l, times).verdicts)
    ensures NeverAhead(times, picks, AdmitPicks(TenantRun(l, times).verdicts))
  {
    WindowRefinement(l, times, LastOf(times));
    if l.perMinute != 0 {
      RespectsGuards(times, picks, MINUTE, l.perMinute);
    }
    if l.perDay != 0 {
      RespectsGuards(times, picks, DAY, l.perDay);
    }
    GreedyStaysAhead(l, times, picks);
  }

  /** With exactly one window on, on any clock, no slot is ever wasted. */
  lemma {:induction false} OneWindowWastesNothing(l: Limits, times: seq<Time>)
    requires l.perMinute == 0 || l.perDay == 0
    ensures NoSlotWasted(l, TenantRun(l, times).verdicts)
  {
    if times != [] {
      var n := |times| - 1;
      OneWindowWastesNothing(l, times[..n]);
      assert TenantRun(l, times).verdicts[..n] == TenantRun(l, times[..n]).verdicts;
    }
  }

  // ----- A day limit the minute limit keeps out of reach -----

  /** A day of a guarded minute log whose last minute is not full holds fewer than 1440 * perMinute. */
  lemma {:induction false} DayNotFull(times: seq<Time>, picks: seq<bool>, pm: int, now: Time)
    requires |times| == |picks| && Sorted(times) && UpTo(times, now) && pm > 0
    requires Guarded(times, picks, MINUTE, pm)
    requires CountAfter(Select(times, picks), now - MINUTE) < pm
    ensures CountAfter(Select(times, picks), now - DAY) < 1440 * pm
  {
    var log := Select(times, picks);
    SelectSorted(times, picks, now);
    AfterWithin(log, now - DAY, now);
    AfterWithin(log, now - MINUTE, now);
    CountSplit(log, now - DAY, now - MINUTE, now);
    LongHorizon(times, picks, pm, now - DAY, 1439);
    assert now - DAY + (1439 as real) * MINUTE == now - MINUTE;
  }

  lemma {:induction false} NotDayRefused(l: Limits, times: seq<Time>, v: seq<Verdict>, now: Time)
    requires 0 < l.perMinute && 1440 * l.perMinute <= l.perDay
    requires |times| == |v| && Sorted(times) && UpTo(times, now)
    requires Guarded(times, MinutePicks(v), MINUTE, l.perMinute)
    ensures ReferenceVerdict(l, MinuteLog(times, v), AdmittedLog(times, v), now) != DayRefused
  {
    if !Full(MinuteLog(times, v), now, MINUTE, l.perMinute) {
      DayNotFull(times, MinutePicks(v), l.perMinute, now);
      AdmittedInMinute(times, v, now - DAY);
    }
  }

  lemma {:induction false} DayNeverRefuses(l: Limits, times: seq<Time>)
    requires 0 < l.perMinute && 1440 * l.perMinute <= l.perDay
    requires Sorted(times)
    ensures NoDayRefusal(Reference(l, times))
  {
    if times != [] {
      var n := |times| - 1;
      DayNeverRefuses(l, times[..n]);
      ReferenceGuardsMinute(l, times[..n]);
      NotDayRefused(l, times[..n], Reference(l, times[..n]), times[n]);
      ReferenceInit(l, times);
    }
  }
}
