/**
  The limiter against a reference that never forgets.

  The reference keeps every recorded timestamp and counts those inside the window on each
  request.  On a non-decreasing clock the pruned logs give the same verdicts, so the bounds
  proved of the reference hold of the limiter.
*/
module RateLimitHistory {
  import opened RateLimit

  // ----- Sub-sequences of a run's timestamps -----

  /** The latest entry, if any, is at most `hi`. */
  predicate UpTo(log: seq<Time>, hi: Time) {
    log == [] || log[|log| - 1] <= hi
  }

  /** Non-decreasing. */
  predicate Sorted(times: seq<Time>) {
    times == [] ||
    var n := |times| - 1;
    Sorted(times[..n]) && UpTo(times[..n], times[n])
  }

  function Record(log: seq<Time>, t: Time, recorded: bool): seq<Time> {
    if recorded then log + [t] else log
  }

  /** The timestamps marked in `picks`, oldest first. */
  function Select(times: seq<Time>, picks: seq<bool>): (r: seq<Time>)
    requires |times| == |picks|
    ensures |r| <= |times|
  {
    if times == [] then []
    else
      var n := |times| - 1;
      Record(Select(times[..n], picks[..n]), times[n], picks[n])
  }

  /** The entries of a log strictly after `cutoff`. */
  function After(log: seq<Time>, cutoff: Time): (r: seq<Time>)
    ensures |r| <= |log|
  {
    if log == [] then []
    else
      var n := |log| - 1;
      Record(After(log[..n], cutoff), log[n], log[n] > cutoff)
  }

  /** How many there are. */
  function CountAfter(log: seq<Time>, cutoff: Time): (r: nat)
    ensures r <= |log|
  {
    if log == [] then 0
    else
      var n := |log| - 1;
      CountAfter(log[..n], cutoff) + (if log[n] > cutoff then 1 else 0)
  }

  /** How many entries of a log lie in the half-open interval (lo, hi]. */
  function CountIn(log: seq<Time>, lo: Time, hi: Time): nat {
    if log == [] then 0
    else
      var n := |log| - 1;
      CountIn(log[..n], lo, hi) + (if lo < log[n] <= hi then 1 else 0)
  }

  function MinutePicks(verdicts: seq<Verdict>): (p: seq<bool>)
    ensures |p| == |verdicts|
  {
    seq(|verdicts|, i requires 0 <= i < |verdicts| => verdicts[i] != MinuteRefused)
  }

  function AdmitPicks(verdicts: seq<Verdict>): (p: seq<bool>)
    ensures |p| == |verdicts|
  {
    seq(|verdicts|, i requires 0 <= i < |verdicts| => verdicts[i] == Admitted)
  }

  // ----- The reference -----

  /** Every request that consumed a minute slot: the admitted ones and those the day window refused. */
  function MinuteLog(times: seq<Time>, verdicts: seq<Verdict>): seq<Time>
    requires |times| == |verdicts|
  {
    Select(times, MinutePicks(verdicts))
  }

  /** Every request that consumed a day slot: exactly the admitted ones. */
  function AdmittedLog(times: seq<Time>, verdicts: seq<Verdict>): seq<Time>
    requires |times| == |verdicts|
  {
    Select(times, AdmitPicks(verdicts))
  }

  predicate Full(log: seq<Time>, now: Time, window: Time, limit: int) {
    limit != 0 && CountAfter(log, now - window) >= limit
  }

  function ReferenceVerdict(l: Limits, minuteLog: seq<Time>, admittedLog: seq<Time>, now: Time): Verdict {
    if Full(minuteLog, now, MINUTE, l.perMinute) then MinuteRefused
    else if Full(admittedLog, now, DAY, l.perDay) then DayRefused
    else Admitted
  }

  function Reference(l: Limits, times: seq<Time>): (v: seq<Verdict>)
    ensures |v| == |times|
  {
    if times == [] then []
    else
      var n := |times| - 1;
      var before := Reference(l, times[..n]);
      before + [ReferenceVerdict(l, MinuteLog(times[..n], before), AdmittedLog(times[..n], before), times[n])]
  }

  // ----- Facts about logs -----

  lemma {:induction false} SelectSnoc(times: seq<Time>, picks: seq<bool>, t: Time, p: bool)
    requires |times| == |picks|
    ensures Select(times + [t], picks + [p]) == Record(Select(times, picks), t, p)
  {
    assert (times + [t])[..|times|] == times && (picks + [p])[..|times|] == picks;
  }

  lemma {:induction false} VerdictSnoc(times: seq<Time>, verdicts: seq<Verdict>, t: Time, v: Verdict)
    requires |times| == |verdicts|
    ensures MinuteLog(times + [t], verdicts + [v])
         == Record(MinuteLog(times, verdicts), t, v != MinuteRefused)
    ensures AdmittedLog(times + [t], verdicts + [v])
         == Record(AdmittedLog(times, verdicts), t, v == Admitted)
  {
    assert MinutePicks(verdicts + [v]) == MinutePicks(verdicts) + [v != MinuteRefused];
    assert AdmitPicks(verdicts + [v]) == AdmitPicks(verdicts) + [v == Admitted];
    SelectSnoc(times, MinutePicks(verdicts), t, v != MinuteRefused);
    SelectSnoc(times, AdmitPicks(verdicts), t, v == Admitted);
  }

  lemma {:induction false} RecordSorted(log: seq<Time>, t: Time, recorded: bool)
    requires Sorted(log) && UpTo(log, t)
    ensures Sorted(Record(log, t, recorded)) && UpTo(Record(log, t, recorded), t)
  {
    assert (log + [t])[..|log|] == log;
  }

  lemma {:induction false} SelectSorted(times: seq<Time>, picks: seq<bool>, hi: Time)
    requires |times| == |picks| && Sorted(times) && UpTo(times, hi)
    ensures Sorted(Select(times, picks)) && UpTo(Select(times, picks), hi)
  {
    if times != [] {
      var n := |times| - 1;
      SelectSorted(times[..n], picks[..n], times[n]);
      RecordSorted(Select(times[..n], picks[..n]), times[n], picks[n]);
    }
  }

  lemma {:induction false} AfterSorted(log: seq<Time>, cutoff: Time, hi: Time)
    requires Sorted(log) && UpTo(log, hi)
    ensures Sorted(After(log, cutoff)) && UpTo(After(log, cutoff), hi)
  {
    if log != [] {
      var n := |log| - 1;
      AfterSorted(log[..n], cutoff, log[n]);
      RecordSorted(After(log[..n], cutoff), log[n], log[n] > cutoff);
    }
  }

  lemma {:induction false} AfterSnoc(log: seq<Time>, t: Time, cutoff: Time)
    ensures After(log + [t], cutoff) == Record(After(log, cutoff), t, t > cutoff)
  {
    assert (log + [t])[..|log|] == log;
  }

  lemma {:induction false} AfterLength(log: seq<Time>, cutoff: Time)
    ensures |After(log, cutoff)| == CountAfter(log, cutoff)
  {
    if log != [] {
      AfterLength(log[..|log| - 1], cutoff);
    }
  }

  lemma {:induction false} CountAfterRecord(log: seq<Time>, t: Time, recorded: bool, cutoff: Time)
    ensures CountAfter(Record(log, t, recorded), cutoff)
         == CountAfter(log, cutoff) + (if recorded && t > cutoff then 1 else 0)
  {
    assert (log + [t])[..|log|] == log;
  }

  /** The same for an entry that may not have been recorded. */
  lemma {:induction false} AfterRecord(log: seq<Time>, t: Time, recorded: bool, cutoff: Time)
    ensures After(Record(log, t, recorded), cutoff) == Record(After(log, cutoff), t, recorded && t > cutoff)
  {
    AfterSnoc(log, t, cutoff);
  }

  /** In a sorted log with an entry after the cutoff, the latest entry is after it too. */
  lemma {:induction false} LatestAfter(log: seq<Time>, cutoff: Time, t: Time)
    requires Sorted(log) && UpTo(log, t) && After(log, cutoff) != []
    ensures t > cutoff
  {
    var n := |log| - 1;
    if log[n] <= cutoff {
      LatestAfter(log[..n], cutoff, log[n]);
    }
  }

  lemma {:induction false} PruneSnoc(log: seq<Time>, t: Time, cutoff: Time)
    ensures Prune(log + [t], cutoff)
         == if Prune(log, cutoff) == [] && t <= cutoff then [] else Prune(log, cutoff) + [t]
  {
    if log == [] {
      assert log + [t] == [t] && [t][1..] == [];
    } else {
      assert (log + [t])[1..] == log[1..] + [t];
      if log[0] <= cutoff {
        PruneSnoc(log[1..], t, cutoff);
      }
    }
  }

  /** On a sorted log, dropping the expired prefix is the same as filtering. */
  lemma {:induction false} PruneIsAfter(log: seq<Time>, cutoff: Time)
    requires Sorted(log)
    ensures Prune(log, cutoff) == After(log, cutoff)
  {
    if log != [] {
      var n := |log| - 1;
      PruneIsAfter(log[..n], cutoff);
      PruneSnoc(log[..n], log[n], cutoff);
      assert log == log[..n] + [log[n]];
      if After(log[..n], cutoff) != [] {
        LatestAfter(log[..n], cutoff, log[n]);
      }
    }
  }

  lemma {:induction false} AfterAfter(log: seq<Time>, early: Time, late: Time)
    requires early <= late
    ensures After(After(log, early), late) == After(log, late)
  {
    if log != [] {
      var n := |log| - 1;
      AfterAfter(log[..n], early, late);
      AfterRecord(After(log[..n], early), log[n], log[n] > early, late);
    }
  }

  // ----- Refinement -----

  /** From time `last` on, the deque and the full log agree on every window that can still be asked for. */
  ghost predicate Tracks(deque: seq<Time>, log: seq<Time>, last: Time, window: Time) {
    forall now :: last <= now ==> Agree(deque, log, now, window)
  }

  predicate Agree(deque: seq<Time>, log: seq<Time>, now: Time, window: Time) {
    Prune(deque, now - window) == After(log, now - window)
  }

  /** A pruned log, with or without one more entry, pruned again later, is the whole log filtered later. */
  lemma {:induction false} PruneAgain(log: seq<Time>, t: Time, recorded: bool, early: Time, late: Time)
    requires Sorted(log) && UpTo(log, t) && early <= late
    ensures Prune(Record(After(log, early), t, recorded), late) == After(Record(log, t, recorded), late)
  {
    var kept := Record(After(log, early), t, recorded);
    assert Sorted(kept) by {
      AfterSorted(log, early, t);
      RecordSorted(After(log, early), t, recorded);
    }
    calc {
      Prune(kept, late);
      { PruneIsAfter(kept, late); }
      After(kept, late);
      { AfterRecord(After(log, early), t, recorded, late); }
      Record(After(After(log, early), late), t, recorded && t > late);
      { AfterAfter(log, early, late); }
      Record(After(log, late), t, recorded && t > late);
      { AfterRecord(log, t, recorded, late); }
      After(Record(log, t, recorded), late);
    }
  }

  lemma {:induction false} RecordTracks(log: seq<Time>, now: Time, recorded: bool, window: Time)
    requires Sorted(log) && UpTo(log, now)
    ensures Tracks(Record(After(log, now - window), now, recorded), Record(log, now, recorded), now, window)
  {
    var deque, log' := Record(After(log, now - window), now, recorded), Record(log, now, recorded);
    forall later: Time | now <= later
      ensures Agree(deque, log', later, window)
    {
      PruneAgain(log, now, recorded, now - window, later - window);
    }
  }

  /** One consulted window: it refuses exactly when the full log is full, and goes on tracking it. */
  lemma {:induction false} WindowTracks(deque: seq<Time>, log: seq<Time>, now: Time, window: Time, limit: int)
    requires limit != 0 && Sorted(log) && UpTo(log, now) && Tracks(deque, log, now, window)
    ensures WindowStep(deque, now, window, limit).allowed == !Full(log, now, window, limit)
    ensures Tracks(WindowStep(deque, now, window, limit).values,
                   Record(log, now, !Full(log, now, window, limit)), now, window)
  {
    var r := WindowStep(deque, now, window, limit);
    assert Agree(deque, log, now, window);
    AfterLength(log, now - window);
    assert r.values == Record(After(log, now - window), now, r.allowed);
    RecordTracks(log, now, r.allowed, window);
  }

  /** The state of a run that has tracked its logs so far. */
  ghost predicate TracksLogs(l: Limits, logs: TenantLogs, minuteLog: seq<Time>, admittedLog: seq<Time>, last: Time) {
    && (l.perMinute != 0 ==> Tracks(logs.minute, minuteLog, last, MINUTE))
    && (l.perDay != 0 ==> Tracks(logs.day, admittedLog, last, DAY))
  }

  /** One request: the pruned logs give the reference's verdict and go on tracking. */
  lemma {:induction false} StepTracks(l: Limits, s: TenantLogs, minuteLog: seq<Time>, admittedLog: seq<Time>, now: Time)
    requires Sorted(minuteLog) && UpTo(minuteLog, now) && Sorted(admittedLog) && UpTo(admittedLog, now)
    requires TracksLogs(l, s, minuteLog, admittedLog, now)
    ensures var r := TenantStep(l, s, now);
            && r.verdict == ReferenceVerdict(l, minuteLog, admittedLog, now)
            && TracksLogs(l, r.logs, Record(minuteLog, now, r.verdict != MinuteRefused),
                          Record(admittedLog, now, r.verdict == Admitted), now)
  {
    if l.perMinute != 0 {
      WindowTracks(s.minute, minuteLog, now, MINUTE, l.perMinute);
    }
    if l.perDay != 0 {
      WindowTracks(s.day, admittedLog, now, DAY, l.perDay);
    }
  }

  lemma TracksLater(l: Limits, logs: TenantLogs, minuteLog: seq<Time>, admittedLog: seq<Time>, last: Time, later: Time)
    requires TracksLogs(l, logs, minuteLog, admittedLog, last) && last <= later
    ensures TracksLogs(l, logs, minuteLog, admittedLog, later)
  {
  }

  /** The full refinement, over every non-decreasing run of one tenant: the verdicts are the reference's, so
      `allow` refuses exactly when the history inside a window has reached its limit; and each deque, once
      pruned, is the recorded history inside the window. */
  lemma {:induction false} WindowRefinement(l: Limits, times: seq<Time>, last: Time)
    requires Sorted(times) && UpTo(times, last)
    ensures TenantRun(l, times).verdicts == Reference(l, times)
    ensures TracksLogs(l, TenantRun(l, times).logs, MinuteLog(times, Reference(l, times)),
                       AdmittedLog(times, Reference(l, times)), last)
  {
    if times != [] {
      var n := |times| - 1;
      var ts, now := times[..n], times[n];
      WindowRefinement(l, ts, now);
      var v := Reference(l, ts);
      SelectSorted(ts, MinutePicks(v), now);
      SelectSorted(ts, AdmitPicks(v), now);
      StepTracks(l, TenantRun(l, ts).logs, MinuteLog(ts, v), AdmittedLog(ts, v), now);
      var verdict := ReferenceVerdict(l, MinuteLog(ts, v), AdmittedLog(ts, v), now);
      VerdictSnoc(ts, v, now, verdict);
      assert times == ts + [now];
      TracksLater(l, TenantRun(l, times).logs, MinuteLog(times, Reference(l, times)),
                  AdmittedLog(times, Reference(l, times)), now, last);
    }
  }

  predicate SuffixOf(s: seq<Time>, log: seq<Time>) {
    |s| <= |log| && forall k :: 0 <= k < |s| ==> s[k] == log[|log| - |s| + k]
  }

  lemma {:induction false} PruneSuffix(values: seq<Time>, cutoff: Time, log: seq<Time>)
    requires SuffixOf(values, log)
    ensures SuffixOf(Prune(values, cutoff), log)
  {
    if values != [] && values[0] <= cutoff {
      PruneSuffix(values[1..], cutoff, log);
    }
  }

  lemma {:induction false} SuffixSnoc(s: seq<Time>, log: seq<Time>, now: Time)
    requires SuffixOf(s, log)
    ensures SuffixOf(s + [now], log + [now])
  {
  }

  lemma {:induction false} StepSuffix(deque: seq<Time>, log: seq<Time>, now: Time, window: Time, limit: int)
    requires SuffixOf(deque, log)
    ensures var r := WindowStep(deque, now, window, limit);
            SuffixOf(r.values, Record(log, now, r.allowed))
  {
    PruneSuffix(deque, now - window, log);
    SuffixSnoc(Prune(deque, now - window), log, now);
  }

  ghost predicate SuffixLogs(l: Limits, logs: TenantLogs, minuteLog: seq<Time>, admittedLog: seq<Time>) {
    && SuffixOf(logs.minute, minuteLog)
    && SuffixOf(logs.day, admittedLog)
    && (l.perMinute == 0 ==> logs.minute == [])
    && (l.perDay == 0 ==> logs.day == [])
    && (l.perMinute > 0 ==> |logs.minute| <= l.perMinute)
    && (l.perDay > 0 ==> |logs.day| <= l.perDay)
  }

  lemma {:induction false} StepKeepsSuffix(l: Limits, s: TenantLogs, minuteLog: seq<Time>, admittedLog: seq<Time>,
                                           now: Time)
    requires SuffixLogs(l, s, minuteLog, admittedLog)
    ensures var r := TenantStep(l, s, now);
            SuffixLogs(l, r.logs, Record(minuteLog, now, r.verdict != MinuteRefused),
                       Record(admittedLog, now, r.verdict == Admitted))
  {
    if l.perMinute != 0 {
      StepSuffix(s.minute, minuteLog, now, MINUTE, l.perMinute);
    }
    if l.perDay != 0 {
      StepSuffix(s.day, admittedLog, now, DAY, l.perDay);
    }
  }

  /** Whatever the clock does, a deque is a suffix of what was recorded, no longer than its limit. */
  lemma {:induction false} AnyClock(l: Limits, times: seq<Time>)
    ensures var r := TenantRun(l, times);
            SuffixLogs(l, r.logs, MinuteLog(times, r.verdicts), AdmittedLog(times, r.verdicts))
  {
    if times != [] {
      var n := |times| - 1;
      var before := TenantRun(l, times[..n]);
      AnyClock(l, times[..n]);
      StepKeepsSuffix(l, before.logs, MinuteLog(times[..n], before.verdicts),
                      AdmittedLog(times[..n], before.verdicts), times[n]);
      VerdictSnoc(times[..n], before.verdicts, times[n], TenantStep(l, before.logs, times[n]).verdict);
      assert times == times[..n] + [times[n]];
    }
  }

  // ----- Bounds -----

  /** Each recorded request found its window not yet full. */
  predicate Guarded(times: seq<Time>, picks: seq<bool>, window: Time, limit: int)
    requires |times| == |picks|
  {
    times == [] ||
    var n := |times| - 1;
    && Guarded(times[..n], picks[..n], window, limit)
    && (picks[n] ==> CountAfter(Select(times[..n], picks[..n]), times[n] - window) < limit)
  }

  lemma {:induction false} CountInAfter(log: seq<Time>, lo: Time, hi: Time, cutoff: Time)
    requires cutoff <= lo
    ensures CountIn(log, lo, hi) <= CountAfter(log, cutoff)
  {
    if log != [] {
      CountInAfter(log[..|log| - 1], lo, hi, cutoff);
    }
  }

  function Positive(x: int): nat {
    if x > 0 then x else 0
  }

  lemma {:induction false} CountRecord(log: seq<Time>, t: Time, recorded: bool, lo: Time, hi: Time)
    ensures CountIn(Record(log, t, recorded), lo, hi)
         == CountIn(log, lo, hi) + (if recorded && lo < t <= hi then 1 else 0)
  {
    assert (log + [t])[..|log|] == log;
  }

  /** No window, wherever it is placed, holds more than the limit. */
  lemma {:induction false} WindowBound(times: seq<Time>, picks: seq<bool>, window: Time, limit: int, lo: Time, hi: Time)
    requires |times| == |picks| && Guarded(times, picks, window, limit)
    requires hi <= lo + window
    ensures CountIn(Select(times, picks), lo, hi) <= Positive(limit)
  {
    if times != [] {
      var n := |times| - 1;
      var log := Select(times[..n], picks[..n]);
      WindowBound(times[..n], picks[..n], window, limit, lo, hi);
      CountRecord(log, times[n], picks[n], lo, hi);
      if picks[n] && times[n] <= hi {
        CountInAfter(log, lo, hi, times[n] - window);
      }
    }
  }

  lemma {:induction false} CountSplit(log: seq<Time>, lo: Time, mid: Time, hi: Time)
    requires lo <= mid <= hi
    ensures CountIn(log, lo, hi) == CountIn(log, lo, mid) + CountIn(log, mid, hi)
  {
    if log != [] {
      CountSplit(log[..|log| - 1], lo, mid, hi);
    }
  }

  lemma {:induction false} CountEmpty(log: seq<Time>, lo: Time)
    ensures CountIn(log, lo, lo) == 0
  {
    if log != [] {
      CountEmpty(log[..|log| - 1], lo);
    }
  }

  /** Any stretch of k minutes, wherever it starts, holds at most k times the minute limit. */
  predicate MinuteBound(log: seq<Time>, lo: Time, k: nat, limit: int) {
    CountIn(log, lo, lo + (k as real) * MINUTE) <= k * Positive(limit)
  }

  lemma {:induction false} LongHorizon(times: seq<Time>, picks: seq<bool>, limit: int, lo: Time, k: nat)
    requires |times| == |picks| && Guarded(times, picks, MINUTE, limit)
    ensures MinuteBound(Select(times, picks), lo, k, limit)
  {
    var log := Select(times, picks);
    if k == 0 {
      CountEmpty(log, lo);
    } else {
      var mid, hi := lo + ((k - 1) as real) * MINUTE, lo + (k as real) * MINUTE;
      LongHorizon(times, picks, limit, lo, k - 1);
      WindowBound(times, picks, MINUTE, limit, mid, hi);
      CountSplit(log, lo, mid, hi);
      assert k * Positive(limit) == (k - 1) * Positive(limit) + Positive(limit);
    }
  }

  lemma {:induction false} AdmittedInMinute(times: seq<Time>, v: seq<Verdict>, cutoff: Time)
    requires |times| == |v|
    ensures CountAfter(AdmittedLog(times, v), cutoff) <= CountAfter(MinuteLog(times, v), cutoff)
  {
    if times != [] {
      var n := |times| - 1;
      AdmittedInMinute(times[..n], v[..n], cutoff);
      VerdictSnoc(times[..n], v[..n], times[n], v[n]);
      assert times == times[..n] + [times[n]] && v == v[..n] + [v[n]];
      CountAfterRecord(AdmittedLog(times[..n], v[..n]), times[n], v[n] == Admitted, cutoff);
      CountAfterRecord(MinuteLog(times[..n], v[..n]), times[n], v[n] != MinuteRefused, cutoff);
    }
  }

  lemma {:induction false} PicksInit(v: seq<Verdict>)
    requires v != []
    ensures MinutePicks(v)[..|v| - 1] == MinutePicks(v[..|v| - 1])
    ensures AdmitPicks(v)[..|v| - 1] == AdmitPicks(v[..|v| - 1])
  {
  }

  lemma {:induction false} ReferenceInit(l: Limits, times: seq<Time>)
    requires times != []
    ensures var n, v := |times| - 1, Reference(l, times);
            && v[..n] == Reference(l, times[..n])
            && MinutePicks(v)[..n] == MinutePicks(v[..n])
            && AdmitPicks(v)[..n] == AdmitPicks(v[..n])
            && v[n] == ReferenceVerdict(l, MinuteLog(times[..n], v[..n]), AdmittedLog(times[..n], v[..n]), times[n])
  {
    PicksInit(Reference(l, times));
    assert Reference(l, times)[..|times| - 1] == Reference(l, times[..|times| - 1]);
  }

  /** The verdicts of the reference are what makes its logs guarded. */
  lemma {:induction false} ReferenceGuardsMinute(l: Limits, times: seq<Time>)
    requires l.perMinute != 0
    ensures Guarded(times, MinutePicks(Reference(l, times)), MINUTE, l.perMinute)
    ensures Guarded(times, AdmitPicks(Reference(l, times)), MINUTE, l.perMinute)
  {
    if times != [] {
      var n := |times| - 1;
      ReferenceGuardsMinute(l, times[..n]);
      ReferenceInit(l, times);
      AdmittedInMinute(times[..n], Reference(l, times)[..n], times[n] - MINUTE);
    }
  }

  lemma {:induction false} ReferenceGuardsDay(l: Limits, times: seq<Time>)
    requires l.perDay != 0
    ensures Guarded(times, AdmitPicks(Reference(l, times)), DAY, l.perDay)
  {
    if times != [] {
      ReferenceGuardsDay(l, times[..|times| - 1]);
      ReferenceInit(l, times);
    }
  }

  predicate DayBound(log: seq<Time>, lo: Time, cap: nat) {
    CountIn(log, lo, lo + DAY) <= cap
  }

  /** What the configured limits promise of a log of admissions: k * perMinute in any k minutes, and in
      any day the smaller of perDay and 1440 * perMinute. */
  ghost predicate WithinQuota(l: Limits, admitted: seq<Time>) {
    && (l.perMinute != 0 ==> forall lo: Time, k: nat :: MinuteBound(admitted, lo, k, l.perMinute))
    && (l.perMinute != 0 ==> forall lo: Time :: DayBound(admitted, lo, 1440 * Positive(l.perMinute)))
    && (l.perDay != 0 ==> forall lo: Time :: DayBound(admitted, lo, Positive(l.perDay)))
  }

  lemma {:induction false} GuardedQuota(l: Limits, times: seq<Time>, picks: seq<bool>)
    requires |times| == |picks|
    requires l.perMinute != 0 ==> Guarded(times, picks, MINUTE, l.perMinute)
    requires l.perDay != 0 ==> Guarded(times, picks, DAY, l.perDay)
    ensures WithinQuota(l, Select(times, picks))
  {
    var log := Select(times, picks);
    if l.perMinute != 0 {
      forall lo: Time, k: nat
        ensures MinuteBound(log, lo, k, l.perMinute)
      {
        LongHorizon(times, picks, l.perMinute, lo, k);
      }
      forall lo: Time
        ensures DayBound(log, lo, 1440 * Positive(l.perMinute))
      {
        assert MinuteBound(log, lo, 1440, l.perMinute);
      }
    }
    if l.perDay != 0 {
      forall lo: Time
        ensures DayBound(log, lo, Positive(l.perDay))
      {
        WindowBound(times, picks, DAY, l.perDay, lo, lo + DAY);
      }
    }
  }

  function LastOf(times: seq<Time>): Time {
    if times == [] then 0.0 else times[|times| - 1]
  }

  lemma {:induction false} TenantQuota(l: Limits, times: seq<Time>)
    requires Sorted(times)
    ensures WithinQuota(l, AdmittedLog(times, TenantRun(l, times).verdicts))
  {
    WindowRefinement(l, times, LastOf(times));
    if l.perMinute != 0 {
      ReferenceGuardsMinute(l, times);
    }
    if l.perDay != 0 {
      ReferenceGuardsDay(l, times);
    }
    GuardedQuota(l, times, AdmitPicks(Reference(l, times)));
  }

  // ----- Many tenants -----

  function TimesOf(arrivals: seq<Arrival>, tenant: string): seq<Time> {
    if arrivals == [] then []
    else
      var n := |arrivals| - 1;
      Record(TimesOf(arrivals[..n], tenant), arrivals[n].now, arrivals[n].tenant == tenant)
  }

  function VerdictsOf(arrivals: seq<Arrival>, verdicts: seq<Verdict>, tenant: string): seq<Verdict>
    requires |arrivals| == |verdicts|
  {
    if arrivals == [] then []
    else
      var n := |arrivals| - 1;
      VerdictsOf(arrivals[..n], verdicts[..n], tenant) + (if arrivals[n].tenant == tenant then [verdicts[n]] else [])
  }

  function Restrict(arrivals: seq<Arrival>, tenant: string): seq<Arrival> {
    if arrivals == [] then []
    else
      var n := |arrivals| - 1;
      Restrict(arrivals[..n], tenant) + (if arrivals[n].tenant == tenant then [arrivals[n]] else [])
  }

  /** Seen from one tenant, an interleaved run is that tenant's own run. */
  lemma {:induction false} Projection(l: Limits, arrivals: seq<Arrival>, tenant: string)
    ensures var r := Run(l, arrivals);
            var own := TenantRun(l, TimesOf(arrivals, tenant));
            && VerdictsOf(arrivals, r.verdicts, tenant) == own.verdicts
            && LogsOf(r.logs, tenant) == own.logs
            && (l.perMinute == 0 ==> own.logs.minute == [])
            && (l.perDay == 0 ==> own.logs.day == [])
  {
    if arrivals != [] {
      var n := |arrivals| - 1;
      Projection(l, arrivals[..n], tenant);
      var before := Run(l, arrivals[..n]);
      if arrivals[n].tenant == tenant {
        var ts := TimesOf(arrivals[..n], tenant);
        assert (ts + [arrivals[n].now])[..|ts|] == ts;
        StepLogs(l, before.logs, tenant, arrivals[n].now);
      }
    }
  }

  lemma {:induction false} StepLogs(l: Limits, s: Logs, tenant: string, now: Time)
    requires l.perMinute == 0 ==> Deque(s.minute, tenant) == []
    requires l.perDay == 0 ==> Deque(s.day, tenant) == []
    ensures LogsOf(AllowStep(l, s, tenant, now).logs, tenant) == TenantStep(l, LogsOf(s, tenant), now).logs
  {
    assert TenantStep(l, LogsOf(s, tenant), now).logs.minute
        == OptionalWindow(Deque(s.minute, tenant), now, MINUTE, l.perMinute).values;
  }

  lemma {:induction false} RestrictTimes(arrivals: seq<Arrival>, tenant: string)
    ensures TimesOf(Restrict(arrivals, tenant), tenant) == TimesOf(arrivals, tenant)
    ensures forall a :: a in Restrict(arrivals, tenant) ==> a.tenant == tenant
  {
    if arrivals != [] {
      var n := |arrivals| - 1;
      RestrictTimes(arrivals[..n], tenant);
      var r := Restrict(arrivals[..n], tenant);
      assert (r + [arrivals[n]])[..|r|] == r;
      assert r + [] == r;
    }
  }

  lemma {:induction false} VerdictsOfAll(arrivals: seq<Arrival>, verdicts: seq<Verdict>, tenant: string)
    requires |arrivals| == |verdicts|
    requires forall a :: a in arrivals ==> a.tenant == tenant
    ensures VerdictsOf(arrivals, verdicts, tenant) == verdicts
  {
    if arrivals != [] {
      var n := |arrivals| - 1;
      VerdictsOfAll(arrivals[..n], verdicts[..n], tenant);
      assert arrivals[n] in arrivals;
    }
  }

  /** The other tenants' traffic changes none of a tenant's verdicts, on any clock. */
  lemma {:induction false} NonInterference(l: Limits, arrivals: seq<Arrival>, tenant: string)
    ensures VerdictsOf(arrivals, Run(l, arrivals).verdicts, tenant) == Run(l, Restrict(arrivals, tenant)).verdicts
    ensures LogsOf(Run(l, arrivals).logs, tenant) == LogsOf(Run(l, Restrict(arrivals, tenant)).logs, tenant)
  {
    var own := Restrict(arrivals, tenant);
    Projection(l, arrivals, tenant);
    Projection(l, own, tenant);
    RestrictTimes(arrivals, tenant);
    VerdictsOfAll(own, Run(l, own).verdicts, tenant);
  }

  predicate ClockNonDecreasing(arrivals: seq<Arrival>) {
    forall i, j :: 0 <= i < j < |arrivals| ==> arrivals[i].now <= arrivals[j].now
  }

  lemma {:induction false} TimesSorted(arrivals: seq<Arrival>, tenant: string, hi: Time)
    requires ClockNonDecreasing(arrivals)
    requires arrivals != [] ==> arrivals[|arrivals| - 1].now <= hi
    ensures Sorted(TimesOf(arrivals, tenant)) && UpTo(TimesOf(arrivals, tenant), hi)
  {
    if arrivals != [] {
      var n := |arrivals| - 1;
      TimesSorted(arrivals[..n], tenant, arrivals[n].now);
      RecordSorted(TimesOf(arrivals[..n], tenant), arrivals[n].now, arrivals[n].tenant == tenant);
    }
  }

  /** When those of a tenant's requests arrived that were admitted. */
  function AdmittedOf(arrivals: seq<Arrival>, verdicts: seq<Verdict>, tenant: string): seq<Time>
    requires |arrivals| == |verdicts|
  {
    if arrivals == [] then []
    else
      var n := |arrivals| - 1;
      Record(AdmittedOf(arrivals[..n], verdicts[..n], tenant), arrivals[n].now,
             arrivals[n].tenant == tenant && verdicts[n] == Admitted)
  }

  /** The times at which a tenant was admitted in an interleaved run. */
  function AdmittedTimes(l: Limits, arrivals: seq<Arrival>, tenant: string): seq<Time> {
    AdmittedOf(arrivals, Run(l, arrivals).verdicts, tenant)
  }

  lemma {:induction false} AdmittedOfOwn(arrivals: seq<Arrival>, verdicts: seq<Verdict>, tenant: string)
    requires |arrivals| == |verdicts|
    ensures |TimesOf(arrivals, tenant)| == |VerdictsOf(arrivals, verdicts, tenant)|
    ensures AdmittedOf(arrivals, verdicts, tenant)
         == AdmittedLog(TimesOf(arrivals, tenant), VerdictsOf(arrivals, verdicts, tenant))
  {
    if arrivals != [] {
      var n := |arrivals| - 1;
      AdmittedOfOwn(arrivals[..n], verdicts[..n], tenant);
      var own := VerdictsOf(arrivals[..n], verdicts[..n], tenant);
      if arrivals[n].tenant == tenant {
        VerdictSnoc(TimesOf(arrivals[..n], tenant), own, arrivals[n].now, verdicts[n]);
      } else {
        assert own + [] == own;
      }
    }
  }

  /** Every tenant of every interleaved run on a non-decreasing clock stays within the quota: at most
      k * perMinute admissions in k minutes, and at most min(perDay, 1440 * perMinute) in a day. */
  lemma {:induction false} EveryTenantQuota(l: Limits, arrivals: seq<Arrival>, tenant: string)
    requires ClockNonDecreasing(arrivals)
    ensures WithinQuota(l, AdmittedTimes(l, arrivals, tenant))
  {
    TimesSorted(arrivals, tenant, if arrivals == [] then 0.0 else arrivals[|arrivals| - 1].now);
    TenantQuota(l, TimesOf(arrivals, tenant));
    Projection(l, arrivals, tenant);
    AdmittedOfOwn(arrivals, Run(l, arrivals).verdicts, tenant);
  }
}
