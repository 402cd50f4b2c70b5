/**
  The sliding-window limiter of gateway/rate_limit.py: one log of timestamps per
  tenant and per window, pruned at the front and appended at the back.

  Timestamps are reals.  A limit of 0 switches its window off; any other limit,
  including a negative one, is compared with the length of the pruned log.
*/
module RateLimit {
  type Time = real

  const MINUTE: Time := 60.0
  const DAY: Time := 86400.0

  // ----- One window -----

  /** What is left of a log once its leading expired entries are gone. */
  function Prune(values: seq<Time>, cutoff: Time): (kept: seq<Time>)
    ensures |kept| <= |values|
    ensures kept != [] ==> kept[0] > cutoff
  {
    if values != [] && values[0] <= cutoff then Prune(values[1..], cutoff) else values
  }

  datatype WindowResult = WindowResult(values: seq<Time>, allowed: bool)

  function WindowStep(values: seq<Time>, now: Time, window: Time, limit: int): WindowResult {
    var kept := Prune(values, now - window);
    if |kept| >= limit then WindowResult(kept, false) else WindowResult(kept + [now], true)
  }

  /** `_allow_window`: the new contents of the deque, and the verdict. */
  method AllowWindow(values: seq<Time>, now: Time, window: Time, limit: int)
    returns (rest: seq<Time>, allowed: bool)
    ensures WindowResult(rest, allowed) == WindowStep(values, now, window, limit)
    ensures allowed <==> |Prune(values, now - window)| < limit
    ensures |values| <= limit ==> |rest| <= limit
  {
    var cutoff := now - window;
    rest := values;
    while rest != [] && rest[0] <= cutoff
      invariant Prune(rest, cutoff) == Prune(values, cutoff)
    {
      rest := rest[1..];
    }
    assert Prune(rest, cutoff) == rest;
    if |rest| >= limit {
      return rest, false;
    }
    rest := rest + [now];
    allowed := true;
  }

  // ----- One tenant, two windows -----

  datatype Limits = Limits(perMinute: int, perDay: int)

  datatype TenantLogs = TenantLogs(minute: seq<Time>, day: seq<Time>)

  /** Why a request was refused; `allow` itself only reports whether it was admitted. */
  datatype Verdict = Admitted | MinuteRefused | DayRefused

  function OptionalWindow(values: seq<Time>, now: Time, window: Time, limit: int): WindowResult {
    if limit == 0 then WindowResult(values, true) else WindowStep(values, now, window, limit)
  }

  datatype TenantResult = TenantResult(logs: TenantLogs, verdict: Verdict)

  /** The day window is consulted, and its log touched, only after the minute window has
      already recorded the request. */
  function TenantStep(l: Limits, s: TenantLogs, now: Time): TenantResult {
    var m := OptionalWindow(s.minute, now, MINUTE, l.perMinute);
    if !m.allowed then TenantResult(TenantLogs(m.values, s.day), MinuteRefused)
    else
      var d := OptionalWindow(s.day, now, DAY, l.perDay);
      TenantResult(TenantLogs(m.values, d.values), if d.allowed then Admitted else DayRefused)
  }

  datatype TenantTrace = TenantTrace(logs: TenantLogs, verdicts: seq<Verdict>)

  /** One tenant's requests, in order, from empty logs. */
  function TenantRun(l: Limits, times: seq<Time>): (r: TenantTrace)
    ensures |r.verdicts| == |times|
  {
    if times == [] then TenantTrace(TenantLogs([], []), [])
    else
      var n := |times| - 1;
      var before := TenantRun(l, times[..n]);
      var step := TenantStep(l, before.logs, times[n]);
      TenantTrace(step.logs, before.verdicts + [step.verdict])
  }

  // ----- All tenants -----

  datatype Logs = Logs(minute: map<string, seq<Time>>, day: map<string, seq<Time>>)

  const EmptyLogs := Logs(map[], map[])

  /** A `defaultdict(deque)` lookup. */
  function Deque(m: map<string, seq<Time>>, tenant: string): seq<Time> {
    if tenant in m then m[tenant] else []
  }

  function LogsOf(s: Logs, tenant: string): TenantLogs {
    TenantLogs(Deque(s.minute, tenant), Deque(s.day, tenant))
  }

  datatype AllowResult = AllowResult(logs: Logs, verdict: Verdict)

  /** The limiter as a function of its logs: one tenant's logs make the step, the others stay. */
  function AllowStep(l: Limits, s: Logs, tenant: string, now: Time): AllowResult {
    var r := TenantStep(l, LogsOf(s, tenant), now);
    var minute := if l.perMinute == 0 then s.minute else s.minute[tenant := r.logs.minute];
    var day := if r.verdict == MinuteRefused || l.perDay == 0 then s.day else s.day[tenant := r.logs.day];
    AllowResult(Logs(minute, day), r.verdict)
  }

  class TenantRateLimiter {
    const perMinute: int
    const perDay: int
    var minute: map<string, seq<Time>>
    var day: map<string, seq<Time>>

    constructor (perMinute: int, perDay: int)
      ensures Limiter() == Limits(perMinute, perDay) && State() == EmptyLogs
    {
      this.perMinute, this.perDay := perMinute, perDay;
      minute, day := map[], map[];
    }

    function Limiter(): Limits {
      Limits(perMinute, perDay)
    }

    function State(): Logs
      reads this
    {
      Logs(minute, day)
    }

    method Allow(tenant: string, now: Time) returns (allowed: bool)
      modifies this
      ensures State() == AllowStep(Limiter(), old(State()), tenant, now).logs
      ensures allowed <==> AllowStep(Limiter(), old(State()), tenant, now).verdict == Admitted
      ensures forall other :: other != tenant ==> LogsOf(State(), other) == LogsOf(old(State()), other)
    {
      if perMinute != 0 {
        var values, ok := AllowWindow(Deque(minute, tenant), now, MINUTE, perMinute);
        minute := minute[tenant := values];
        if !ok {
          return false;
        }
      }
      if perDay != 0 {
        var values, ok := AllowWindow(Deque(day, tenant), now, DAY, perDay);
        day := day[tenant := values];
        if !ok {
          return false;
        }
      }
      return true;
    }
  }

  datatype Arrival = Arrival(tenant: string, now: Time)

  datatype Trace = Trace(logs: Logs, verdicts: seq<Verdict>)

  /** Every tenant's requests, interleaved, from a fresh limiter. */
  function Run(l: Limits, arrivals: seq<Arrival>): (r: Trace)
    ensures |r.verdicts| == |arrivals|
  {
    if arrivals == [] then Trace(EmptyLogs, [])
    else
      var n := |arrivals| - 1;
      var before := Run(l, arrivals[..n]);
      var step := AllowStep(l, before.logs, arrivals[n].tenant, arrivals[n].now);
      Trace(step.logs, before.verdicts + [step.verdict])
  }
}
