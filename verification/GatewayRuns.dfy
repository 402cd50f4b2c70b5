/**
  Whole runs of the gateway, requests one after another from a fresh start: the limiter's quota
  reaches all the way to the backends, and the counters lose nothing.
*/
module GatewayRuns {
  import opened Wrappers
  import opened PolicyTheorems
  import opened Server
  import opened ServerTheorems
  import opened RateLimitHistory
  import Config
  import RateLimit
  import Metrics

  datatype Job = Job(request: Request, world: Surroundings)

  datatype Run = Run(state: Shared, served: seq<Served>)

  function RunGateway(g: Settings, start: Shared, jobs: seq<Job>): Run
    requires g.policy.routes != []
  {
    if jobs == [] then Run(start, [])
    else
      var n := |jobs| - 1;
      var before := RunGateway(g, start, jobs[..n]);
      var next := Serve(g, before.state, jobs[n].request, jobs[n].world);
      Run(next.state, before.served + [next])
  }

  // ----- The limiter's view of a run -----

  /** The limiter calls of a run. */
  function Arrivals(served: seq<Served>): seq<RateLimit.Arrival> {
    if served == [] then []
    else
      var n := |served| - 1;
      match served[n].limited
      case None => Arrivals(served[..n])
      case Some(a) => Arrivals(served[..n]) + [a]
  }

  /** When requests of a tenant were forwarded, by the limiter's clock. */
  function ForwardTimes(served: seq<Served>, tenant: string): seq<RateLimit.Time> {
    if served == [] then []
    else
      var n := |served| - 1;
      match served[n].forwarded
      case None => ForwardTimes(served[..n], tenant)
      case Some(f) => Record(ForwardTimes(served[..n], tenant), f.at, f.principal.tenant == tenant)
  }

  lemma {:induction false} RunSnoc(l: RateLimit.Limits, arrivals: seq<RateLimit.Arrival>, a: RateLimit.Arrival)
    ensures var before := RateLimit.Run(l, arrivals);
            RateLimit.Run(l, arrivals + [a]).logs == RateLimit.AllowStep(l, before.logs, a.tenant, a.now).logs
  {
    assert (arrivals + [a])[..|arrivals|] == arrivals;
  }

  /** One more request: what the limiter does and what is forwarded. */
  lemma {:induction false} ServedLimited(g: Settings, s: Shared, q: Request, w: Surroundings)
    requires g.policy.routes != []
    ensures var r := Serve(g, s, q, w);
            match r.limited
            case None => r.state.logs == s.logs && r.forwarded == None
            case Some(a) =>
              && r.state.logs == RateLimit.AllowStep(g.rateLimits, s.logs, a.tenant, a.now).logs
              && (r.forwarded.Some? ==>
                    && r.forwarded.value.principal.tenant == a.tenant && r.forwarded.value.at == a.now
                    && RateLimit.AllowStep(g.rateLimits, s.logs, a.tenant, a.now).verdict == RateLimit.Admitted)
  {
    LimiterUse(g, s, q, w);
    TryStages(g, s, q, w);
    if r, p, d :| Decided(g, s, q, w, r, p, d) && Try(g, s, q, w).1 == Admit(g, s.logs, q, w, r, p, d) {
      AdmissionLimited(g, s.logs, q, w, r, p, d);
      if Serve(g, s, q, w).forwarded.Some? {
        AdmissionExact(g, s.logs, q, w, r, p, d, Serve(g, s, q, w).forwarded.value);
      }
    }
  }

  /** The logs after a run are those of a limiter that saw only its calls. */
  lemma {:induction false} LogsAreTheLimiters(g: Settings, start: Shared, jobs: seq<Job>)
    requires g.policy.routes != [] && start.logs == RateLimit.EmptyLogs
    ensures var r := RunGateway(g, start, jobs);
            r.state.logs == RateLimit.Run(g.rateLimits, Arrivals(r.served)).logs
  {
    if jobs != [] {
      var n := |jobs| - 1;
      var before := RunGateway(g, start, jobs[..n]);
      var next := Serve(g, before.state, jobs[n].request, jobs[n].world);
      LogsAreTheLimiters(g, start, jobs[..n]);
      ServedLimited(g, before.state, jobs[n].request, jobs[n].world);
      assert (before.served + [next])[..|before.served|] == before.served;
      if next.limited.Some? {
        RunSnoc(g.rateLimits, Arrivals(before.served), next.limited.value);
      }
    }
  }

  /** In any interval, a tenant has no more requests forwarded than admitted. */
  lemma {:induction false} ForwardedAreAdmitted(g: Settings, start: Shared, jobs: seq<Job>, tenant: string,
                                                lo: RateLimit.Time, hi: RateLimit.Time)
    requires g.policy.routes != [] && start.logs == RateLimit.EmptyLogs
    ensures var served := RunGateway(g, start, jobs).served;
            CountIn(ForwardTimes(served, tenant), lo, hi)
              <= CountIn(AdmittedTimes(g.rateLimits, Arrivals(served), tenant), lo, hi)
  {
    if jobs != [] {
      var n := |jobs| - 1;
      var before := RunGateway(g, start, jobs[..n]);
      ForwardedAreAdmitted(g, start, jobs[..n], tenant, lo, hi);
      LogsAreTheLimiters(g, start, jobs[..n]);
      ServedLimited(g, before.state, jobs[n].request, jobs[n].world);
    }
  }

  lemma {:induction false} FewerWithinQuota(l: RateLimit.Limits, some: seq<RateLimit.Time>, all: seq<RateLimit.Time>)
    requires WithinQuota(l, all)
    requires forall lo, hi :: CountIn(some, lo, hi) <= CountIn(all, lo, hi)
    ensures WithinQuota(l, some)
  {
    if l.perMinute != 0 {
      forall lo: RateLimit.Time, k: nat
        ensures MinuteBound(some, lo, k, l.perMinute)
      {
        assert MinuteBound(all, lo, k, l.perMinute);
      }
      forall lo: RateLimit.Time
        ensures DayBound(some, lo, 1440 * Positive(l.perMinute))
      {
        assert DayBound(all, lo, 1440 * Positive(l.perMinute));
      }
    }
    if l.perDay != 0 {
      forall lo: RateLimit.Time
        ensures DayBound(some, lo, Positive(l.perDay))
      {
        assert DayBound(all, lo, Positive(l.perDay));
      }
    }
  }

  /** End to end: whatever clients, keys, policies and backends do, if the limiter's clock never goes back then no
      tenant has more than k * perMinute requests forwarded in any k minutes, nor more than perDay or 1440 * perMinute
      in any day. */
  lemma {:induction false} ForwardQuota(g: Settings, start: Shared, jobs: seq<Job>, tenant: string)
    requires g.policy.routes != [] && start.logs == RateLimit.EmptyLogs
    requires ClockNonDecreasing(Arrivals(RunGateway(g, start, jobs).served))
    ensures WithinQuota(g.rateLimits, ForwardTimes(RunGateway(g, start, jobs).served, tenant))
  {
    var served := RunGateway(g, start, jobs).served;
    EveryTenantQuota(g.rateLimits, Arrivals(served), tenant);
    forall lo, hi
      ensures CountIn(ForwardTimes(served, tenant), lo, hi)
           <= CountIn(AdmittedTimes(g.rateLimits, Arrivals(served), tenant), lo, hi)
    {
      ForwardedAreAdmitted(g, start, jobs, tenant, lo, hi);
    }
    FewerWithinQuota(g.rateLimits, ForwardTimes(served, tenant), AdmittedTimes(g.rateLimits, Arrivals(served), tenant));
  }

  // ----- What a run forwards -----

  /** A forwarding by request q in state s that everything along the way allows. */
  ghost predicate Allowed(g: Settings, s: Shared, q: Request, w: Surroundings, f: Forward)
    requires g.policy.routes != []
  {
    && Credentialed(g, CacheAfter(g, s.cache, q, w), q, w, f.principal)
    && (exists r ::
          && Cleared(g, s, q, w, r, f.principal, f.decision) && Sendable(g, s.logs, w, r, f)
          && Lawful(g, q, r, f.principal.tenant, f.decision))
    && (f.decision.privacyClass in {"sensitive", "restricted"} ==> f.decision.route.local)
  }

  lemma {:induction false} ForwardAllowed(g: Settings, auth: Config.AuthBindings, s: Shared, q: Request,
                                          w: Surroundings, f: Forward)
    requires Started(g.policy, auth) && g.policy.policy.enabled
    requires Serve(g, s, q, w).forwarded == Some(f)
    ensures Allowed(g, s, q, w, f)
  {
    ForwardingSafe(g, auth, s, q, w, f);
    ForwardedIff(g, s, q, w, f);
    var r :| Cleared(g, s, q, w, r, f.principal, f.decision) && Sendable(g, s.logs, w, r, f);
    DecideLawful(g, auth, q, r, f.principal.tenant);
  }

  /** One request of a run: the state it found and what came of it. */
  datatype Moment = Moment(before: Shared, job: Job, after: Served)

  function Moments(g: Settings, start: Shared, jobs: seq<Job>): seq<Moment>
    requires g.policy.routes != []
  {
    if jobs == [] then []
    else
      var n := |jobs| - 1;
      var before := RunGateway(g, start, jobs[..n]).state;
      Moments(g, start, jobs[..n]) + [Moment(before, jobs[n], Serve(g, before, jobs[n].request, jobs[n].world))]
  }

  ghost predicate MomentAllowed(g: Settings, m: Moment)
    requires g.policy.routes != []
  {
    m.after.forwarded.Some? ==> Allowed(g, m.before, m.job.request, m.job.world, m.after.forwarded.value)
  }

  /** In every run of a gateway with a validated policy, from any state, every request that is forwarded is
      authenticated, cleared, admitted, within limits and lawful in the state it found. */
  lemma {:induction false} EveryForwardAllowed(g: Settings, auth: Config.AuthBindings, start: Shared, jobs: seq<Job>)
    requires Started(g.policy, auth) && g.policy.policy.enabled
    ensures forall m :: m in Moments(g, start, jobs) ==> MomentAllowed(g, m)
  {
    if jobs != [] {
      var n := |jobs| - 1;
      EveryForwardAllowed(g, auth, start, jobs[..n]);
      LastAllowed(g, auth, RunGateway(g, start, jobs[..n]).state, jobs[n]);
    }
  }

  lemma {:induction false} LastAllowed(g: Settings, auth: Config.AuthBindings, s: Shared, job: Job)
    requires Started(g.policy, auth) && g.policy.policy.enabled
    ensures MomentAllowed(g, Moment(s, job, Serve(g, s, job.request, job.world)))
  {
    var served := Serve(g, s, job.request, job.world);
    if served.forwarded.Some? {
      ForwardAllowed(g, auth, s, job.request, job.world, served.forwarded.value);
    }
  }

  // ----- The counters' view of a run -----

  /** What a finished request is counted as. */
  function ObservationOf(job: Job, served: Served): Metrics.Observation {
    Metrics.Observation(job.request.path, served.backend, served.status, job.world.latencyMs)
  }

  /** The audit log was written, and the access log if it is kept. */
  predicate WritesReturn(g: Settings, w: Surroundings) {
    w.auditWrite.Returned? && (w.logWrite.Returned? || !g.accessLog)
  }

  /** The observations of the requests whose logs were written, in order. */
  function Observations(g: Settings, jobs: seq<Job>, served: seq<Served>): seq<Metrics.Observation>
    requires |jobs| == |served|
  {
    if jobs == [] then []
    else
      var n := |jobs| - 1;
      var before := Observations(g, jobs[..n], served[..n]);
      if WritesReturn(g, jobs[n].world) then before + [ObservationOf(jobs[n], served[n])] else before
  }

  function LoggedCount(g: Settings, jobs: seq<Job>): nat {
    if jobs == [] then 0
    else
      var n := |jobs| - 1;
      LoggedCount(g, jobs[..n]) + if WritesReturn(g, jobs[n].world) then 1 else 0
  }

  function LoggedLatency(g: Settings, jobs: seq<Job>): int {
    if jobs == [] then 0
    else
      var n := |jobs| - 1;
      LoggedLatency(g, jobs[..n]) + if WritesReturn(g, jobs[n].world) then jobs[n].world.latencyMs else 0
  }

  lemma {:induction false} RunLength(g: Settings, start: Shared, jobs: seq<Job>)
    requires g.policy.routes != []
    ensures |RunGateway(g, start, jobs).served| == |jobs|
  {
    if jobs != [] {
      RunLength(g, start, jobs[..|jobs| - 1]);
    }
  }

  predicate CountsFromNone(start: Shared) {
    start.counters == Metrics.Counters(map[], map[])
  }

  ghost predicate Counted(g: Settings, counters: Metrics.Counters, observations: seq<Metrics.Observation>,
                          jobs: seq<Job>) {
    && |observations| == LoggedCount(g, jobs)
    && counters == Metrics.Recorded(g.library.isAlnum, observations)
    && Metrics.TotalLatency(observations) == LoggedLatency(g, jobs)
  }

  /** However a request ends, it is observed once if its logs are written, and not at all otherwise. */
  lemma {:induction false} CountersAreObservations(g: Settings, start: Shared, jobs: seq<Job>)
    requires g.policy.routes != [] && CountsFromNone(start)
    ensures |RunGateway(g, start, jobs).served| == |jobs|
    ensures Counted(g, RunGateway(g, start, jobs).state.counters,
                    Observations(g, jobs, RunGateway(g, start, jobs).served), jobs)
  {
    RunLength(g, start, jobs);
    if jobs != [] {
      CountersAreObservations(g, start, jobs[..|jobs| - 1]);
    }
  }

  /** The request counters of a run sum to the number of requests whose access log and audit writes returned, and the
      latency counters to their total latency. */
  lemma {:induction false} LoggedAreCounted(g: Settings, start: Shared, jobs: seq<Job>)
    requires g.policy.routes != [] && CountsFromNone(start)
    ensures var counters := RunGateway(g, start, jobs).state.counters;
            Metrics.Total(counters.requests) == LoggedCount(g, jobs)
              && Metrics.Total(counters.latencyMs) == LoggedLatency(g, jobs)
  {
    CountersAreObservations(g, start, jobs);
    Metrics.Conservation(g.library.isAlnum, Observations(g, jobs, RunGateway(g, start, jobs).served));
  }

  lemma {:induction false} LoggedAtMost(g: Settings, jobs: seq<Job>)
    ensures LoggedCount(g, jobs) <= |jobs|
    ensures LoggedCount(g, jobs) == |jobs| <==> forall i :: 0 <= i < |jobs| ==> WritesReturn(g, jobs[i].world)
  {
    if jobs != [] {
      LoggedAtMost(g, jobs[..|jobs| - 1]);
    }
  }

  /** So every request of a run is counted if and only if no log write fails. */
  lemma {:induction false} NothingUncounted(g: Settings, start: Shared, jobs: seq<Job>)
    requires g.policy.routes != [] && CountsFromNone(start)
    ensures Metrics.Total(RunGateway(g, start, jobs).state.counters.requests) == |jobs| <==>
              forall i :: 0 <= i < |jobs| ==> WritesReturn(g, jobs[i].world)
  {
    LoggedAreCounted(g, start, jobs);
    LoggedAtMost(g, jobs);
  }

  lemma {:induction false} ObservationsRegular(g: Settings, start: Shared, jobs: seq<Job>)
    requires g.policy.routes != [] && |RunGateway(g, start, jobs).served| == |jobs|
    requires forall i :: 0 <= i < |jobs| ==> AdminRegular(jobs[i].world)
    ensures forall o :: o in Observations(g, jobs, RunGateway(g, start, jobs).served) ==>
                Metrics.Regular(o, RouteNames(g.policy.routes))
  {
    if jobs != [] {
      var n := |jobs| - 1;
      var before := RunGateway(g, start, jobs[..n]);
      RunLength(g, start, jobs[..n]);
      ObservationsRegular(g, start, jobs[..n]);
      StatusRegular(g, before.state, jobs[n].request, jobs[n].world);
      BackendRegular(g, before.state, jobs[n].request, jobs[n].world);
    }
  }

  /** A run of any length, over any paths, has at most 7 * (n + 1) * 5 counters for n configured routes. */
  lemma {:induction false} BoundedCounters(g: Settings, start: Shared, jobs: seq<Job>)
    requires g.policy.routes != [] && CountsFromNone(start)
    requires forall i :: 0 <= i < |jobs| ==> AdminRegular(jobs[i].world)
    ensures |RunGateway(g, start, jobs).state.counters.requests| <= 7 * (|g.policy.routes| + 1) * 5
  {
    CountersAreObservations(g, start, jobs);
    var observations := Observations(g, jobs, RunGateway(g, start, jobs).served);
    ObservationsRegular(g, start, jobs);
    forall i | 0 <= i < |observations|
      ensures Metrics.Regular(observations[i], RouteNames(g.policy.routes))
    {
      assert observations[i] in observations;
    }
    RouteNamesLength(g.policy.routes);
    Metrics.BoundedKeys(g.library.isAlnum, observations, RouteNames(g.policy.routes));
  }
}
