/**
  What every run of the gateway guarantees about what leaves it, how often, and how it is counted.
*/
module ServerTheorems {
  import opened Wrappers
  import opened ApiKeys
  import opened Policy
  import opened PolicyTheorems
  import opened Requests
  import opened Server
  import Config
  import KeyStore
  import RateLimit

  // ----- One request -----

  predicate CountWithin(count: Option<Count>, limit: int) {
    count.Some? ==> count.value.Whole? && count.value.value <= limit
  }

  predicate WithinLimits(limits: RequestLimits, payload: Payload, bodySize: nat) {
    && bodySize <= limits.maxBodyBytes
    && CountWithin(payload.maxTokens, limits.maxOutputTokens)
    && CountWithin(payload.n, limits.maxN)
  }

  predicate AllowedThere(route: Config.Route, urlPath: string, command: string) {
    exists e :: e in route.allowedEndpoints && e.path == urlPath && command in e.methods
  }

  lemma {:induction false} EndpointExact(route: Config.Route, urlPath: string, command: string)
    ensures EndpointAllowed(route, urlPath, command) <==> AllowedThere(route, urlPath, command)
  {
    if e :| e in route.allowedEndpoints && e.path == urlPath && command in e.methods {
      var i :| 0 <= i < |route.allowedEndpoints| && route.allowedEndpoints[i] == e;
    }
  }

  /** A received request, its authenticated principal, and the route decided for them. */
  predicate Decided(g: Settings, s: Shared, q: Request, w: Surroundings, r: Received, p: Principal, d: Decision)
    requires g.policy.routes != []
  {
    && Receive(g, q, w) == Ok(r)
    && Authenticate(g, CacheAfter(g, s.cache, q, w), q, w) == Known(p)
    && Decide(MakeResolver(g.policy), q, r.urlPath, r.payload, p.tenant) == Ok(d)
  }

  predicate Permitted(q: Request, r: Received, p: Principal, d: Decision) {
    && AllowedThere(d.route, r.urlPath, q.command)
    && (r.payload.model == "" || p.allowedModels == [] || r.payload.model in p.allowedModels)
  }

  /** Who, asking what, gets as far as the limiter. */
  predicate Cleared(g: Settings, s: Shared, q: Request, w: Surroundings, r: Received, p: Principal, d: Decision)
    requires g.policy.routes != []
  {
    Decided(g, s, q, w, r, p, d) && Permitted(q, r, p, d)
  }

  /** What a cleared request still needs, and what is then sent. */
  predicate Sendable(g: Settings, logs: RateLimit.Logs, w: Surroundings, r: Received, f: Forward) {
    && RateLimit.AllowStep(g.rateLimits, logs, f.principal.tenant, w.now).verdict == RateLimit.Admitted
    && WithinLimits(g.requestLimits, r.payload, |r.body|)
    && f.body == (if f.decision.redactBeforeForward then g.library.redact(r.body) else r.body)
    && f.at == w.now
  }

  lemma {:induction false} AdmissionExact(g: Settings, logs: RateLimit.Logs, q: Request, w: Surroundings, r: Received,
                                          p: Principal, d: Decision, f: Forward)
    ensures Admit(g, logs, q, w, r, p, d).forwarded == Some(f) <==>
              f.principal == p && f.decision == d && Permitted(q, r, p, d) && Sendable(g, logs, w, r, f)
  {
    EndpointExact(d.route, r.urlPath, q.command);
  }

  lemma {:induction false} AdmissionLimited(g: Settings, logs: RateLimit.Logs, q: Request, w: Surroundings, r: Received,
                                            p: Principal, d: Decision)
    ensures var a := Admit(g, logs, q, w, r, p, d);
            if Permitted(q, r, p, d)
            then a.limited == Some(RateLimit.Arrival(p.tenant, w.now))
                 && a.logs == RateLimit.AllowStep(g.rateLimits, logs, p.tenant, w.now).logs
            else a.limited == None && a.logs == logs
  {
    EndpointExact(d.route, r.urlPath, q.command);
  }

  /** A request is either decided and goes on to admission, or stops with the logs as they were. */
  lemma {:induction false} TryStages(g: Settings, s: Shared, q: Request, w: Surroundings)
    requires g.policy.routes != []
    ensures var a := Try(g, s, q, w).1;
            || (exists r, p, d :: Decided(g, s, q, w, r, p, d) && a == Admit(g, s.logs, q, w, r, p, d))
            || (&& (forall r, p, d :: !Decided(g, s, q, w, r, p, d))
                && a.limited == None && a.forwarded == None && a.backend == "-" && a.logs == s.logs
                && (a.end.status in {401, 500} || SelfServed(g, q, w) == Some(a.end)))
  {
    var received, who := Receive(g, q, w), Authenticate(g, CacheAfter(g, s.cache, q, w), q, w);
    if received.Ok? && who.Known? {
      var r, p := received.value, who.principal;
      var decided := Decide(MakeResolver(g.policy), q, r.urlPath, r.payload, p.tenant);
      if decided.Ok? {
        assert Decided(g, s, q, w, r, p, decided.value);
      }
    }
  }

  /** A request is forwarded exactly if it is received and authenticated, a route is decided for its principal's
      tenant, its endpoint and model are allowed, the limiter admits it and its limits hold; and what is forwarded is
      that principal's request to that route, its body redacted exactly if the decision says so. */
  lemma {:induction false} ForwardedIff(g: Settings, s: Shared, q: Request, w: Surroundings, f: Forward)
    requires g.policy.routes != []
    ensures Serve(g, s, q, w).forwarded == Some(f) <==>
              exists r :: Cleared(g, s, q, w, r, f.principal, f.decision) && Sendable(g, s.logs, w, r, f)
  {
    TryStages(g, s, q, w);
    if r, p, d :| Decided(g, s, q, w, r, p, d) && Try(g, s, q, w).1 == Admit(g, s.logs, q, w, r, p, d) {
      AdmissionExact(g, s.logs, q, w, r, p, d, f);
      assert forall r', p', d' :: Decided(g, s, q, w, r', p', d') ==> r' == r && p' == p && d' == d;
    }
  }

  /** The limiter is consulted exactly for requests that are cleared, and every other request leaves its logs alone. */
  lemma {:induction false} LimiterUse(g: Settings, s: Shared, q: Request, w: Surroundings)
    requires g.policy.routes != []
    ensures var served := Serve(g, s, q, w);
            match served.limited
            case Some(a) =>
              && a.now == w.now
              && served.state.logs == RateLimit.AllowStep(g.rateLimits, s.logs, a.tenant, a.now).logs
              && exists r, p, d :: Cleared(g, s, q, w, r, p, d) && p.tenant == a.tenant
            case None => served.state.logs == s.logs && forall r, p, d :: !Cleared(g, s, q, w, r, p, d)
  {
    TryStages(g, s, q, w);
    if r, p, d :| Decided(g, s, q, w, r, p, d) && Try(g, s, q, w).1 == Admit(g, s.logs, q, w, r, p, d) {
      AdmissionLimited(g, s.logs, q, w, r, p, d);
      assert forall r', p', d' :: Decided(g, s, q, w, r', p', d') ==> r' == r && p' == p && d' == d;
      if Permitted(q, r, p, d) {
        assert Cleared(g, s, q, w, r, p, d);
      }
    }
  }

  /** A principal comes with a live key of the store that accepts what is supplied or, where the store has no such key,
      with a token that proves it. */
  ghost predicate Credentialed(g: Settings, c: KeyStore.Cache, q: Request, w: Surroundings, p: Principal) {
    StoreGrants(g, c, q, w, p) || (StoreHasNone(g, c, q, w) && TokenProves(g, q, w, p))
  }

  lemma {:induction false} KnownIsCredentialed(g: Settings, c: KeyStore.Cache, q: Request, w: Surroundings,
                                               p: Principal)
    ensures Authenticate(g, c, q, w) == Known(p) <==> Credentialed(g, c, q, w, p)
  {
    AuthenticateExact(g, c, q, w, p);
  }

  predicate ModelsRequest(q: Request, urlPath: string) {
    q.command == "GET" && urlPath == "/v1/models"
  }

  /** Which decision a request gets, by its class: what the header says, or else the body, or else the default. */
  predicate RoutedTo(g: Settings, q: Request, r: Received, tenant: string, d: Decision)
    requires g.policy.routes != []
  {
    var name := RequestedClass(g.policy, q.privacyHeader, r.payload.privacyClass, r.payload.camelPrivacyClass);
    && (name == "standard" || name == "sensitive" || name == "restricted")
    && (if ModelsRequest(q, r.urlPath) then RouteForModelsEndpoint(MakeResolver(g.policy), tenant, name) == Ok(d)
        else Resolve(MakeResolver(g.policy), tenant, r.payload.model, name) == Ok(d))
  }

  /** Why it gets none. */
  predicate NotRouted(g: Settings, q: Request, r: Received, tenant: string, denial: Denial)
    requires g.policy.routes != []
  {
    var name := RequestedClass(g.policy, q.privacyHeader, r.payload.privacyClass, r.payload.camelPrivacyClass);
    if name != "standard" && name != "sensitive" && name != "restricted" then denial == UnknownPrivacyClass
    else if ModelsRequest(q, r.urlPath)
    then RouteForModelsEndpoint(MakeResolver(g.policy), tenant, name) == Err(denial)
    else Resolve(MakeResolver(g.policy), tenant, r.payload.model, name) == Err(denial)
  }

  lemma {:induction false} DecideExact(g: Settings, q: Request, r: Received, tenant: string, d: Decision,
                                       denial: Denial)
    requires g.policy.routes != []
    ensures Decide(MakeResolver(g.policy), q, r.urlPath, r.payload, tenant) == Ok(d) <==> RoutedTo(g, q, r, tenant, d)
    ensures Decide(MakeResolver(g.policy), q, r.urlPath, r.payload, tenant) == Err(denial) <==>
              NotRouted(g, q, r, tenant, denial)
  {
    ClassPasses(g.policy, q.privacyHeader, r.payload.privacyClass, r.payload.camelPrivacyClass);
  }

  /** What is decided on, for whom: the request as received, the principal of its credentials, and the route for the
      tenant of that principal. */
  lemma {:induction false} DecidedExact(g: Settings, s: Shared, q: Request, w: Surroundings, r: Received, p: Principal,
                                        d: Decision)
    requires g.policy.routes != []
    ensures Decided(g, s, q, w, r, p, d) <==>
              && ReceivedAs(g, q, w, r) && Credentialed(g, CacheAfter(g, s.cache, q, w), q, w, p)
              && RoutedTo(g, q, r, p.tenant, d)
  {
    ReceiveExact(g, q, w, r);
    KnownIsCredentialed(g, CacheAfter(g, s.cache, q, w), q, w, p);
    DecideExact(g, q, r, p.tenant, d, NoRouteForModel);
  }

  /** What the policy promises of a decision for a tenant: a listed tenant that allows the class and the backend, a
      backend that may carry the class, and, except at the models endpoint, a model that both allow. */
  ghost predicate Lawful(g: Settings, q: Request, r: Received, tenant: string, d: Decision) {
    && d.route in g.policy.routes
    && exists t ::
         && t in g.policy.policy.tenants && t.tenant == tenant
         && d.privacyClass in t.privacyClasses && d.route.name in t.allowedBackends
         && MayCarry(d.route, d.privacyClass)
         && (!ModelsRequest(q, r.urlPath) ==> r.payload.model in t.allowedModels && r.payload.model in d.route.models)
  }

  lemma {:induction false} DecideLawful(g: Settings, auth: Config.AuthBindings, q: Request, r: Received, tenant: string)
    requires Started(g.policy, auth) && g.policy.policy.enabled
    requires Decide(MakeResolver(g.policy), q, r.urlPath, r.payload, tenant).Ok?
    ensures Lawful(g, q, r, tenant, Decide(MakeResolver(g.policy), q, r.urlPath, r.payload, tenant).value)
  {
    var name := PrivacyClassFor(MakeResolver(g.policy), q.privacyHeader, r.payload.privacyClass,
                                r.payload.camelPrivacyClass).value;
    var d := Decide(MakeResolver(g.policy), q, r.urlPath, r.payload, tenant).value;
    if ModelsRequest(q, r.urlPath) {
      ModelsEndpointExact(g.policy, auth, tenant, name);
      var t :|
        && t in g.policy.policy.tenants && t.tenant == tenant && name in t.privacyClasses
        && FirstToCarry(g.policy.routes, t.allowedBackends, name, d.route);
    } else {
      DecisionSound(g.policy, auth, tenant, r.payload.model, name);
    }
  }

  /** Under a validated policy, nothing reaches a backend but an authenticated tenant's request to a backend the
      tenant may use, allowed by the route, admitted by the limiter and within the limits; a sensitive or restricted
      one only ever reaches a local backend. */
  lemma {:induction false} ForwardingSafe(g: Settings, auth: Config.AuthBindings, s: Shared, q: Request,
                                          w: Surroundings, f: Forward)
    requires Started(g.policy, auth) && g.policy.policy.enabled
    requires Serve(g, s, q, w).forwarded == Some(f)
    ensures Credentialed(g, CacheAfter(g, s.cache, q, w), q, w, f.principal)
    ensures exists r :: Cleared(g, s, q, w, r, f.principal, f.decision)
              && Lawful(g, q, r, f.principal.tenant, f.decision)
    ensures f.decision.privacyClass in {"sensitive", "restricted"} ==> f.decision.route.local
  {
    ForwardedIff(g, s, q, w, f);
    var r :| Cleared(g, s, q, w, r, f.principal, f.decision);
    KnownIsCredentialed(g, CacheAfter(g, s.cache, q, w), q, w, f.principal);
    DecideLawful(g, auth, q, r, f.principal.tenant);
  }

  // ----- Statuses -----

  const RefusalStatuses := {400, 401, 403, 413, 429, 500, 502, 504}

  /** The statuses of the key administration endpoint. */
  const AdminStatuses := {200, 201, 400, 401, 404, 405}

  predicate AdminRegular(w: Surroundings) {
    w.admin.Ok? ==> w.admin.value in AdminStatuses
  }

  lemma {:induction false} FinalRefusal(end: End)
    requires end.status in {400, 401, 403, 429, 500}
    ensures FinalStatus(end) in RefusalStatuses
    ensures FinalStatus(end) == 429 ==> end.status == 429
  {
  }

  lemma {:induction false} AdmissionEnd(g: Settings, logs: RateLimit.Logs, q: Request, w: Surroundings, r: Received,
                                        p: Principal, d: Decision)
    ensures var a := Admit(g, logs, q, w, r, p, d);
            if a.forwarded.Some? then a.end == BackendEnd(w)
            else
              && a.end.status in {400, 403, 429, 500}
              && (a.end.status == 429 ==>
                    Permitted(q, r, p, d)
                      && RateLimit.AllowStep(g.rateLimits, logs, p.tenant, w.now).verdict != RateLimit.Admitted)
  {
    EndpointExact(d.route, r.urlPath, q.command);
  }

  /** A request that neither reached a backend nor is the gateway's own to answer is never counted as a success, and
      429 is counted only for requests the limiter refused. */
  lemma {:induction false} RefusalStatus(g: Settings, s: Shared, q: Request, w: Surroundings)
    requires g.policy.routes != []
    requires SelfServed(g, q, w).None? && Serve(g, s, q, w).forwarded.None?
    ensures Serve(g, s, q, w).status in RefusalStatuses
    ensures Serve(g, s, q, w).status == 429 ==>
              exists r, p, d ::
                && Cleared(g, s, q, w, r, p, d)
                && RateLimit.AllowStep(g.rateLimits, s.logs, p.tenant, w.now).verdict != RateLimit.Admitted
  {
    TryStages(g, s, q, w);
    if r, p, d :| Decided(g, s, q, w, r, p, d) && Try(g, s, q, w).1 == Admit(g, s.logs, q, w, r, p, d) {
      AdmissionEnd(g, s.logs, q, w, r, p, d);
      assert Permitted(q, r, p, d) ==> Cleared(g, s, q, w, r, p, d);
    }
    FinalRefusal(Try(g, s, q, w).1.end);
  }

  predicate RegularEnd(end: End) {
    100 <= end.status < 600
  }

  lemma {:induction false} FinalRegular(end: End)
    requires RegularEnd(end)
    ensures 100 <= FinalStatus(end) < 600
  {
  }

  lemma {:induction false} BackendEndRegular(w: Surroundings)
    ensures RegularEnd(BackendEnd(w))
  {
  }

  lemma {:induction false} SelfServedRegular(g: Settings, q: Request, w: Surroundings)
    requires AdminRegular(w)
    ensures SelfServed(g, q, w).Some? ==> RegularEnd(SelfServed(g, q, w).value)
  {
  }

  lemma {:induction false} AdmissionRegular(g: Settings, logs: RateLimit.Logs, q: Request, w: Surroundings, r: Received,
                                            p: Principal, d: Decision)
    ensures RegularEnd(Admit(g, logs, q, w, r, p, d).end)
  {
    AdmissionEnd(g, logs, q, w, r, p, d);
    BackendEndRegular(w);
  }

  lemma {:induction false} TryRegular(g: Settings, s: Shared, q: Request, w: Surroundings)
    requires g.policy.routes != [] && AdminRegular(w)
    ensures RegularEnd(Try(g, s, q, w).1.end)
  {
    TryStages(g, s, q, w);
    SelfServedRegular(g, q, w);
    if r, p, d :| Decided(g, s, q, w, r, p, d) && Try(g, s, q, w).1 == Admit(g, s.logs, q, w, r, p, d) {
      AdmissionRegular(g, s.logs, q, w, r, p, d);
    }
  }

  /** Whatever happens, the counted status is an HTTP status. */
  lemma {:induction false} StatusRegular(g: Settings, s: Shared, q: Request, w: Surroundings)
    requires g.policy.routes != [] && AdminRegular(w)
    ensures 100 <= Serve(g, s, q, w).status < 600
  {
    TryRegular(g, s, q, w);
    FinalRegular(Try(g, s, q, w).1.end);
  }

  function RouteNames(routes: seq<Config.Route>): seq<string> {
    if routes == [] then [] else [routes[0].name] + RouteNames(routes[1..])
  }

  lemma {:induction false} NameOfRoute(routes: seq<Config.Route>, route: Config.Route)
    requires route in routes
    ensures route.name in RouteNames(routes)
  {
    if route != routes[0] {
      NameOfRoute(routes[1..], route);
    }
  }

  lemma {:induction false} RouteNamesLength(routes: seq<Config.Route>)
    ensures |RouteNames(routes)| == |routes|
  {
    if routes != [] {
      RouteNamesLength(routes[1..]);
    }
  }

  lemma {:induction false} SearchedRoute(all: seq<Config.Route>, routes: map<string, Config.Route>,
                                         backends: seq<string>, model: string, privacyClass: string)
    requires forall b :: b in routes ==> routes[b] in all
    ensures FromAllowlist(routes, backends, model, privacyClass).Ok? ==>
              FromAllowlist(routes, backends, model, privacyClass).value in all
    ensures FirstCarrier(routes, backends, privacyClass).Ok? ==>
              FirstCarrier(routes, backends, privacyClass).value in all
  {
    if backends != [] {
      SearchedRoute(all, routes, backends[1..], model, privacyClass);
    }
  }

  /** Every decision is for a configured route, validated or not. */
  lemma {:induction false} DecisionRoute(g: Settings, q: Request, r: Received, tenant: string)
    requires g.policy.routes != []
    requires Decide(MakeResolver(g.policy), q, r.urlPath, r.payload, tenant).Ok?
    ensures Decide(MakeResolver(g.policy), q, r.urlPath, r.payload, tenant).value.route in g.policy.routes
  {
    var resolver := MakeResolver(g.policy);
    var name := PrivacyClassFor(resolver, q.privacyHeader, r.payload.privacyClass, r.payload.camelPrivacyClass).value;
    Config.DictLast(g.policy.routes, Config.RouteName);
    if !g.policy.policy.enabled {
      if LegacyRoute(g.policy.routes, r.payload.model).Ok? {
        var i := LegacyServes(g.policy.routes, r.payload.model);
      }
    } else if tenant in resolver.tenantPolicies {
      SearchedRoute(g.policy.routes, resolver.routes, resolver.tenantPolicies[tenant].allowedBackends, r.payload.model,
                    name);
    }
  }

  lemma {:induction false} TryBackend(g: Settings, s: Shared, q: Request, w: Surroundings)
    requires g.policy.routes != []
    ensures Try(g, s, q, w).1.backend == "-" || Try(g, s, q, w).1.backend in RouteNames(g.policy.routes)
  {
    TryStages(g, s, q, w);
    if r, p, d :| Decided(g, s, q, w, r, p, d) && Try(g, s, q, w).1 == Admit(g, s.logs, q, w, r, p, d) {
      DecisionRoute(g, q, r, p.tenant);
      NameOfRoute(g.policy.routes, d.route);
      AdmitBackend(g, s.logs, q, w, r, p, d);
    }
  }

  /** What a request is counted under: the backend decided on, which is a configured one, or none. */
  lemma {:induction false} BackendRegular(g: Settings, s: Shared, q: Request, w: Surroundings)
    requires g.policy.routes != []
    ensures Serve(g, s, q, w).backend == "-" || Serve(g, s, q, w).backend in RouteNames(g.policy.routes)
    ensures forall r, p, d :: Decided(g, s, q, w, r, p, d) ==> Serve(g, s, q, w).backend == d.route.name
    ensures (forall r, p, d :: !Decided(g, s, q, w, r, p, d)) ==> Serve(g, s, q, w).backend == "-"
  {
    TryBackend(g, s, q, w);
    assert Serve(g, s, q, w).backend == Try(g, s, q, w).1.backend;
    TryStages(g, s, q, w);
    if r, p, d :| Decided(g, s, q, w, r, p, d) && Try(g, s, q, w).1 == Admit(g, s.logs, q, w, r, p, d) {
      AdmitBackend(g, s.logs, q, w, r, p, d);
      assert forall r', p', d' :: Decided(g, s, q, w, r', p', d') ==> r' == r && p' == p && d' == d;
    }
  }

  // ----- What each status says -----

  // Why a request that is not the gateway's own to answer is refused, stage by stage.

  /** Reading the body, or identifying the client, raises. */
  predicate InterruptedFound(g: Settings, s: Shared, q: Request, w: Surroundings, raised: Raised) {
    || ReadBody(g.requestLimits, q.contentLength, w.body) == Err(raised)
    || (Receive(g, q, w).Ok? && Authenticate(g, CacheAfter(g, s.cache, q, w), q, w) == AuthRaises(raised))
  }

  /** The body was read and is no JSON object. */
  predicate NotJsonFound(g: Settings, q: Request, w: Surroundings) {
    ReadBody(g.requestLimits, q.contentLength, w.body).Ok? && Receive(g, q, w).Err?
  }

  predicate AnonymousFound(g: Settings, s: Shared, q: Request, w: Surroundings) {
    Receive(g, q, w).Ok? && Authenticate(g, CacheAfter(g, s.cache, q, w), q, w) == Unknown
  }

  /** The policy, rather than a missing key, stops the request. */
  predicate PolicyDenies(g: Settings, q: Request, r: Received, p: Principal)
    requires g.policy.routes != []
  {
    var decided := Decide(MakeResolver(g.policy), q, r.urlPath, r.payload, p.tenant);
    decided.Err? && !decided.error.MissingKey?
  }

  ghost predicate Denied(g: Settings, s: Shared, q: Request, w: Surroundings)
    requires g.policy.routes != []
  {
    exists r, p ::
      && Receive(g, q, w) == Ok(r) && Authenticate(g, CacheAfter(g, s.cache, q, w), q, w) == Known(p)
      && PolicyDenies(g, q, r, p)
  }

  /** Routed, but not to this endpoint or with this model. */
  ghost predicate Unpermitted(g: Settings, s: Shared, q: Request, w: Surroundings)
    requires g.policy.routes != []
  {
    exists r, p, d :: Decided(g, s, q, w, r, p, d) && !Permitted(q, r, p, d)
  }

  predicate Admitted(g: Settings, s: Shared, w: Surroundings, p: Principal) {
    RateLimit.AllowStep(g.rateLimits, s.logs, p.tenant, w.now).verdict == RateLimit.Admitted
  }

  ghost predicate Throttled(g: Settings, s: Shared, q: Request, w: Surroundings)
    requires g.policy.routes != []
  {
    exists r, p, d :: Cleared(g, s, q, w, r, p, d) && !Admitted(g, s, w, p)
  }

  ghost predicate OverLimitsFound(g: Settings, s: Shared, q: Request, w: Surroundings)
    requires g.policy.routes != []
  {
    exists r, p, d ::
      && Cleared(g, s, q, w, r, p, d) && Admitted(g, s, w, p)
      && CheckLimits(g.requestLimits, r.payload, |r.body|) == Exceeded
  }

  /** Everything that can be wrong with a request. */
  datatype Reasons = Reasons(
    tooLong: bool, notJson: bool, anonymous: bool, denied: bool, unpermitted: bool, throttled: bool, overLimits: bool,
    timedOut: bool, osFailed: bool)

  ghost function ReasonsFound(g: Settings, s: Shared, q: Request, w: Surroundings): Reasons
    requires g.policy.routes != []
  {
    Reasons(TooLong(g, q), NotJsonFound(g, q, w), AnonymousFound(g, s, q, w), Denied(g, s, q, w),
            Unpermitted(g, s, q, w),
            Throttled(g, s, q, w), OverLimitsFound(g, s, q, w), InterruptedFound(g, s, q, w, Timeout),
            InterruptedFound(g, s, q, w, OSFault))
  }

  /** What a status says of a refused request: a denial by an `except` clause keeps its status; a refusal answered
      inside the `try` block keeps it only if the write of its response neither times out nor fails. */
  predicate StatusSays(status: int, r: Reasons, write: Outcome<()>) {
    var inside := r.anonymous || r.unpermitted || r.throttled || r.overLimits;
    var stays := !write.TimedOut? && !write.OSFailed?;
    && (status == 413 <==> r.tooLong)
    && (status == 401 <==> r.anonymous && stays)
    && (status == 403 <==> r.denied || (r.unpermitted && stays))
    && (status == 429 <==> r.throttled && stays)
    && (status == 400 <==> r.notJson || (r.overLimits && stays))
    && (status == 504 <==> r.timedOut || (inside && write.TimedOut?))
    && (status == 502 <==> r.osFailed || (inside && write.OSFailed?))
    && status in RefusalStatuses
  }

  lemma {:induction false} NotReceivedExact(g: Settings, s: Shared, q: Request, w: Surroundings, end: End)
    requires g.policy.routes != [] && SelfServed(g, q, w).None? && Receive(g, q, w) == Err(end)
    ensures StatusSays(FinalStatus(end), ReasonsFound(g, s, q, w), w.write)
  {
  }

  lemma {:induction false} AnsweredStatus(status: int, w: Surroundings)
    requires status in {400, 401, 403, 429}
    ensures FinalStatus(Answered(status, w)) == if w.write.TimedOut? then 504 else if w.write.OSFailed? then 502
            else status
  {
  }

  /** How a request ends without a decision, and why. */
  function StopFor(who: Who, denied: bool, w: Surroundings): End {
    match who
    case Unknown => Answered(401, w)
    case AuthRaises(raised) => Failed(raised)
    case Known(_) => Failed(if denied then PolicyDenied else Uncaught)
  }

  function StopReasons(who: Who, denied: bool): Reasons {
    Reasons(false, false, who.Unknown?, who.Known? && denied, false, false, false, who == AuthRaises(Timeout),
            who == AuthRaises(OSFault))
  }

  lemma {:induction false} StopSays(who: Who, denied: bool, w: Surroundings)
    requires who.AuthRaises? ==> who.raised in {Timeout, OSFault, Uncaught}
    ensures StatusSays(FinalStatus(StopFor(who, denied, w)), StopReasons(who, denied), w.write)
  {
    AnsweredStatus(401, w);
  }

  lemma {:induction false} NotPreparedReasons(g: Settings, s: Shared, q: Request, w: Surroundings, r: Received,
                                              who: Who)
    requires g.policy.routes != [] && Receive(g, q, w) == Ok(r)
             && who == Authenticate(g, CacheAfter(g, s.cache, q, w), q, w)
    requires who.Known? ==> Decide(MakeResolver(g.policy), q, r.urlPath, r.payload, who.principal.tenant).Err?
    ensures ReasonsFound(g, s, q, w) == StopReasons(who, who.Known? && PolicyDenies(g, q, r, who.principal))
  {
    assert forall r', p', d' :: !Decided(g, s, q, w, r', p', d');
  }

  lemma {:induction false} PreparedEnd(g: Settings, c: KeyStore.Cache, q: Request, w: Surroundings, r: Received,
                                       who: Who)
    requires g.policy.routes != [] && who == Authenticate(g, c, q, w) && Prepared(g, c, q, w, r).Err?
    ensures Prepared(g, c, q, w, r).error == StopFor(who, who.Known? && PolicyDenies(g, q, r, who.principal), w)
    ensures who.Known? ==> Decide(MakeResolver(g.policy), q, r.urlPath, r.payload, who.principal.tenant).Err?
    ensures who.AuthRaises? ==> who.raised in {Timeout, OSFault, Uncaught}
  {
  }

  lemma {:induction false} NotPreparedExact(g: Settings, s: Shared, q: Request, w: Surroundings, r: Received, end: End)
    requires g.policy.routes != [] && Receive(g, q, w) == Ok(r)
    requires Prepared(g, CacheAfter(g, s.cache, q, w), q, w, r) == Err(end)
    ensures StatusSays(FinalStatus(end), ReasonsFound(g, s, q, w), w.write)
  {
    var who := Authenticate(g, CacheAfter(g, s.cache, q, w), q, w);
    PreparedEnd(g, CacheAfter(g, s.cache, q, w), q, w, r, who);
    NotPreparedReasons(g, s, q, w, r, who);
    StopSays(who, who.Known? && PolicyDenies(g, q, r, who.principal), w);
  }

  function RoutedReasons(permitted: bool, admitted: bool, exceeded: bool): Reasons {
    Reasons(false, false, false, false, !permitted, permitted && !admitted, permitted && admitted && exceeded, false,
            false)
  }

  lemma {:induction false} NotSentReasons(g: Settings, s: Shared, q: Request, w: Surroundings, r: Received,
                                          p: Principal, d: Decision)
    requires g.policy.routes != [] && Decided(g, s, q, w, r, p, d)
    ensures ReasonsFound(g, s, q, w)
         == RoutedReasons(Permitted(q, r, p, d), Admitted(g, s, w, p),
                          CheckLimits(g.requestLimits, r.payload, |r.body|) == Exceeded)
  {
    assert forall r', p', d' :: Decided(g, s, q, w, r', p', d') ==> r' == r && p' == p && d' == d;
    assert Cleared(g, s, q, w, r, p, d) <==> Permitted(q, r, p, d);
  }

  function RoutedFor(permitted: bool, admitted: bool, exceeded: bool, w: Surroundings): End {
    if !permitted then Answered(403, w)
    else if !admitted then Answered(429, w)
    else if exceeded then Answered(400, w)
    else Failed(Uncaught)
  }

  lemma {:induction false} RoutedSays(permitted: bool, admitted: bool, exceeded: bool, w: Surroundings)
    ensures StatusSays(FinalStatus(RoutedFor(permitted, admitted, exceeded, w)),
                       RoutedReasons(permitted, admitted, exceeded), w.write)
  {
    AnsweredStatus(403, w);
    AnsweredStatus(429, w);
    AnsweredStatus(400, w);
  }

  lemma {:induction false} NotSentEnd(g: Settings, s: Shared, q: Request, w: Surroundings, r: Received, p: Principal,
                                      d: Decision)
    requires Admit(g, s.logs, q, w, r, p, d).forwarded.None?
    ensures Admit(g, s.logs, q, w, r, p, d).end
         == RoutedFor(Permitted(q, r, p, d), Admitted(g, s, w, p),
                      CheckLimits(g.requestLimits, r.payload, |r.body|) == Exceeded, w)
  {
    EndpointExact(d.route, r.urlPath, q.command);
  }

  /** A routed request: only what comes after the decision can refuse it. */
  lemma {:induction false} NotSentExact(g: Settings, s: Shared, q: Request, w: Surroundings, r: Received, p: Principal,
                                        d: Decision)
    requires g.policy.routes != [] && Decided(g, s, q, w, r, p, d)
    requires Admit(g, s.logs, q, w, r, p, d).forwarded.None?
    ensures StatusSays(FinalStatus(Admit(g, s.logs, q, w, r, p, d).end), ReasonsFound(g, s, q, w), w.write)
  {
    NotSentReasons(g, s, q, w, r, p, d);
    NotSentEnd(g, s, q, w, r, p, d);
    RoutedSays(Permitted(q, r, p, d), Admitted(g, s, w, p),
               CheckLimits(g.requestLimits, r.payload, |r.body|) == Exceeded, w);
  }

  /** How far a request that is not forwarded got. */
  datatype Refusal =
    | NotReceived(end: End)
    | NotPrepared(received: Received, end: End)
    | NotSent(received: Received, principal: Principal, decision: Decision)

  /** A refused request stopped at exactly one stage, and its status is that stage's. */
  ghost predicate RefusedAt(g: Settings, s: Shared, q: Request, w: Surroundings, refusal: Refusal)
    requires g.policy.routes != []
  {
    var cache := CacheAfter(g, s.cache, q, w);
    match refusal
    case NotReceived(end) => Receive(g, q, w) == Err(end)
    case NotPrepared(r, end) => Receive(g, q, w) == Ok(r) && Prepared(g, cache, q, w, r) == Err(end)
    case NotSent(r, p, d) =>
      Receive(g, q, w) == Ok(r) && Prepared(g, cache, q, w, r) == Ok((p, d))
        && Admit(g, s.logs, q, w, r, p, d).forwarded.None?
  }

  lemma {:induction false} RefusalStage(g: Settings, s: Shared, q: Request, w: Surroundings) returns (refusal: Refusal)
    requires g.policy.routes != [] && Serve(g, s, q, w).forwarded.None?
    ensures RefusedAt(g, s, q, w, refusal)
    ensures Try(g, s, q, w).1.end ==
              match refusal
              case NotReceived(end) => end
              case NotPrepared(_, end) => end
              case NotSent(r, p, d) => Admit(g, s.logs, q, w, r, p, d).end
  {
    match Receive(g, q, w)
    case Err(end) => refusal := NotReceived(end);
    case Ok(r) =>
      match Prepared(g, CacheAfter(g, s.cache, q, w), q, w, r)
      case Err(end) => refusal := NotPrepared(r, end);
      case Ok(ready) => refusal := NotSent(r, ready.0, ready.1);
  }

  lemma {:induction false} StatusFound(g: Settings, s: Shared, q: Request, w: Surroundings)
    requires g.policy.routes != []
    requires SelfServed(g, q, w).None? && Serve(g, s, q, w).forwarded.None?
    ensures StatusSays(Serve(g, s, q, w).status, ReasonsFound(g, s, q, w), w.write)
  {
    var refusal := RefusalStage(g, s, q, w);
    assert Serve(g, s, q, w).status == FinalStatus(Try(g, s, q, w).1.end);
    match refusal {
      case NotReceived(end) => NotReceivedExact(g, s, q, w, end);
      case NotPrepared(r, end) => NotPreparedExact(g, s, q, w, r, end);
      case NotSent(r, p, d) =>
        assert Decided(g, s, q, w, r, p, d);
        NotSentExact(g, s, q, w, r, p, d);
    }
  }

  // ----- The same reasons, by what the request says -----

  ghost predicate Arrives(g: Settings, q: Request, w: Surroundings) {
    exists r :: ReceivedAs(g, q, w, r)
  }

  /** Reading the body, or identifying the client, times out or fails. */
  ghost predicate Interrupted(g: Settings, s: Shared, q: Request, w: Surroundings, raised: Raised) {
    || BodyFault(g, q, w, raised)
    || (Arrives(g, q, w) && IdentityFault(g, CacheAfter(g, s.cache, q, w), q, w, raised))
  }

  /** No key and no token says who it is from. */
  ghost predicate Anonymous(g: Settings, s: Shared, q: Request, w: Surroundings) {
    && Arrives(g, q, w) && StoreHasNone(g, CacheAfter(g, s.cache, q, w), q, w)
    && !TokenRaises(g, q, w) && forall who :: !TokenProves(g, q, w, who)
  }

  ghost predicate OverLimits(g: Settings, s: Shared, q: Request, w: Surroundings)
    requires g.policy.routes != []
  {
    exists r, p, d ::
      && Cleared(g, s, q, w, r, p, d) && Admitted(g, s, w, p)
      && ExceedsLimits(g.requestLimits, r.payload, |r.body|)
  }

  ghost function ReasonsOf(g: Settings, s: Shared, q: Request, w: Surroundings): Reasons
    requires g.policy.routes != []
  {
    Reasons(TooLong(g, q), NotJson(g, q, w), Anonymous(g, s, q, w), Denied(g, s, q, w), Unpermitted(g, s, q, w),
            Throttled(g, s, q, w), OverLimits(g, s, q, w), Interrupted(g, s, q, w, Timeout),
            Interrupted(g, s, q, w, OSFault))
  }

  lemma {:induction false} ArrivesExact(g: Settings, q: Request, w: Surroundings)
    ensures Receive(g, q, w).Ok? <==> Arrives(g, q, w)
  {
    if Receive(g, q, w).Ok? {
      ReceiveExact(g, q, w, Receive(g, q, w).value);
    }
    if r :| ReceivedAs(g, q, w, r) {
      ReceiveExact(g, q, w, r);
    }
  }

  lemma {:induction false} AnonymousExact(g: Settings, s: Shared, q: Request, w: Surroundings)
    ensures AnonymousFound(g, s, q, w) <==> Anonymous(g, s, q, w)
  {
    ArrivesExact(g, q, w);
    AuthenticateExact(g, CacheAfter(g, s.cache, q, w), q, w, Principal("", "", [], ""));
  }

  lemma {:induction false} NotJsonExact(g: Settings, q: Request, w: Surroundings)
    requires SelfServed(g, q, w).None?
    ensures NotJsonFound(g, q, w) <==> NotJson(g, q, w)
  {
    var read := ReadBody(g.requestLimits, q.contentLength, w.body);
    if read.Ok? {
      ReadExact(g, q, w, read.value);
    }
    if body :| BodyIs(g, q, w, body) && q.command != "GET" && body != [] && g.library.parseObject(body) == None {
      ReadExact(g, q, w, body);
    }
  }

  lemma {:induction false} InterruptedExact(g: Settings, s: Shared, q: Request, w: Surroundings, raised: Raised)
    requires SelfServed(g, q, w).None? && (raised == Timeout || raised == OSFault)
    ensures InterruptedFound(g, s, q, w, raised) <==> Interrupted(g, s, q, w, raised)
  {
    ArrivesExact(g, q, w);
    IdentityFaultExact(g, CacheAfter(g, s.cache, q, w), q, w, raised);
    assert ReadBody(g.requestLimits, q.contentLength, w.body) == Err(raised) <==> BodyFault(g, q, w, raised);
  }

  lemma {:induction false} OverLimitsExact(g: Settings, s: Shared, q: Request, w: Surroundings)
    requires g.policy.routes != []
    ensures OverLimitsFound(g, s, q, w) <==> OverLimits(g, s, q, w)
  {
    forall r: Received
      ensures CheckLimits(g.requestLimits, r.payload, |r.body|) == Exceeded <==>
                ExceedsLimits(g.requestLimits, r.payload, |r.body|)
    {
      LimitsExact(g.requestLimits, r.payload, |r.body|);
    }
  }

  lemma {:induction false} ReasonsExact(g: Settings, s: Shared, q: Request, w: Surroundings)
    requires g.policy.routes != [] && SelfServed(g, q, w).None?
    ensures ReasonsFound(g, s, q, w) == ReasonsOf(g, s, q, w)
  {
    AnonymousExact(g, s, q, w);
    NotJsonExact(g, q, w);
    InterruptedExact(g, s, q, w, Timeout);
    InterruptedExact(g, s, q, w, OSFault);
    OverLimitsExact(g, s, q, w);
  }

  /** Whatever becomes of the response, the status of a refused request says exactly what happened to it. */
  lemma {:induction false} StatusExact(g: Settings, s: Shared, q: Request, w: Surroundings)
    requires g.policy.routes != []
    requires SelfServed(g, q, w).None? && Serve(g, s, q, w).forwarded.None?
    ensures StatusSays(Serve(g, s, q, w).status, ReasonsOf(g, s, q, w), w.write)
  {
    StatusFound(g, s, q, w);
    ReasonsExact(g, s, q, w);
  }

  /** What the body asks for beyond a limit keeps the request from every backend; if nothing else does, it ends with
      400, or with what the write of that response ends with. */
  lemma {:induction false} OverLimitRefused(g: Settings, s: Shared, q: Request, w: Surroundings, r: Received)
    requires g.policy.routes != [] && ReceivedAs(g, q, w, r)
    requires Above(r.payload.maxTokens, g.requestLimits.maxOutputTokens) || Above(r.payload.n, g.requestLimits.maxN)
    ensures Serve(g, s, q, w).forwarded == None
    ensures forall p, d ::
              && Cleared(g, s, q, w, r, p, d) && Admitted(g, s, w, p)
              && ExceedsLimits(g.requestLimits, r.payload, |r.body|) ==>
                Serve(g, s, q, w).status == WrittenStatus(400, w.write)
  {
    ReceiveExact(g, q, w, r);
    if Serve(g, s, q, w).forwarded.Some? {
      var f := Serve(g, s, q, w).forwarded.value;
      ForwardedIff(g, s, q, w, f);
    }
    forall p, d |
      && Cleared(g, s, q, w, r, p, d) && Admitted(g, s, w, p)
      && ExceedsLimits(g.requestLimits, r.payload, |r.body|)
      ensures Serve(g, s, q, w).status == WrittenStatus(400, w.write)
    {
      OverLimitEnd(g, s, q, w, r, p, d);
    }
  }

  lemma {:induction false} OverLimitEnd(g: Settings, s: Shared, q: Request, w: Surroundings, r: Received, p: Principal,
                                        d: Decision)
    requires g.policy.routes != [] && Cleared(g, s, q, w, r, p, d) && Admitted(g, s, w, p)
    requires ExceedsLimits(g.requestLimits, r.payload, |r.body|)
    ensures Serve(g, s, q, w).status == WrittenStatus(400, w.write)
  {
    LimitsExact(g.requestLimits, r.payload, |r.body|);
    EndpointExact(d.route, r.urlPath, q.command);
    assert Admit(g, s.logs, q, w, r, p, d).end == Answered(400, w);
    assert Try(g, s, q, w).1 == Admit(g, s.logs, q, w, r, p, d);
    AnsweredStatus(400, w);
  }

  /** What is recorded for a backend's answer, or for the lack of one. */
  predicate Reports(w: Surroundings, status: int) {
    match w.backend
    case Returned(code) =>
      status == if !IsHttpStatus(code) then 500
                else if w.usageRaises then code
                else if w.write.TimedOut? then 504
                else if w.write.OSFailed? then 502
                else code
    case TimedOut => status == 504
    case OSFailed => status == 502
    case Crashed => status == 500
  }

  /** The statuses that a response can carry. */
  lemma StatusTable(status: int)
    ensures IsHttpStatus(status) <==>
              status in {100, 101, 102, 103, 200, 201, 202, 203, 204, 205, 206, 207, 208, 226, 300, 301, 302, 303, 304,
                         305, 307, 308, 400, 401, 402, 403, 404, 405, 406, 407, 408, 409, 410, 411, 412, 413, 414, 415,
                         416, 417, 418, 421, 422, 423, 424, 425, 426, 428, 429, 431, 451, 500, 501, 502, 503, 504, 505,
                         506, 507, 508, 510, 511}
  {
  }

  lemma {:induction false} BackendReports(w: Surroundings)
    ensures Reports(w, FinalStatus(BackendEnd(w)))
  {
  }

  lemma {:induction false} ForwardedEnd(g: Settings, s: Shared, q: Request, w: Surroundings)
    requires g.policy.routes != [] && Try(g, s, q, w).1.forwarded.Some?
    ensures Try(g, s, q, w).1.end == BackendEnd(w)
  {
    TryStages(g, s, q, w);
    if r, p, d :| Decided(g, s, q, w, r, p, d) && Try(g, s, q, w).1 == Admit(g, s.logs, q, w, r, p, d) {
      AdmissionEnd(g, s.logs, q, w, r, p, d);
    }
  }

  /** A forwarded request is counted under the backend's status, if that is one and the response could be written. */
  lemma {:induction false} ForwardedStatus(g: Settings, s: Shared, q: Request, w: Surroundings)
    requires g.policy.routes != [] && Serve(g, s, q, w).forwarded.Some?
    ensures Reports(w, Serve(g, s, q, w).status)
  {
    ForwardedEnd(g, s, q, w);
    BackendReports(w);
  }

  /** The backend answered with this status, and nothing went wrong with the answer. */
  predicate AnsweredWith(w: Surroundings, status: int) {
    && w.backend == Returned(status) && IsHttpStatus(status)
    && (w.usageRaises || (!w.write.TimedOut? && !w.write.OSFailed?))
  }

  /** A success is recorded for exactly the requests that were forwarded and that the backend answered with it. */
  lemma {:induction false} SuccessExact(g: Settings, s: Shared, q: Request, w: Surroundings, status: int)
    requires g.policy.routes != [] && SelfServed(g, q, w).None? && 100 <= status < 400
    ensures Serve(g, s, q, w).status == status <==> Serve(g, s, q, w).forwarded.Some? && AnsweredWith(w, status)
  {
    if Serve(g, s, q, w).forwarded.Some? {
      ForwardedStatus(g, s, q, w);
    } else {
      RefusalStatus(g, s, q, w);
    }
  }
}
