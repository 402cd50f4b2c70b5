/**
  Which gateways keep confidential requests on local backends, as seen at the backends: what is
  forwarded, after every check, rather than what is decided.
*/
module Locality {
  import opened Wrappers
  import opened PyText
  import opened Base64Url
  import opened ApiKeys
  import opened Policy
  import opened PolicyTheorems
  import opened Server
  import opened ServerTheorems
  import opened GatewayRuns
  import Config
  import KeyStore
  import RateLimit

  /** The commands the HTTP server passes on. */
  predicate Handled(q: Request) {
    q.command == "GET" || q.command == "POST"
  }

  predicate Leaves(g: Settings, s: Shared, q: Request, w: Surroundings, f: Forward)
    requires g.policy.routes != []
  {
    && Handled(q) && Serve(g, s, q, w).forwarded == Some(f)
    && f.decision.privacyClass in {"sensitive", "restricted"} && !f.decision.route.local
  }

  /** A state of some run, from some start. */
  ghost predicate Reached(g: Settings, s: Shared)
    requires g.policy.routes != []
  {
    exists start, jobs :: Starts(g, start) && RunGateway(g, start, jobs).state == s
  }

  ghost predicate Starts(g: Settings, start: Shared) {
    exists stat, text ::
      && (g.hasKeyFile ==> KeyStore.Escape(KeyStore.FreshCache, true, stat, text) == None)
      && start == InitialState(g, stat, text)
  }

  /** In some run, some confidential request is forwarded to an external backend. */
  ghost predicate Leaks(g: Settings)
    requires g.policy.routes != []
  {
    exists s, q, w, f :: Reached(g, s) && Leaves(g, s, q, w, f)
  }

  /** A request that gets through everything but routing: received, authenticated, admitted, and within its limits. */
  predicate Asks(g: Settings, s: Shared, q: Request, w: Surroundings, r: Received, p: Principal) {
    && Handled(q) && Receive(g, q, w) == Ok(r)
    && Authenticate(g, CacheAfter(g, s.cache, q, w), q, w) == Known(p)
    && ModelAllowed(p, r.payload.model)
    && RateLimit.AllowStep(g.rateLimits, s.logs, p.tenant, w.now).verdict == RateLimit.Admitted
    && WithinLimits(g.requestLimits, r.payload, |r.body|)
  }

  /** In some run, some request asks for a path, by a command, with a model. */
  ghost predicate CanAsk(g: Settings, urlPath: string, command: string, model: string)
    requires g.policy.routes != []
  {
    exists s, q, w, r, p :: Reached(g, s) && Asks(g, s, q, w, r, p) && r.urlPath == urlPath && q.command == command
      && r.payload.model == model
  }

  /** Without a policy, the route such a request is sent to. */
  predicate LeadsTo(routes: seq<Config.Route>, urlPath: string, command: string, model: string, i: nat) {
    if command == "GET" && urlPath == "/v1/models" then i == 0 && routes != [] else FirstServes(routes, model, i)
  }

  /** An external route is the one that some request leads to, and it allows the request's endpoint. */
  ghost predicate Exposed(g: Settings, i: nat) {
    && i < |g.policy.routes| && !g.policy.routes[i].local
    && exists urlPath, command, model ::
         && LeadsTo(g.policy.routes, urlPath, command, model, i)
         && AllowedThere(g.policy.routes[i], urlPath, command)
         && CanAsk(g, urlPath, command, model)
  }

  // ----- What is decided without a policy -----

  lemma {:induction false} LegacyDecides(r: Resolver, q: Request, urlPath: string, payload: Payload, tenant: string,
                                         d: Decision) returns (i: nat)
    requires r.config.routes != [] && !r.config.policy.enabled
    requires Decide(r, q, urlPath, payload, tenant) == Ok(d)
    ensures i < |r.config.routes| && d.route == r.config.routes[i]
    ensures LeadsTo(r.config.routes, urlPath, q.command, payload.model, i)
  {
    if q.command == "GET" && urlPath == "/v1/models" {
      i := 0;
    } else {
      i := LegacyServes(r.config.routes, payload.model);
    }
  }

  lemma {:induction false} HeaderDecides(r: Resolver, field: Option<string>, camelField: Option<string>)
    ensures PrivacyClassFor(r, Some("restricted"), field, camelField) == Ok("restricted")
  {
    BuiltInText("restricted");
  }

  /** A request that leads to a route is decided for it, as restricted if its header says so. */
  lemma {:induction false} LegacyDecision(r: Resolver, q: Request, urlPath: string, payload: Payload, tenant: string,
                                          i: nat)
    requires r.config.routes != [] && !r.config.policy.enabled && i < |r.config.routes|
    requires LeadsTo(r.config.routes, urlPath, q.command, payload.model, i) && q.privacyHeader == Some("restricted")
    ensures var decided := Decide(r, q, urlPath, payload, tenant);
            decided.Ok? && decided.value.route == r.config.routes[i] && decided.value.privacyClass == "restricted"
  {
    HeaderDecides(r, payload.privacyClass, payload.camelPrivacyClass);
    if !(q.command == "GET" && urlPath == "/v1/models") {
      LegacyFirst(r.config.routes, payload.model, i);
    }
  }

  /** The privacy header changes nothing else. */
  lemma {:induction false} HeaderAlone(g: Settings, s: Shared, q: Request, w: Surroundings, r: Received, p: Principal,
                                       header: Option<string>)
    requires Asks(g, s, q, w, r, p)
    ensures Asks(g, s, q.(privacyHeader := header), w, r, p)
  {
  }

  // ----- Both directions -----

  lemma {:induction false} LeakExposes(g: Settings, s: Shared, q: Request, w: Surroundings, f: Forward) returns (i: nat)
    requires g.policy.routes != [] && !g.policy.policy.enabled && Reached(g, s) && Leaves(g, s, q, w, f)
    ensures Exposed(g, i)
  {
    ForwardedIff(g, s, q, w, f);
    var r :| Cleared(g, s, q, w, r, f.principal, f.decision) && Sendable(g, s.logs, w, r, f);
    i := LegacyDecides(MakeResolver(g.policy), q, r.urlPath, r.payload, f.principal.tenant, f.decision);
    assert Asks(g, s, q, w, r, f.principal);
    assert CanAsk(g, r.urlPath, q.command, r.payload.model);
  }

  lemma {:induction false} ExposedLeaks(g: Settings, i: nat)
    requires g.policy.routes != [] && !g.policy.policy.enabled && Exposed(g, i)
    ensures Leaks(g)
  {
    var urlPath, command, model :|
      && LeadsTo(g.policy.routes, urlPath, command, model, i)
      && AllowedThere(g.policy.routes[i], urlPath, command) && CanAsk(g, urlPath, command, model);
    var s, q, w, r, p :| Reached(g, s) && Asks(g, s, q, w, r, p) && r.urlPath == urlPath && q.command == command
                         && r.payload.model == model;
    AskLeaks(g, s, q, w, r, p, i);
  }

  lemma {:induction false} AskLeaks(g: Settings, s: Shared, q: Request, w: Surroundings, r: Received, p: Principal,
                                    i: nat)
    requires g.policy.routes != [] && !g.policy.policy.enabled && Asks(g, s, q, w, r, p)
    requires LeadsTo(g.policy.routes, r.urlPath, q.command, r.payload.model, i)
    requires i < |g.policy.routes| && !g.policy.routes[i].local
             && AllowedThere(g.policy.routes[i], r.urlPath, q.command)
    ensures exists f :: Leaves(g, s, q.(privacyHeader := Some("restricted")), w, f)
              && f.decision.privacyClass == "restricted" && f.decision.route == g.policy.routes[i]
  {
    var q' := q.(privacyHeader := Some("restricted"));
    HeaderAlone(g, s, q, w, r, p, Some("restricted"));
    LegacyDecision(MakeResolver(g.policy), q', r.urlPath, r.payload, p.tenant, i);
    var d := Decide(MakeResolver(g.policy), q', r.urlPath, r.payload, p.tenant).value;
    var f := Forward(p, d, if d.redactBeforeForward then g.library.redact(r.body) else r.body, w.now);
    assert Cleared(g, s, q', w, r, p, d) && Sendable(g, s.logs, w, r, f);
    ForwardedIff(g, s, q', w, f);
    assert Leaves(g, s, q', w, f);
  }

  /** Confidential requests leave a gateway exactly if it has no policy and some external route is the one that a
      request leads to: the first route, for a models request that it allows, or the first route to list the request's
      model, at an endpoint that it allows. */
  lemma {:induction false} LeaksIff(g: Settings, auth: Config.AuthBindings)
    requires Started(g.policy, auth)
    ensures Leaks(g) <==> !g.policy.policy.enabled && exists i: nat :: Exposed(g, i)
  {
    if s, q, w, f :| Reached(g, s) && Leaves(g, s, q, w, f) {
      if g.policy.policy.enabled {
        ForwardingSafe(g, auth, s, q, w, f);
      } else {
        var i := LeakExposes(g, s, q, w, f);
      }
    }
    if !g.policy.policy.enabled {
      if i: nat :| Exposed(g, i) {
        ExposedLeaks(g, i);
      }
    }
  }

  // ----- When a request can be made -----

  /** A key that a client can present in a header. */
  predicate Presentable(key: APIKey) {
    && !key.revoked && key.secret != "" && Ascii(key.secret)
    && !IsSpace(key.secret[0]) && !IsSpace(key.secret[|key.secret| - 1])
  }

  /** A request that can be read, within the limits, and asks for a path, by a command, with a model. */
  predicate Readable(g: Settings, q: Request, w: Surroundings, r: Received, urlPath: string, command: string,
                     model: string) {
    && Receive(g, q, w) == Ok(r) && WithinLimits(g.requestLimits, r.payload, |r.body|) && Handled(q)
    && r.urlPath == urlPath && q.command == command && r.payload.model == model
  }

  ghost predicate Expressible(g: Settings, urlPath: string, command: string, model: string) {
    exists q, w, r :: Readable(g, q, w, r, urlPath, command, model)
  }

  lemma {:induction false} FirstKeyAsks(g: Settings, s: Shared, q: Request, w: Surroundings, r: Received)
    requires g.policy.routes != [] && g.staticKeys != [] && Presentable(g.staticKeys[0]) && !g.hasKeyFile
    requires g.rateLimits.perMinute >= 0 && g.rateLimits.perDay >= 0
    requires s.cache == KeyStore.FreshCache && s.logs == RateLimit.EmptyLogs
    requires q.authorization == None && q.xApiKey == Some(g.staticKeys[0].secret)
    requires Readable(g, q, w, r, r.urlPath, q.command, r.payload.model) && KeyAllows(g.staticKeys[0], r.payload.model)
    ensures exists p :: Asks(g, s, q, w, r, p)
  {
    var key := g.staticKeys[0];
    assert Asks(g, s, q, w, r, Principal(key.id, key.tenant, key.allowedModels, "api_key"));
  }

  lemma {:induction false} FreshReached(g: Settings) returns (s: Shared)
    requires g.policy.routes != [] && !g.hasKeyFile
    ensures Reached(g, s) && s.cache == KeyStore.FreshCache && s.logs == RateLimit.EmptyLogs
  {
    s := InitialState(g, KeyStore.Missing, KeyStore.Unreadable);
    assert Starts(g, s) && RunGateway(g, s, []).state == s;
  }

  /** A fresh gateway whose first static key can be presented can be asked for whatever is expressible and the key is
      allowed. */
  lemma {:induction false} FreshCanAsk(g: Settings, urlPath: string, command: string, model: string)
    requires g.policy.routes != [] && g.staticKeys != [] && Presentable(g.staticKeys[0]) && !g.hasKeyFile
    requires g.rateLimits.perMinute >= 0 && g.rateLimits.perDay >= 0
    requires Expressible(g, urlPath, command, model) && KeyAllows(g.staticKeys[0], model)
    ensures CanAsk(g, urlPath, command, model)
  {
    var q, w, r :| Readable(g, q, w, r, urlPath, command, model);
    var secret := g.staticKeys[0].secret;
    var s := FreshReached(g);
    FirstKeyAsks(g, s, q.(authorization := None, xApiKey := Some(secret)), w, r);
  }

  predicate KeyAllows(key: APIKey, model: string) {
    model == "" || key.allowedModels == [] || model in key.allowedModels
  }

  // ----- Read off the configuration -----

  /** One key, to be presented, and no other way in; no limit refuses everyone. */
  predicate OneKey(g: Settings, key: APIKey) {
    && g.staticKeys == [key] && Presentable(key) && !g.hasKeyFile && !g.jwt.enabled
    && g.rateLimits.perMinute >= 0 && g.rateLimits.perDay >= 0
  }

  lemma {:induction false} CacheStays(g: Settings, start: Shared, jobs: seq<Job>)
    requires g.policy.routes != [] && !g.hasKeyFile
    ensures RunGateway(g, start, jobs).state.cache == start.cache
  {
    if jobs != [] {
      var n := |jobs| - 1;
      var before := RunGateway(g, start, jobs[..n]).state;
      CacheStays(g, start, jobs[..n]);
      assert Serve(g, before, jobs[n].request, jobs[n].world).state.cache == before.cache;
    }
  }

  lemma {:induction false} OneKeyKnown(g: Settings, key: APIKey, q: Request, w: Surroundings, p: Principal)
    requires OneKey(g, key) && Authenticate(g, KeyStore.FreshCache, q, w) == Known(p)
    ensures p.allowedModels == key.allowedModels
  {
    var secret := SuppliedKey(q).value;
    assert g.staticKeys + KeyStore.FreshCache.keys == [key];
    GrantedHoldsKey(g.crypto, [key], secret);
  }

  lemma {:induction false} CanAskExpressible(g: Settings, key: APIKey, urlPath: string, command: string, model: string)
    requires g.policy.routes != [] && OneKey(g, key) && CanAsk(g, urlPath, command, model)
    ensures Expressible(g, urlPath, command, model) && KeyAllows(key, model)
  {
    var s, q, w, r, p :|
      Reached(g, s) && Asks(g, s, q, w, r, p) && r.urlPath == urlPath && q.command == command
        && r.payload.model == model;
    var start, jobs :| Starts(g, start) && RunGateway(g, start, jobs).state == s;
    CacheStays(g, start, jobs);
    OneKeyKnown(g, key, q, w, p);
    assert Readable(g, q, w, r, urlPath, command, model);
  }

  /** With one key, what can be asked in some run is what is expressible and the key is allowed. */
  lemma {:induction false} CanAskExact(g: Settings, key: APIKey, urlPath: string, command: string, model: string)
    requires g.policy.routes != [] && OneKey(g, key)
    ensures CanAsk(g, urlPath, command, model) <==> Expressible(g, urlPath, command, model) && KeyAllows(key, model)
  {
    if CanAsk(g, urlPath, command, model) {
      CanAskExpressible(g, key, urlPath, command, model);
    } else if Expressible(g, urlPath, command, model) && KeyAllows(key, model) {
      FreshCanAsk(g, urlPath, command, model);
    }
  }

  /** Answered by the gateway itself. */
  predicate OwnEndpoint(urlPath: string, command: string) {
    urlPath == "/admin/api-keys" || (urlPath == "/metrics" && command == "GET")
  }

  lemma {:induction false} ExpressibleOnly(g: Settings, urlPath: string, command: string, model: string)
    requires Expressible(g, urlPath, command, model)
    ensures command in {"GET", "POST"} && !OwnEndpoint(urlPath, command) && (command == "GET" ==> model == "")
  {
  }

  /** The library reads every path that a route allows from some URL, besides `/healthz` itself. */
  ghost predicate EveryPath(g: Settings) {
    forall i, e :: 0 <= i < |g.policy.routes| && e in g.policy.routes[i].allowedEndpoints ==> PathOfSome(g, e.path)
  }

  ghost predicate PathOfSome(g: Settings, urlPath: string) {
    exists path :: path != "/healthz" && g.library.urlPath(path) == Some(urlPath)
  }

  /** The library reads every model that a route lists from some body within the limits; and an empty body is. */
  ghost predicate EveryModel(g: Settings) {
    && g.requestLimits.maxBodyBytes >= 0
    && forall i, model :: 0 <= i < |g.policy.routes| && model in g.policy.routes[i].models ==> Fits(g, model)
  }

  ghost predicate Fits(g: Settings, model: string) {
    exists length, body, payload ::
      && length != "" && ParseInt(length) == Some(|body|) && body != [] && g.library.parseObject(body) == Some(payload)
      && payload.model == model && WithinLimits(g.requestLimits, payload, |body|)
  }

  function AnyWorld(body: seq<byte>): Surroundings {
    Surroundings(Returned(body), KeyStore.Missing, KeyStore.Unreadable, Returned(map[]), 0, 0.0, Returned(200), false,
                 Returned(()), Ok(200), Returned(()), Returned(()), 0)
  }

  lemma {:induction false} GetExpressible(g: Settings, urlPath: string)
    requires PathOfSome(g, urlPath) && g.requestLimits.maxBodyBytes >= 0 && !OwnEndpoint(urlPath, "GET")
    ensures Expressible(g, urlPath, "GET", "")
  {
    var path :| path != "/healthz" && g.library.urlPath(path) == Some(urlPath);
    var q := Request(path, "GET", None, None, None, None);
    assert Readable(g, q, AnyWorld([]), Received(urlPath, [], EmptyPayload), urlPath, "GET", "");
  }

  lemma {:induction false} PostExpressible(g: Settings, urlPath: string, model: string)
    requires PathOfSome(g, urlPath) && Fits(g, model) && !OwnEndpoint(urlPath, "POST")
    ensures Expressible(g, urlPath, "POST", model)
  {
    var path :| path != "/healthz" && g.library.urlPath(path) == Some(urlPath);
    var length, body, payload :|
      && length != "" && ParseInt(length) == Some(|body|) && body != [] && g.library.parseObject(body) == Some(payload)
      && payload.model == model && WithinLimits(g.requestLimits, payload, |body|);
    PostReadable(g, path, urlPath, length, body, payload);
  }

  lemma {:induction false} PostReadable(g: Settings, path: string, urlPath: string, length: string, body: seq<byte>,
                                        payload: Payload)
    requires path != "/healthz" && g.library.urlPath(path) == Some(urlPath) && !OwnEndpoint(urlPath, "POST")
    requires length != "" && ParseInt(length) == Some(|body|) && body != []
    requires g.library.parseObject(body) == Some(payload) && WithinLimits(g.requestLimits, payload, |body|)
    ensures Expressible(g, urlPath, "POST", payload.model)
  {
    var q, w := Request(path, "POST", None, None, None, Some(length)), AnyWorld(body);
    assert ReadBody(g.requestLimits, q.contentLength, w.body) == Ok(body);
    assert Readable(g, q, w, Received(urlPath, body, payload), urlPath, "POST", payload.model);
  }

  /** A request for an endpoint that leads to route i, as far as routes and the key's models say. */
  predicate Reaches(routes: seq<Config.Route>, key: APIKey, i: nat, urlPath: string, command: string)
    requires i < |routes|
  {
    && !OwnEndpoint(urlPath, command)
    && if command == "GET" then (if urlPath == "/v1/models" then i == 0 else FirstServes(routes, "", i))
       else command == "POST" && exists model :: model in routes[i].models && FirstServes(routes, model, i)
                                   && KeyAllows(key, model)
  }

  /** An external route that some request for one of its endpoints leads to. */
  predicate ExposedTo(routes: seq<Config.Route>, key: APIKey, i: nat) {
    && i < |routes| && !routes[i].local
    && exists e, command :: e in routes[i].allowedEndpoints && command in e.methods
         && Reaches(routes, key, i, e.path, command)
  }

  lemma {:induction false} ExposedReaches(g: Settings, key: APIKey, i: nat)
    requires g.policy.routes != [] && OneKey(g, key) && Exposed(g, i)
    ensures ExposedTo(g.policy.routes, key, i)
  {
    var urlPath, command, model :|
      && LeadsTo(g.policy.routes, urlPath, command, model, i)
      && AllowedThere(g.policy.routes[i], urlPath, command) && CanAsk(g, urlPath, command, model);
    CanAskExpressible(g, key, urlPath, command, model);
    ExpressibleOnly(g, urlPath, command, model);
    var e :| e in g.policy.routes[i].allowedEndpoints && e.path == urlPath && command in e.methods;
    assert Reaches(g.policy.routes, key, i, e.path, command);
  }

  lemma {:induction false} ReachesExposed(g: Settings, key: APIKey, i: nat)
    requires g.policy.routes != [] && OneKey(g, key) && EveryPath(g) && EveryModel(g)
    requires ExposedTo(g.policy.routes, key, i)
    ensures Exposed(g, i)
  {
    var routes := g.policy.routes;
    var e, command :| e in routes[i].allowedEndpoints && command in e.methods
                      && Reaches(routes, key, i, e.path, command);
    assert PathOfSome(g, e.path) && AllowedThere(routes[i], e.path, command);
    if command == "GET" {
      GetExpressible(g, e.path);
      FreshCanAsk(g, e.path, command, "");
      assert LeadsTo(routes, e.path, command, "", i);
    } else {
      var model :| model in routes[i].models && FirstServes(routes, model, i) && KeyAllows(key, model);
      PostExpressible(g, e.path, model);
      FreshCanAsk(g, e.path, command, model);
      assert LeadsTo(routes, e.path, command, model, i);
    }
  }

  /** Where the library can express every listed path and every listed model, and there is one key, confidential
      requests leave exactly if there is no policy and an external route allows an endpoint at which some request
      leads to it: which the routes and the key's models decide. */
  lemma {:induction false} LeaksByConfiguration(g: Settings, auth: Config.AuthBindings, key: APIKey)
    requires Started(g.policy, auth) && OneKey(g, key) && EveryPath(g) && EveryModel(g)
    ensures Leaks(g) <==> !g.policy.policy.enabled && exists i ::
                                                          0 <= i < |g.policy.routes|
                                                            && ExposedTo(g.policy.routes, key, i)
  {
    LeaksIff(g, auth);
    if i: nat :| Exposed(g, i) {
      ExposedReaches(g, key, i);
    }
    if i :| 0 <= i < |g.policy.routes| && ExposedTo(g.policy.routes, key, i) {
      ReachesExposed(g, key, i);
    }
  }
}
