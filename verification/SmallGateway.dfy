/**
  Two gateways with one route and one key.  One has a policy with one rule: it starts and forwards
  a restricted request, so what the theorems say of started gateways and forwarded requests is
  said of some.  The other has no policy and an external route: it starts as well, and sends a
  restricted request out.
*/
module SmallGateway {
  import opened Wrappers
  import opened Base64Url
  import opened ApiKeys
  import opened Config
  import opened Policy
  import opened PolicyTheorems
  import opened Server
  import opened ServerTheorems
  import opened Locality
  import Jwt
  import KeyStore
  import Metrics
  import RateLimit

  const PATH := "/v1/chat/completions"

  const OnlyRoute := Config.Route("local", "http://localhost", ["m"], [Endpoint(PATH, ["POST"])], true, None)

  const OnlyTenant := TenantPolicy("acme", ["m"], ["local"], ["restricted"], None)

  const OnlyRule := RoutingRule("acme", "m", "restricted", "local", None)

  const SmallPolicy := GatewayPolicy(
    [OnlyRoute],
    PolicyConfig(true, "restricted", DefaultClasses, [OnlyTenant], [OnlyRule], RedactPolicy([], [], [])),
    true)

  const CloudRoute := Config.Route("cloud", "https://cloud", ["m"], [Endpoint(PATH, ["POST"])], false, None)

  const CloudPolicy := GatewayPolicy([CloudRoute], DisabledPolicy, true)

  const Bindings := AuthBindings(["acme"], false, false)

  const TokenBindings := AuthBindings([], false, true)

  lemma {:induction false} RoutesAreOk()
    ensures RoutesOk([OnlyRoute]) && RoutesOk([CloudRoute])
  {
    assert PATH[..1] == "/";
    assert EndpointOk(Endpoint(PATH, ["POST"]));
    assert "http://localhost"[..7] == "http://" && "https://cloud"[..8] == "https://";
    assert RouteOk(OnlyRoute) && RouteOk(CloudRoute);
  }

  lemma {:induction false} Starts()
    ensures Started(SmallPolicy, Bindings) && Started(SmallPolicy, TokenBindings) && SmallPolicy.policy.enabled
  {
    var p, routes := SmallPolicy.policy, SmallPolicy.routes;
    assert p.tenants[0] == OnlyTenant && routes[0] == OnlyRoute && p.routingRules[0] == OnlyRule;
    assert p.privacyClasses[0].name == "standard" && p.privacyClasses[1].name == "sensitive"
           && p.privacyClasses[2].name == "restricted";
    assert NamesTenant(p, "acme") && NamesRoute(routes, "local") && NamesClass(p, "restricted")
           && SomeRouteServes(routes, "m");
    assert TenantOk(p, routes, OnlyTenant);
    assert IsLast(routes, RouteName, 0);
    assert RuleFits(OnlyRule, p.tenants[0], routes[0]);
    assert RuleOk(p, routes, OnlyRule);
    ClassesConfigured();
    RoutesAreOk();
  }

  lemma {:induction false} ClassesConfigured()
    ensures KeysOf(DefaultClasses, ClassName) == {"standard", "sensitive", "restricted"}
  {
    assert DefaultClasses[0] in DefaultClasses && DefaultClasses[1] in DefaultClasses
           && DefaultClasses[2] in DefaultClasses;
  }

  const OnlyKey := APIKey("key", "s", "acme", [], None, false)

  const Holder := Principal("key", "acme", [], "api_key")

  /** `{"model":"m"}` */
  const BODY: seq<byte> := [123, 34, 109, 111, 100, 101, 108, 34, 58, 34, 109, 34, 125]

  const Parsed := Payload("m", None, None, None, None)

  /** The one body that the clients of these gateways send. */
  function ParseBODY(body: seq<byte>): Option<Payload> {
    if body == BODY then Some(Parsed) else None
  }

  function Gateway(policy: GatewayPolicy, crypto: Crypto, json: Jwt.Json, redact: seq<byte> -> seq<byte>,
                   isAlnum: char -> bool): Settings {
    Settings(policy, RequestLimits(1048576, 2048, 4), RateLimit.Limits(60, 0), [OnlyKey], false, true,
             Jwt.JWTConfig(false, None, None), json, crypto, Library(path => Some(path), ParseBODY, redact, isAlnum))
  }

  const Chat := Request(PATH, "POST", None, Some("s"), None, Some("13"))

  const Quiet := Surroundings(Returned(BODY), KeyStore.Missing, KeyStore.Unreadable, Returned(map[]), 0, 0.0,
                              Returned(200), false,
                              Returned(()), Err(Uncaught), Returned(()), Returned(()), 5)

  lemma {:induction false} ChatIsReceived(g: Settings, policy: GatewayPolicy, redact: seq<byte> -> seq<byte>,
                                          isAlnum: char -> bool)
    requires g == Gateway(policy, g.crypto, g.json, redact, isAlnum)
    ensures Receive(g, Chat, Quiet) == Ok(Received(PATH, BODY, Parsed))
  {
    assert g.library.urlPath(PATH) == Some(PATH);
    assert SelfServed(g, Chat, Quiet) == None;
    assert g.library.parseObject(BODY) == Some(Parsed);
  }

  lemma {:induction false} HolderIsKnown(g: Settings, c: KeyStore.Cache, policy: GatewayPolicy,
                                         redact: seq<byte> -> seq<byte>, isAlnum: char -> bool)
    requires g == Gateway(policy, g.crypto, g.json, redact, isAlnum) && c == KeyStore.FreshCache
    ensures Authenticate(g, c, Chat, Quiet) == Known(Holder)
  {
  }

  /** A started gateway with a policy forwards a restricted request, by its rule, redacted. */
  lemma {:induction false} ForwardsRestricted(crypto: Crypto, json: Jwt.Json, redact: seq<byte> -> seq<byte>,
                                              isAlnum: char -> bool)
    returns (g: Settings, s: Shared, f: Forward)
    ensures Started(g.policy, Bindings) && g.policy.policy.enabled
    ensures Serve(g, s, Chat, Quiet).forwarded == Some(f)
    ensures f.principal == Holder && f.decision.privacyClass == "restricted" && f.decision.route == OnlyRoute
    ensures f.body == redact(BODY)
  {
    g := Gateway(SmallPolicy, crypto, json, redact, isAlnum);
    s := Shared(KeyStore.FreshCache, RateLimit.EmptyLogs, Metrics.Counters(map[], map[]));
    Starts();
    ChatIsReceived(g, SmallPolicy, redact, isAlnum);
    HolderIsKnown(g, KeyStore.FreshCache, SmallPolicy, redact, isAlnum);
    var r := Received(PATH, BODY, Parsed);
    var d := ChatIsRouted(g, r);
    f := Forward(Holder, d, redact(BODY), 0.0);
    PostAllowed(d.route);
    assert Cleared(g, s, Chat, Quiet, r, Holder, d);
    assert Sendable(g, s.logs, Quiet, r, f);
    ForwardedIff(g, s, Chat, Quiet, f);
  }

  lemma PostAllowed(route: Config.Route)
    requires route.allowedEndpoints == [Endpoint(PATH, ["POST"])]
    ensures AllowedThere(route, PATH, "POST")
  {
    assert Endpoint(PATH, ["POST"]) in route.allowedEndpoints;
  }

  lemma {:induction false} DefaultRedacts()
    ensures RedactBeforeForward(MakeResolver(SmallPolicy), OnlyTenant, Some(OnlyRule), OnlyRoute, "restricted")
  {
    var class_ := ClassPolicy("restricted", None);
    assert DefaultClasses[2] == class_ && IsLast(DefaultClasses, ClassName, 2);
    RedactionMeaning(SmallPolicy, OnlyTenant, Some(OnlyRule), OnlyRoute, class_);
    var overrides := Overrides(Some(OnlyRule), OnlyTenant, OnlyRoute, class_);
    assert overrides == [None, None, None, None];
    assert overrides[1..] == [None, None, None] && overrides[1..][1..] == [None, None]
           && overrides[1..][1..][1..] == [None];
    assert Redaction([None], false, true);
    assert Redaction([None, None], false, true);
    assert Redaction([None, None, None], false, true);
  }

  lemma {:induction false} ChatIsRouted(g: Settings, r: Received) returns (d: Decision)
    requires g.policy == SmallPolicy && r.urlPath == PATH && r.payload == Parsed
    ensures Decide(MakeResolver(g.policy), Chat, r.urlPath, r.payload, "acme") == Ok(d)
    ensures d.route == OnlyRoute && d.privacyClass == "restricted" && d.redactBeforeForward
  {
    Starts();
    DefaultPasses(SmallPolicy, Bindings);
    assert OnlyRule in SmallPolicy.policy.routingRules;
    EveryRuleReachable(SmallPolicy, Bindings, OnlyRule);
    d := Resolve(MakeResolver(SmallPolicy), "acme", "m", "restricted").value;
    TenantFound(SmallPolicy, "acme");
    PolicyTheorems.RuleLookup(SmallPolicy, "acme", "m", "restricted");
    assert HasRule(SmallPolicy.policy, OnlyRule, "acme", "m", "restricted");
    assert OnlyTenant in SmallPolicy.policy.tenants;
    DefaultRedacts();
  }

  // ----- Without a policy -----

  lemma {:induction false} CloudLeadsTo()
    ensures LeadsTo(CloudPolicy.routes, PATH, "POST", "m", 0)
  {
    assert "m" in CloudRoute.models;
  }

  /** A gateway that the configuration loader accepts, with one external backend and no policy, forwards a restricted
      request to it. */
  lemma {:induction false} RestrictedLeavesWithoutPolicy(crypto: Crypto, json: Jwt.Json, redact: seq<byte> -> seq<byte>,
                                                         isAlnum: char -> bool)
    returns (g: Settings, s: Shared, q: Request, w: Surroundings, f: Forward)
    ensures Started(g.policy, Bindings) && g.staticKeys == [OnlyKey]
    ensures Reached(g, s) && Handled(q) && q.privacyHeader == Some("restricted")
    ensures Serve(g, s, q, w).forwarded == Some(f)
    ensures f.decision.privacyClass == "restricted" && f.decision.route == CloudRoute && !f.decision.route.local
  {
    g := Gateway(CloudPolicy, crypto, json, redact, isAlnum);
    RoutesAreOk();
    ChatIsReceived(g, CloudPolicy, redact, isAlnum);
    assert Readable(g, Chat, Quiet, Received(PATH, BODY, Parsed), PATH, "POST", "m");
    FreshCanAsk(g, PATH, "POST", "m");
    var q0, r, p;
    s, q0, w, r, p :|
      Reached(g, s) && Asks(g, s, q0, w, r, p) && r.urlPath == PATH && q0.command == "POST" && r.payload.model == "m";
    CloudLeadsTo();
    PostAllowed(CloudRoute);
    AskLeaks(g, s, q0, w, r, p, 0);
    q := q0.(privacyHeader := Some("restricted"));
    f :| Leaves(g, s, q, w, f) && f.decision.privacyClass == "restricted" && f.decision.route == CloudRoute;
  }
}
