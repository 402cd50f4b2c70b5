/**
  What the load-time verdict on a policy buys at run time: the resolver is total, it decides what a
  declarative reading of the configuration says, and its last checks are redundant.
*/
module PolicyTheorems {
  import opened Wrappers
  import opened PyText
  import opened Config
  import opened Policy

  /** A configuration the gateway has started with. */
  predicate Started(c: GatewayPolicy, auth: AuthBindings) {
    RoutesOk(c.routes) && AuthOk(auth) && Loadable(c.policy, auth, c.routes)
  }

  // ----- A declarative reading of the configuration -----

  /** The route a name stands for: the last one that carries it. */
  predicate RouteNamed(routes: seq<Route>, name: string, route: Route) {
    route.name == name && exists i :: 0 <= i < |routes| && IsLast(routes, RouteName, i) && routes[i] == route
  }

  predicate MayCarry(route: Route, privacyClass: string) {
    privacyClass == "sensitive" || privacyClass == "restricted" ==> route.local
  }

  predicate Eligible(routes: seq<Route>, backend: string, model: string, privacyClass: string, route: Route) {
    RouteNamed(routes, backend, route) && MayCarry(route, privacyClass) && model in route.models
  }

  ghost predicate NoneEligible(routes: seq<Route>, backends: seq<string>, model: string, privacyClass: string) {
    forall b, route :: b in backends ==> !Eligible(routes, b, model, privacyClass, route)
  }

  /** The route of the first backend in the list that may carry the class and serves the model. */
  ghost predicate FirstEligible(routes: seq<Route>, backends: seq<string>, model: string, privacyClass: string,
                                route: Route) {
    exists k ::
      && 0 <= k < |backends| && Eligible(routes, backends[k], model, privacyClass, route)
      && NoneEligible(routes, backends[..k], model, privacyClass)
  }

  predicate HasRule(p: PolicyConfig, rule: RoutingRule, tenant: string, model: string, privacyClass: string) {
    rule in p.routingRules && RuleKey(rule) == (tenant, model, privacyClass)
  }

  predicate NoRule(p: PolicyConfig, tenant: string, model: string, privacyClass: string) {
    forall rule :: rule in p.routingRules ==> RuleKey(rule) != (tenant, model, privacyClass)
  }

  /** The highest-ranking override that is set, and otherwise whether anything lists the request or the default is
      on. */
  function Redaction(overrides: seq<Option<bool>>, listed: bool, byDefault: bool): bool {
    if overrides == [] then listed || byDefault
    else if overrides[0].Some? then overrides[0].value
    else Redaction(overrides[1..], listed, byDefault)
  }

  function Overrides(rule: Option<RoutingRule>, t: TenantPolicy, route: Route, class_: ClassPolicy): seq<Option<bool>> {
    [if rule.Some? then rule.value.redactBeforeForward else None,
     t.redactBeforeForward, route.redactBeforeForward, class_.redactBeforeForward]
  }

  predicate Listed(c: GatewayPolicy, t: TenantPolicy, route: Route, privacyClass: string) {
    var redact := c.policy.redactBeforeForward;
    t.tenant in redact.tenants || route.name in redact.routes || privacyClass in redact.privacyClasses
  }

  predicate ClassNamed(p: PolicyConfig, name: string, class_: ClassPolicy) {
    class_.name == name && exists i :: 0 <= i < |p.privacyClasses| && IsLast(p.privacyClasses, ClassName, i)
                             && p.privacyClasses[i] == class_
  }

  /** What an enabled policy says about a request: the tenant is listed and allows the model and the class; its
      rule's backend, or else its first eligible backend, serves it; and the most specific redaction setting holds. */
  ghost predicate Says(c: GatewayPolicy, tenant: string, model: string, privacyClass: string, d: Decision) {
    exists t, class_, rule: Option<RoutingRule> ::
      && t in c.policy.tenants && t.tenant == tenant
      && model in t.allowedModels && privacyClass in t.privacyClasses
      && ClassNamed(c.policy, privacyClass, class_)
      && Picks(c, rule, t, model, privacyClass, d.route)
      && d.privacyClass == privacyClass
      && d.redactBeforeForward
        == Redaction(Overrides(rule, t, d.route, class_), Listed(c, t, d.route, privacyClass), c.redactByDefault)
  }

  ghost predicate Picks(c: GatewayPolicy, rule: Option<RoutingRule>, t: TenantPolicy, model: string,
                        privacyClass: string, route: Route) {
    match rule
    case Some(x) => HasRule(c.policy, x, t.tenant, model, privacyClass) && RouteNamed(c.routes, x.backend, route)
    case None =>
      NoRule(c.policy, t.tenant, model, privacyClass)
        && FirstEligible(c.routes, t.allowedBackends, model, privacyClass, route)
  }

  // ----- The dictionaries, read declaratively -----

  lemma {:induction false} RouteLookup(routes: seq<Route>, name: string, route: Route)
    ensures RouteNamed(routes, name, route) <==>
              name in Dict(routes, RouteName) && Dict(routes, RouteName)[name] == route
  {
    DictIs(routes, RouteName, name);
    DictLast(routes, RouteName);
  }

  lemma {:induction false} TenantLookup(p: PolicyConfig, t: TenantPolicy)
    requires DistinctTenants(p)
    ensures t in p.tenants <==> t.tenant in Dict(p.tenants, TenantName) && Dict(p.tenants, TenantName)[t.tenant] == t
  {
    DictLast(p.tenants, TenantName);
    if t in p.tenants {
      var i :| 0 <= i < |p.tenants| && p.tenants[i] == t;
      assert IsLast(p.tenants, TenantName, i);
    }
  }

  lemma {:induction false} RuleLookup(c: GatewayPolicy, tenant: string, model: string, privacyClass: string)
    requires DistinctRules(c.policy.routingRules)
    ensures match RuleFor(MakeResolver(c), tenant, model, privacyClass)
            case Some(rule) => HasRule(c.policy, rule, tenant, model, privacyClass)
            case None => NoRule(c.policy, tenant, model, privacyClass)
    ensures forall rule ::
              HasRule(c.policy, rule, tenant, model, privacyClass) ==>
                RuleFor(MakeResolver(c), tenant, model, privacyClass) == Some(rule)
  {
    var rules := c.policy.routingRules;
    DictLast(rules, RuleKey);
    DictIs(rules, RuleKey, (tenant, model, privacyClass));
    forall rule | HasRule(c.policy, rule, tenant, model, privacyClass)
      ensures RuleFor(MakeResolver(c), tenant, model, privacyClass) == Some(rule)
    {
      var i :| 0 <= i < |rules| && rules[i] == rule;
      assert IsLast(rules, RuleKey, i);
    }
  }

  lemma {:induction false} ClassLookup(c: GatewayPolicy, name: string, class_: ClassPolicy)
    ensures ClassNamed(c.policy, name, class_) <==>
              name in MakeResolver(c).classPolicies && MakeResolver(c).classPolicies[name] == class_
  {
    DictIs(c.policy.privacyClasses, ClassName, name);
    DictLast(c.policy.privacyClasses, ClassName);
  }

  /** The eight-way precedence list is the highest set override, and else a disjunction. */
  lemma {:induction false} RedactionMeaning(c: GatewayPolicy, t: TenantPolicy, rule: Option<RoutingRule>, route: Route,
                                            class_: ClassPolicy)
    requires ClassNamed(c.policy, class_.name, class_)
    ensures RedactBeforeForward(MakeResolver(c), t, rule, route, class_.name)
         == Redaction(Overrides(rule, t, route, class_), Listed(c, t, route, class_.name), c.redactByDefault)
  {
    ClassLookup(c, class_.name, class_);
    var r := MakeResolver(c);
    var redact := c.policy.redactBeforeForward;
    var defaults := [TrueIf(t.tenant in redact.tenants), TrueIf(route.name in redact.routes),
                     TrueIf(class_.name in redact.privacyClasses), Some(c.redactByDefault)];
    var listed := Listed(c, t, route, class_.name);
    assert FirstBool(defaults) == (listed || c.redactByDefault) by {
      assert FirstBool(defaults[3..]) == c.redactByDefault;
      assert FirstBool(defaults[2..]) == (class_.name in redact.privacyClasses || c.redactByDefault) by {
        assert defaults[2..][1..] == defaults[3..];
      }
      assert defaults[1..][1..] == defaults[2..];
    }
    FirstBoolOverrides(Overrides(rule, t, route, class_), defaults, listed, c.redactByDefault);
    assert [RuleRedaction(rule), t.redactBeforeForward, route.redactBeforeForward, ClassRedaction(r, class_.name)]
           + defaults
        == [RuleRedaction(rule), t.redactBeforeForward, route.redactBeforeForward, ClassRedaction(r, class_.name),
            TrueIf(t.tenant in redact.tenants), TrueIf(route.name in redact.routes),
            TrueIf(class_.name in redact.privacyClasses), Some(c.redactByDefault)];
  }

  lemma {:induction false} FirstBoolOverrides(overrides: seq<Option<bool>>, defaults: seq<Option<bool>>, listed: bool,
                                              byDefault: bool)
    requires FirstBool(defaults) == (listed || byDefault)
    ensures FirstBool(overrides + defaults) == Redaction(overrides, listed, byDefault)
  {
    if overrides == [] {
      assert overrides + defaults == defaults;
    } else {
      FirstBoolOverrides(overrides[1..], defaults, listed, byDefault);
      assert (overrides + defaults)[1..] == overrides[1..] + defaults;
    }
  }

  // ----- The search through an allowlist -----

  /** A backend is eligible exactly through the route its name looks up. */
  lemma {:induction false} OneEligible(routes: seq<Route>, backend: string, model: string, privacyClass: string,
                                       found: Route)
    requires backend in Dict(routes, RouteName) && found == Dict(routes, RouteName)[backend]
    ensures forall route ::
              Eligible(routes, backend, model, privacyClass, route) <==>
                route == found && MayCarry(found, privacyClass) && model in found.models
  {
    forall route
      ensures Eligible(routes, backend, model, privacyClass, route) <==>
                route == found && MayCarry(found, privacyClass) && model in found.models
    {
      RouteLookup(routes, backend, route);
    }
  }

  /** Without a rule, the chosen backend is the first eligible one, and there is no choice exactly if none is
      eligible. */
  lemma {:induction false} SearchExact(routes: seq<Route>, backends: seq<string>, model: string, privacyClass: string)
    requires forall b :: b in backends ==> b in Dict(routes, RouteName)
    ensures match FromAllowlist(Dict(routes, RouteName), backends, model, privacyClass)
            case Ok(route) =>
              FirstEligible(routes, backends, model, privacyClass, route)
                && !NoneEligible(routes, backends, model, privacyClass)
            case Err(denial) => denial == NoRouteForModel && NoneEligible(routes, backends, model, privacyClass)
  {
    if backends != [] {
      var route := Dict(routes, RouteName)[backends[0]];
      OneEligible(routes, backends[0], model, privacyClass, route);
      if MayCarry(route, privacyClass) && model in route.models {
        assert NoneEligible(routes, backends[..0], model, privacyClass);
      } else {
        SearchExact(routes, backends[1..], model, privacyClass);
      }
    }
  }

  /** There is only one first eligible route. */
  lemma {:induction false} FirstUnique(routes: seq<Route>, backends: seq<string>, model: string, privacyClass: string,
                                       a: Route, b: Route)
    requires FirstEligible(routes, backends, model, privacyClass, a)
             && FirstEligible(routes, backends, model, privacyClass, b)
    ensures a == b
  {
    var i :|
      && 0 <= i < |backends| && Eligible(routes, backends[i], model, privacyClass, a)
      && NoneEligible(routes, backends[..i], model, privacyClass);
    var j :|
      && 0 <= j < |backends| && Eligible(routes, backends[j], model, privacyClass, b)
      && NoneEligible(routes, backends[..j], model, privacyClass);
    RouteLookup(routes, backends[i], a);
    RouteLookup(routes, backends[j], b);
    assert forall x :: 0 <= x < j ==> backends[x] in backends[..j];
    assert forall x :: 0 <= x < i ==> backends[x] in backends[..i];
  }

  // ----- What validation guarantees -----

  /** Everything an allowed tenant refers to is there to be looked up. */
  lemma {:induction false} TenantKnown(c: GatewayPolicy, auth: AuthBindings, t: TenantPolicy)
    requires Started(c, auth) && c.policy.enabled && t in c.policy.tenants
    ensures forall b :: b in t.allowedBackends ==> b in Dict(c.routes, RouteName)
    ensures forall name :: name in t.privacyClasses ==> name in MakeResolver(c).classPolicies
  {
    var i :| 0 <= i < |c.policy.tenants| && c.policy.tenants[i] == t;
    assert TenantOk(c.policy, c.routes, c.policy.tenants[i]);
    forall b | b in t.allowedBackends
      ensures b in Dict(c.routes, RouteName)
    {
      assert NamesRoute(c.routes, b);
      DictIs(c.routes, RouteName, b);
    }
    forall name | name in t.privacyClasses
      ensures name in MakeResolver(c).classPolicies
    {
      assert NamesClass(c.policy, name);
      DictIs(c.policy.privacyClasses, ClassName, name);
    }
  }

  /** A validated rule names a listed tenant that allows what it asks for, and a backend that can take it. */
  lemma {:induction false} RuleSound(c: GatewayPolicy, auth: AuthBindings, rule: RoutingRule)
    requires Started(c, auth) && c.policy.enabled && rule in c.policy.routingRules
    ensures exists t, route ::
              t in c.policy.tenants && RouteNamed(c.routes, rule.backend, route) && RuleFits(rule, t, route)
  {
    var i :| 0 <= i < |c.policy.routingRules| && c.policy.routingRules[i] == rule;
    assert RuleOk(c.policy, c.routes, c.policy.routingRules[i]);
    var a, b :|
      && 0 <= a < |c.policy.tenants| && 0 <= b < |c.routes|
      && IsLast(c.routes, RouteName, b) && RuleFits(rule, c.policy.tenants[a], c.routes[b]);
    assert c.policy.tenants[a] in c.policy.tenants && RouteNamed(c.routes, rule.backend, c.routes[b]);
  }

  predicate Sound(t: TenantPolicy, route: Route, model: string, privacyClass: string) {
    && model in t.allowedModels && model in route.models
    && route.name in t.allowedBackends && privacyClass in t.privacyClasses
    && MayCarry(route, privacyClass)
  }

  lemma {:induction false} PickSound(c: GatewayPolicy, auth: AuthBindings, rule: Option<RoutingRule>,
                                     t: TenantPolicy, model: string, privacyClass: string, route: Route)
    requires Started(c, auth) && c.policy.enabled && t in c.policy.tenants
    requires model in t.allowedModels && privacyClass in t.privacyClasses
    requires Picks(c, rule, t, model, privacyClass, route)
    ensures Sound(t, route, model, privacyClass) && route in c.routes
  {
    match rule
    case Some(x) =>
      RuleSound(c, auth, x);
      var u, r :| u in c.policy.tenants && RouteNamed(c.routes, x.backend, r) && RuleFits(x, u, r);
      TenantLookup(c.policy, u);
      TenantLookup(c.policy, t);
      RouteLookup(c.routes, x.backend, r);
      RouteLookup(c.routes, x.backend, route);
    case None =>
  }

  lemma LastChecksPass(t: TenantPolicy, route: Route, model: string, privacyClass: string)
    requires Sound(t, route, model, privacyClass)
    ensures LastChecks(t, route, privacyClass) == None
  {
  }

  /** A request that its tenant allows is decided for the route that its rule or the search gives. */
  lemma {:induction false} Decides(r: Resolver, t: TenantPolicy, model: string, privacyClass: string, route: Route)
    requires r.config.policy.enabled && t.tenant in r.tenantPolicies && r.tenantPolicies[t.tenant] == t
    requires Sound(t, route, model, privacyClass)
    requires RouteFor(r, RuleFor(r, t.tenant, model, privacyClass), t, model, privacyClass) == Ok(route)
    ensures Resolve(r, t.tenant, model, privacyClass)
         == Ok(Decision(route, privacyClass,
                        RedactBeforeForward(r, t, RuleFor(r, t.tenant, model, privacyClass), route, privacyClass)))
  {
    LastChecksPass(t, route, model, privacyClass);
  }

  /** The rule or, without one, the search picks what the configuration says, and the dictionaries never miss. */
  lemma {:induction false} RouteForExact(c: GatewayPolicy, auth: AuthBindings, t: TenantPolicy, model: string,
                                         privacyClass: string)
    requires Started(c, auth) && c.policy.enabled && t in c.policy.tenants
    ensures var rule := RuleFor(MakeResolver(c), t.tenant, model, privacyClass);
            match RouteFor(MakeResolver(c), rule, t, model, privacyClass)
            case Ok(route) => Picks(c, rule, t, model, privacyClass, route)
            case Err(denial) =>
              && denial == NoRouteForModel && NoRule(c.policy, t.tenant, model, privacyClass)
              && NoneEligible(c.routes, t.allowedBackends, model, privacyClass)
  {
    RuleLookup(c, t.tenant, model, privacyClass);
    match RuleFor(MakeResolver(c), t.tenant, model, privacyClass)
    case Some(x) =>
      RuleSound(c, auth, x);
      var u, r :| u in c.policy.tenants && RouteNamed(c.routes, x.backend, r) && RuleFits(x, u, r);
      RouteLookup(c.routes, x.backend, r);
    case None =>
      TenantKnown(c, auth, t);
      SearchExact(c.routes, t.allowedBackends, model, privacyClass);
  }

  /** A rule or a search picks at most one route. */
  lemma {:induction false} PicksUnique(c: GatewayPolicy, auth: AuthBindings, rule: Option<RoutingRule>,
                                       other: Option<RoutingRule>, t: TenantPolicy, model: string, privacyClass: string,
                                       a: Route, b: Route)
    requires Started(c, auth) && c.policy.enabled
    requires Picks(c, rule, t, model, privacyClass, a) && Picks(c, other, t, model, privacyClass, b)
    ensures rule == other && a == b
  {
    RuleLookup(c, t.tenant, model, privacyClass);
    assert rule == other;
    match rule
    case Some(x) =>
      RouteLookup(c.routes, x.backend, a);
      RouteLookup(c.routes, x.backend, b);
    case None =>
      FirstUnique(c.routes, t.allowedBackends, model, privacyClass, a, b);
  }

  /** With a validated policy, the resolver's answers are exactly the decisions the configuration says. */
  lemma {:induction false} ResolveExact(c: GatewayPolicy, auth: AuthBindings, tenant: string, model: string,
                                        privacyClass: string, d: Decision)
    requires Started(c, auth) && c.policy.enabled
    ensures Resolve(MakeResolver(c), tenant, model, privacyClass) == Ok(d) <==> Says(c, tenant, model, privacyClass, d)
  {
    if Resolve(MakeResolver(c), tenant, model, privacyClass) == Ok(d) {
      ResolveSays(c, auth, tenant, model, privacyClass, d);
    }
    if Says(c, tenant, model, privacyClass, d) {
      SaysResolve(c, auth, tenant, model, privacyClass, d);
    }
  }

  lemma {:induction false} ResolveSays(c: GatewayPolicy, auth: AuthBindings, tenant: string, model: string,
                                       privacyClass: string, d: Decision)
    requires Started(c, auth) && c.policy.enabled
    requires Resolve(MakeResolver(c), tenant, model, privacyClass) == Ok(d)
    ensures Says(c, tenant, model, privacyClass, d)
  {
    var r := MakeResolver(c);
    var t := r.tenantPolicies[tenant];
    DictLast(c.policy.tenants, TenantName);
    TenantKnown(c, auth, t);
    var class_ := r.classPolicies[privacyClass];
    ClassLookup(c, privacyClass, class_);
    var rule := RuleFor(r, tenant, model, privacyClass);
    RouteForExact(c, auth, t, model, privacyClass);
    RedactionMeaning(c, t, rule, d.route, class_);
  }

  lemma {:induction false} SaysResolve(c: GatewayPolicy, auth: AuthBindings, tenant: string, model: string,
                                       privacyClass: string, d: Decision)
    requires Started(c, auth) && c.policy.enabled
    requires Says(c, tenant, model, privacyClass, d)
    ensures Resolve(MakeResolver(c), tenant, model, privacyClass) == Ok(d)
  {
    var t, class_, rule: Option<RoutingRule> :|
      && t in c.policy.tenants && t.tenant == tenant
      && model in t.allowedModels && privacyClass in t.privacyClasses
      && ClassNamed(c.policy, privacyClass, class_)
      && Picks(c, rule, t, model, privacyClass, d.route)
      && d.privacyClass == privacyClass
      && d.redactBeforeForward
        == Redaction(Overrides(rule, t, d.route, class_), Listed(c, t, d.route, privacyClass), c.redactByDefault);
    TenantLookup(c.policy, t);
    RedactionMeaning(c, t, rule, d.route, class_);
    RouteForExact(c, auth, t, model, privacyClass);
    PickSound(c, auth, rule, t, model, privacyClass, d.route);
    RuleLookup(c, tenant, model, privacyClass);
    var found := RuleFor(MakeResolver(c), tenant, model, privacyClass);
    match RouteFor(MakeResolver(c), found, t, model, privacyClass)
    case Ok(route) =>
      PicksUnique(c, auth, rule, found, t, model, privacyClass, d.route, route);
      Decides(MakeResolver(c), t, model, privacyClass, route);
    case Err(_) =>
  }

  // ----- Totality and soundness -----

  ghost predicate TenantDenies(c: GatewayPolicy, t: TenantPolicy, model: string, privacyClass: string, denial: Denial) {
    match denial
    case ModelNotAllowed => model !in t.allowedModels
    case ClassNotAllowed => model in t.allowedModels && privacyClass !in t.privacyClasses
    case NoRouteForModel =>
      && model in t.allowedModels && privacyClass in t.privacyClasses
      && NoRule(c.policy, t.tenant, model, privacyClass)
      && NoneEligible(c.routes, t.allowedBackends, model, privacyClass)
    case _ => false
  }

  /** Why an enabled policy denies a request. */
  ghost predicate Denies(c: GatewayPolicy, tenant: string, model: string, privacyClass: string, denial: Denial) {
    || (denial == NoTenantPolicy && !NamesTenant(c.policy, tenant))
    || (exists t :: t in c.policy.tenants && t.tenant == tenant && TenantDenies(c, t, model, privacyClass, denial))
  }

  lemma {:induction false} TenantFound(c: GatewayPolicy, tenant: string)
    requires DistinctTenants(c.policy)
    ensures var tenants := MakeResolver(c).tenantPolicies;
            && (tenant in tenants <==> NamesTenant(c.policy, tenant))
            && (forall t :: t in c.policy.tenants && t.tenant == tenant ==> tenant in tenants && tenants[tenant] == t)
            && (tenant in tenants ==> tenants[tenant] in c.policy.tenants && tenants[tenant].tenant == tenant)
  {
    DictIs(c.policy.tenants, TenantName, tenant);
    DictLast(c.policy.tenants, TenantName);
    forall t | t in c.policy.tenants && t.tenant == tenant
      ensures tenant in MakeResolver(c).tenantPolicies && MakeResolver(c).tenantPolicies[tenant] == t
    {
      TenantLookup(c.policy, t);
    }
  }

  /** A validated policy denies for one of four reasons, each exactly when it holds; in particular no lookup ever
      misses, and the checks after the route is chosen never fire. */
  lemma {:induction false} DenialExact(c: GatewayPolicy, auth: AuthBindings, tenant: string, model: string,
                                       privacyClass: string, denial: Denial)
    requires Started(c, auth) && c.policy.enabled
    ensures Resolve(MakeResolver(c), tenant, model, privacyClass) == Err(denial) <==>
              Denies(c, tenant, model, privacyClass, denial)
  {
    var r := MakeResolver(c);
    TenantFound(c, tenant);
    if tenant in r.tenantPolicies {
      var t := r.tenantPolicies[tenant];
      TenantDenialExact(c, auth, t, model, privacyClass, denial);
      assert Denies(c, tenant, model, privacyClass, denial) <==> TenantDenies(c, t, model, privacyClass, denial);
    }
  }

  lemma {:induction false} TenantDenialExact(c: GatewayPolicy, auth: AuthBindings, t: TenantPolicy, model: string,
                                             privacyClass: string, denial: Denial)
    requires Started(c, auth) && c.policy.enabled && t in c.policy.tenants
    ensures Resolve(MakeResolver(c), t.tenant, model, privacyClass) == Err(denial) <==>
              TenantDenies(c, t, model, privacyClass, denial)
  {
    TenantFound(c, t.tenant);
    if model in t.allowedModels && privacyClass in t.privacyClasses {
      DenialAfterChecks(c, auth, t, model, privacyClass, denial);
    }
  }

  lemma {:induction false} DenialAfterChecks(c: GatewayPolicy, auth: AuthBindings, t: TenantPolicy, model: string,
                                             privacyClass: string, denial: Denial)
    requires Started(c, auth) && c.policy.enabled
    requires t in c.policy.tenants && model in t.allowedModels && privacyClass in t.privacyClasses
    ensures Resolve(MakeResolver(c), t.tenant, model, privacyClass) == Err(denial) <==>
              && denial == NoRouteForModel && NoRule(c.policy, t.tenant, model, privacyClass)
              && NoneEligible(c.routes, t.allowedBackends, model, privacyClass)
  {
    var r := MakeResolver(c);
    TenantFound(c, t.tenant);
    RouteForExact(c, auth, t, model, privacyClass);
    var rule := RuleFor(r, t.tenant, model, privacyClass);
    match RouteFor(r, rule, t, model, privacyClass)
    case Ok(route) =>
      PickSound(c, auth, rule, t, model, privacyClass, route);
      Decides(r, t, model, privacyClass, route);
    case Err(_) =>
  }

  /** Every rule of a validated policy is reachable: its triple is served by its backend. */
  lemma {:induction false} EveryRuleReachable(c: GatewayPolicy, auth: AuthBindings, rule: RoutingRule)
    requires Started(c, auth) && c.policy.enabled && rule in c.policy.routingRules
    ensures var answer := Resolve(MakeResolver(c), rule.tenant, rule.model, rule.privacyClass);
            answer.Ok? && RouteNamed(c.routes, rule.backend, answer.value.route)
  {
    RuleSound(c, auth, rule);
    var t, route :| t in c.policy.tenants && RouteNamed(c.routes, rule.backend, route) && RuleFits(rule, t, route);
    TenantFound(c, rule.tenant);
    RouteLookup(c.routes, rule.backend, route);
    RuleLookup(c, rule.tenant, rule.model, rule.privacyClass);
    assert HasRule(c.policy, rule, rule.tenant, rule.model, rule.privacyClass);
    Decides(MakeResolver(c), t, rule.model, rule.privacyClass, route);
  }

  /** A decision's route serves the model, is one of the tenant's backends, and carries a class the tenant allows. */
  lemma {:induction false} DecisionSound(c: GatewayPolicy, auth: AuthBindings, tenant: string, model: string,
                                         privacyClass: string)
    requires Started(c, auth) && c.policy.enabled
    requires Resolve(MakeResolver(c), tenant, model, privacyClass).Ok?
    ensures var d := Resolve(MakeResolver(c), tenant, model, privacyClass).value;
            && d.privacyClass == privacyClass && d.route in c.routes
            && (privacyClass in {"sensitive", "restricted"} ==> d.route.local)
            && exists t :: t in c.policy.tenants && t.tenant == tenant && Sound(t, d.route, model, privacyClass)
  {
    var r := MakeResolver(c);
    TenantFound(c, tenant);
    var t := r.tenantPolicies[tenant];
    RouteForExact(c, auth, t, model, privacyClass);
    PickSound(c, auth, RuleFor(r, tenant, model, privacyClass), t, model, privacyClass,
              RouteFor(r, RuleFor(r, tenant, model, privacyClass), t, model, privacyClass).value);
  }

  /** A decision keeps to its tenant's lists, and a confidential one to local routes, even where nothing was validated;
      and the last check of all never fires. */
  lemma {:induction false} SafeUnvalidated(c: GatewayPolicy, tenant: string, model: string, privacyClass: string)
    requires c.policy.enabled
    ensures Resolve(MakeResolver(c), tenant, model, privacyClass) != Err(RestrictedNeedsLocal)
    ensures Resolve(MakeResolver(c), tenant, model, privacyClass).Ok? ==>
              var route := Resolve(MakeResolver(c), tenant, model, privacyClass).value.route;
              && route in c.routes && (privacyClass in {"sensitive", "restricted"} ==> route.local)
              && exists t ::
                   && t in c.policy.tenants && t.tenant == tenant && route.name in t.allowedBackends
                   && model in t.allowedModels && privacyClass in t.privacyClasses
  {
    var r := MakeResolver(c);
    DictLast(c.policy.tenants, TenantName);
    DictLast(c.routes, RouteName);
    if tenant in r.tenantPolicies {
      FoundInRoutes(r.routes, r.tenantPolicies[tenant].allowedBackends, model, privacyClass);
    }
  }

  lemma {:induction false} FoundInRoutes(routes: map<string, Route>, backends: seq<string>, model: string,
                                         privacyClass: string)
    ensures FromAllowlist(routes, backends, model, privacyClass).Ok? ==>
              FromAllowlist(routes, backends, model, privacyClass).value in routes.Values
    ensures FromAllowlist(routes, backends, model, privacyClass) != Err(RestrictedNeedsLocal)
  {
    if backends != [] {
      FoundInRoutes(routes, backends[1..], model, privacyClass);
    }
  }

  /** No rule of a loadable policy sends a confidential class to an external route. */
  lemma {:induction false} RulesStayLocal(c: GatewayPolicy, auth: AuthBindings, rule: RoutingRule, route: Route)
    requires Started(c, auth) && c.policy.enabled && rule in c.policy.routingRules
    requires RouteNamed(c.routes, rule.backend, route)
    ensures rule.privacyClass in {"sensitive", "restricted"} ==> route.local
  {
    RuleSound(c, auth, rule);
    var t, r :| t in c.policy.tenants && RouteNamed(c.routes, rule.backend, r) && RuleFits(rule, t, r);
    RouteLookup(c.routes, rule.backend, r);
    RouteLookup(c.routes, rule.backend, route);
  }

  // ----- The models endpoint -----

  predicate Carrier(routes: seq<Route>, backend: string, privacyClass: string, route: Route) {
    RouteNamed(routes, backend, route) && MayCarry(route, privacyClass)
  }

  ghost predicate NoCarrier(routes: seq<Route>, backends: seq<string>, privacyClass: string) {
    forall b, route :: b in backends ==> !Carrier(routes, b, privacyClass, route)
  }

  ghost predicate FirstToCarry(routes: seq<Route>, backends: seq<string>, privacyClass: string, route: Route) {
    exists k ::
      0 <= k < |backends| && Carrier(routes, backends[k], privacyClass, route)
        && NoCarrier(routes, backends[..k], privacyClass)
  }

  lemma {:induction false} CarrierExact(routes: seq<Route>, backends: seq<string>, privacyClass: string)
    requires forall b :: b in backends ==> b in Dict(routes, RouteName)
    ensures match FirstCarrier(Dict(routes, RouteName), backends, privacyClass)
            case Ok(route) => FirstToCarry(routes, backends, privacyClass, route)
            case Err(denial) => denial == NoRouteForTenant && NoCarrier(routes, backends, privacyClass)
  {
    if backends != [] {
      var found := Dict(routes, RouteName)[backends[0]];
      forall route
        ensures Carrier(routes, backends[0], privacyClass, route) <==> route == found && MayCarry(found, privacyClass)
      {
        RouteLookup(routes, backends[0], route);
      }
      if MayCarry(found, privacyClass) {
        assert NoCarrier(routes, backends[..0], privacyClass);
      } else {
        CarrierExact(routes, backends[1..], privacyClass);
        assert forall b :: b in backends <==> b == backends[0] || b in backends[1..];
        if route :| FirstCarrier(Dict(routes, RouteName), backends[1..], privacyClass) == Ok(route) {
          var rest := backends[1..];
          var k :|
            0 <= k < |rest| && Carrier(routes, rest[k], privacyClass, route)
              && NoCarrier(routes, rest[..k], privacyClass);
          assert backends[k + 1] == rest[k] && backends[..k + 1] == [backends[0]] + rest[..k];
        }
      }
    }
  }

  /** The models endpoint is answered by the first of the tenant's backends that may carry the class, and denied
      exactly if the tenant is not listed, does not allow the class, or has no such backend. */
  lemma {:induction false} ModelsEndpointExact(c: GatewayPolicy, auth: AuthBindings, tenant: string,
                                               privacyClass: string)
    requires Started(c, auth) && c.policy.enabled
    ensures match RouteForModelsEndpoint(MakeResolver(c), tenant, privacyClass)
            case Ok(d) =>
              && d.privacyClass == privacyClass && d.route in c.routes
              && (privacyClass in {"sensitive", "restricted"} ==> d.route.local)
              && exists t, class_ ::
                   && t in c.policy.tenants && t.tenant == tenant && privacyClass in t.privacyClasses
                   && FirstToCarry(c.routes, t.allowedBackends, privacyClass, d.route)
                   && ClassNamed(c.policy, privacyClass, class_)
                   && d.redactBeforeForward
                     == Redaction(Overrides(None, t, d.route, class_), Listed(c, t, d.route, privacyClass),
                                  c.redactByDefault)
            case Err(NoTenantPolicy) => !NamesTenant(c.policy, tenant)
            case Err(ClassNotAllowed) =>
              exists t :: t in c.policy.tenants && t.tenant == tenant && privacyClass !in t.privacyClasses
            case Err(NoRouteForTenant) =>
              exists t ::
                && t in c.policy.tenants && t.tenant == tenant && privacyClass in t.privacyClasses
                && NoCarrier(c.routes, t.allowedBackends, privacyClass)
            case Err(_) => false
  {
    var r := MakeResolver(c);
    TenantFound(c, tenant);
    if tenant in r.tenantPolicies {
      var t := r.tenantPolicies[tenant];
      TenantKnown(c, auth, t);
      CarrierExact(c.routes, t.allowedBackends, privacyClass);
      var answer := RouteForModelsEndpoint(r, tenant, privacyClass);
      if answer.Ok? {
        var class_ := r.classPolicies[privacyClass];
        ClassLookup(c, privacyClass, class_);
        RedactionMeaning(c, t, None, answer.value.route, class_);
      }
    }
  }

  // ----- How choices change -----

  /** Backends added at the end of an allowlist matter only where nothing before them is eligible. */
  lemma {:induction false} AppendStable(routes: map<string, Route>, backends: seq<string>, more: seq<string>,
                                        model: string, privacyClass: string)
    ensures FromAllowlist(routes, backends + more, model, privacyClass)
         == if FromAllowlist(routes, backends, model, privacyClass) == Err(NoRouteForModel)
            then FromAllowlist(routes, more, model, privacyClass)
            else FromAllowlist(routes, backends, model, privacyClass)
  {
    if backends == [] {
      assert backends + more == more;
    } else {
      AppendStable(routes, backends[1..], more, model, privacyClass);
      assert (backends + more)[1..] == backends[1..] + more;
    }
  }

  /** Without a rule, a decision is the first eligible backend, and there is one as soon as some backend is eligible. */
  lemma {:induction false} ServedByFirst(c: GatewayPolicy, auth: AuthBindings, t: TenantPolicy, model: string,
                                         privacyClass: string)
    requires Started(c, auth) && c.policy.enabled && t in c.policy.tenants
    requires NoRule(c.policy, t.tenant, model, privacyClass)
    requires model in t.allowedModels && privacyClass in t.privacyClasses
    ensures var answer := Resolve(MakeResolver(c), t.tenant, model, privacyClass);
            if answer.Ok?
            then FirstEligible(c.routes, t.allowedBackends, model, privacyClass, answer.value.route)
            else NoneEligible(c.routes, t.allowedBackends, model, privacyClass)
  {
    TenantFound(c, t.tenant);
    RouteForExact(c, auth, t, model, privacyClass);
    RuleLookup(c, t.tenant, model, privacyClass);
    var answer := Resolve(MakeResolver(c), t.tenant, model, privacyClass);
    if answer.Err? {
      DenialAfterChecks(c, auth, t, model, privacyClass, answer.error);
    }
  }

  /** The route of the first backend in the list that serves the model, be it local or not. */
  ghost predicate FirstToServe(routes: seq<Route>, backends: seq<string>, model: string, route: Route) {
    exists k ::
      && 0 <= k < |backends| && RouteNamed(routes, backends[k], route) && model in route.models
      && NoneServes(routes, backends[..k], model)
  }

  ghost predicate NoneServes(routes: seq<Route>, backends: seq<string>, model: string) {
    forall b, route :: b in backends && RouteNamed(routes, b, route) ==> model !in route.models
  }

  lemma {:induction false} OpenSearch(routes: seq<Route>, backends: seq<string>, model: string, route: Route)
    ensures NoneEligible(routes, backends, model, "standard") <==> NoneServes(routes, backends, model)
    ensures FirstEligible(routes, backends, model, "standard", route) <==> FirstToServe(routes, backends, model, route)
  {
    forall b, r
      ensures Eligible(routes, b, model, "standard", r) <==> RouteNamed(routes, b, r) && model in r.models
    {
    }
    forall k | 0 <= k <= |backends|
      ensures NoneEligible(routes, backends[..k], model, "standard") <==> NoneServes(routes, backends[..k], model)
    {
    }
    assert backends[..|backends|] == backends;
  }

  /** A standard request without a rule is served by the first backend of its tenant's list that has its model, local or
      not, and denied exactly if none has it. */
  lemma {:induction false} StandardServed(c: GatewayPolicy, auth: AuthBindings, t: TenantPolicy, model: string,
                                          route: Route)
    requires Started(c, auth) && c.policy.enabled && t in c.policy.tenants
    requires NoRule(c.policy, t.tenant, model, "standard")
    requires model in t.allowedModels && "standard" in t.privacyClasses
    ensures var answer := Resolve(MakeResolver(c), t.tenant, model, "standard");
            && (answer.Ok? && answer.value.route == route <==>
                  FirstToServe(c.routes, t.allowedBackends, model, route))
            && (answer.Err? <==> NoneServes(c.routes, t.allowedBackends, model))
  {
    var answer := Resolve(MakeResolver(c), t.tenant, model, "standard");
    ServedByFirst(c, auth, t, model, "standard");
    OpenSearch(c.routes, t.allowedBackends, model, route);
    if answer.Ok? {
      OpenSearch(c.routes, t.allowedBackends, model, answer.value.route);
      if FirstToServe(c.routes, t.allowedBackends, model, route) {
        FirstUnique(c.routes, t.allowedBackends, model, "standard", route, answer.value.route);
      }
    }
  }

  /** Backend a of the list is no later than backend b. */
  ghost predicate NoLater(routes: seq<Route>, backends: seq<string>, a: Route, b: Route) {
    exists i, j :: 0 <= i <= j < |backends| && RouteNamed(routes, backends[i], a) && RouteNamed(routes, backends[j], b)
  }

  lemma {:induction false} OpenNoLater(routes: seq<Route>, backends: seq<string>, model: string, secret: string,
                                       open: string, a: Route)
    requires secret in {"sensitive", "restricted"} && open !in {"sensitive", "restricted"}
    requires FirstEligible(routes, backends, model, secret, a)
    ensures !NoneEligible(routes, backends, model, open)
    ensures forall b :: FirstEligible(routes, backends, model, open, b) ==> NoLater(routes, backends, b, a)
  {
    var j :|
      && 0 <= j < |backends| && Eligible(routes, backends[j], model, secret, a)
      && NoneEligible(routes, backends[..j], model, secret);
    assert Eligible(routes, backends[j], model, open, a);
    forall b | FirstEligible(routes, backends, model, open, b)
      ensures NoLater(routes, backends, b, a)
    {
      var i :|
        && 0 <= i < |backends| && Eligible(routes, backends[i], model, open, b)
        && NoneEligible(routes, backends[..i], model, open);
      assert forall x :: 0 <= x < i ==> backends[x] in backends[..i];
      assert i <= j;
    }
  }

  /** Where a confidential class is served, an open class without a rule is served too, and by a backend no later
      in the tenant's list. */
  lemma {:induction false} ConfidentialImpliesOpen(c: GatewayPolicy, auth: AuthBindings, t: TenantPolicy, model: string,
                                                   secret: string, open: string)
    requires Started(c, auth) && c.policy.enabled && t in c.policy.tenants
    requires secret in {"sensitive", "restricted"} && open !in {"sensitive", "restricted"} && open in t.privacyClasses
    requires NoRule(c.policy, t.tenant, model, secret) && NoRule(c.policy, t.tenant, model, open)
    requires Resolve(MakeResolver(c), t.tenant, model, secret).Ok?
    ensures Resolve(MakeResolver(c), t.tenant, model, open).Ok?
    ensures NoLater(c.routes, t.allowedBackends, Resolve(MakeResolver(c), t.tenant, model, open).value.route,
                    Resolve(MakeResolver(c), t.tenant, model, secret).value.route)
  {
    TenantFound(c, t.tenant);
    ServedByFirst(c, auth, t, model, secret);
    ServedByFirst(c, auth, t, model, open);
    OpenNoLater(c.routes, t.allowedBackends, model, secret, open,
                Resolve(MakeResolver(c), t.tenant, model, secret).value.route);
  }

  // ----- Locality -----

  predicate FirstServes(routes: seq<Route>, model: string, i: nat) {
    i < |routes| && model in routes[i].models && forall j :: 0 <= j < i ==> model !in routes[j].models
  }

  lemma {:induction false} LegacyFirst(routes: seq<Route>, model: string, i: nat)
    requires FirstServes(routes, model, i)
    ensures LegacyRoute(routes, model) == Ok(routes[i])
  {
    if i > 0 {
      assert FirstServes(routes[1..], model, i - 1);
      LegacyFirst(routes[1..], model, i - 1);
    }
  }

  lemma {:induction false} LegacyServes(routes: seq<Route>, model: string) returns (i: nat)
    requires LegacyRoute(routes, model).Ok?
    ensures FirstServes(routes, model, i) && LegacyRoute(routes, model) == Ok(routes[i])
  {
    if model in routes[0].models {
      i := 0;
    } else {
      var k := LegacyServes(routes[1..], model);
      i := k + 1;
      assert forall j :: 0 < j < |routes| ==> routes[j] == routes[1..][j - 1];
    }
  }

  /** What a gateway without a policy says: the first route to list the model, with its own redaction setting if it has
      one and the default otherwise. */
  predicate LegacySays(c: GatewayPolicy, model: string, privacyClass: string, d: Decision, i: nat) {
    && FirstServes(c.routes, model, i)
    && d.route == c.routes[i] && d.privacyClass == privacyClass
    && (match c.routes[i].redactBeforeForward
        case Some(set_) => d.redactBeforeForward == set_
        case None => d.redactBeforeForward == c.redactByDefault)
  }

  lemma {:induction false} LegacyMissing(routes: seq<Route>, model: string)
    requires forall i :: 0 <= i < |routes| ==> model !in routes[i].models
    ensures LegacyRoute(routes, model) == Err(NoRouteForModel)
  {
    if routes != [] {
      assert forall i :: 0 <= i < |routes[1..]| ==> routes[1..][i] == routes[i + 1];
      LegacyMissing(routes[1..], model);
    }
  }

  /** Without a policy every request for a listed model is decided, whoever asks and in whatever class; the only
      denial is that no route lists the model; and the models endpoint always goes to the first route. */
  lemma {:induction false} LegacyExact(c: GatewayPolicy, tenant: string, model: string, privacyClass: string,
                                       d: Decision)
    requires c.routes != [] && !c.policy.enabled
    ensures var answer := Resolve(MakeResolver(c), tenant, model, privacyClass);
            && (answer == Ok(d) <==> exists i: nat :: LegacySays(c, model, privacyClass, d, i))
            && (answer.Err? <==> forall i :: 0 <= i < |c.routes| ==> model !in c.routes[i].models)
            && (answer.Err? ==> answer.error == NoRouteForModel)
    ensures RouteForModelsEndpoint(MakeResolver(c), tenant, privacyClass)
         == Ok(Decision(c.routes[0], privacyClass, c.redactByDefault))
  {
    var answer := Resolve(MakeResolver(c), tenant, model, privacyClass);
    if LegacyRoute(c.routes, model).Ok? {
      var i := LegacyServes(c.routes, model);
      OwnOrDefault(c.routes[i].redactBeforeForward, c.redactByDefault);
      assert answer == Ok(d) ==> LegacySays(c, model, privacyClass, d, i);
    }
    if i: nat :| LegacySays(c, model, privacyClass, d, i) {
      LegacyFirst(c.routes, model, i);
      OwnOrDefault(c.routes[i].redactBeforeForward, c.redactByDefault);
    }
    if forall i :: 0 <= i < |c.routes| ==> model !in c.routes[i].models {
      LegacyMissing(c.routes, model);
    }
    LegacyOnlyMissing(c.routes, model);
  }

  lemma {:induction false} OwnOrDefault(own: Option<bool>, byDefault: bool)
    ensures FirstBool([own, Some(byDefault)]) == if own.Some? then own.value else byDefault
  {
    assert [own, Some(byDefault)][1..] == [Some(byDefault)];
  }

  lemma {:induction false} LegacyOnlyMissing(routes: seq<Route>, model: string)
    ensures LegacyRoute(routes, model).Err? ==>
              && LegacyRoute(routes, model).error == NoRouteForModel
              && forall i :: 0 <= i < |routes| ==> model !in routes[i].models
  {
    if routes != [] && model !in routes[0].models {
      LegacyOnlyMissing(routes[1..], model);
      assert forall i :: 0 < i < |routes| ==> routes[i] == routes[1..][i - 1];
    }
  }

  /** The first route, and every route that is the first to list some model, are local. */
  ghost predicate LeadersLocal(routes: seq<Route>)
    requires routes != []
  {
    routes[0].local && forall model, i: nat :: FirstServes(routes, model, i) ==> routes[i].local
  }

  predicate LocalAnswer(answer: Result<Decision, Denial>) {
    answer.Ok? ==> answer.value.route.local
  }

  predicate StaysLocal(c: GatewayPolicy, tenant: string, model: string, privacyClass: string)
    requires c.routes != []
  {
    privacyClass == "sensitive" || privacyClass == "restricted" ==>
      && LocalAnswer(Resolve(MakeResolver(c), tenant, model, privacyClass))
      && LocalAnswer(RouteForModelsEndpoint(MakeResolver(c), tenant, privacyClass))
  }

  /** Confidential requests are only ever decided to go to local backends. */
  ghost predicate KeepsLocal(c: GatewayPolicy)
    requires c.routes != []
  {
    forall tenant, model, privacyClass :: StaysLocal(c, tenant, model, privacyClass)
  }

  /** The resolver decides on local backends for confidential requests exactly if a policy is configured, or if every
      route that comes first in the configuration for some model, and the first route altogether, happen to be local:
      without a policy nothing checks. */
  lemma {:induction false} LocalityIff(c: GatewayPolicy, auth: AuthBindings)
    requires Started(c, auth)
    ensures KeepsLocal(c) <==>
              c.policy.enabled || LeadersLocal(c.routes)
  {
    if c.policy.enabled {
      forall tenant, model, privacyClass
        ensures StaysLocal(c, tenant, model, privacyClass)
      {
        EnabledLocal(c, auth, tenant, model, privacyClass);
      }
    } else {
      LegacyLocality(c);
    }
  }

  lemma {:induction false} EnabledLocal(c: GatewayPolicy, auth: AuthBindings, tenant: string, model: string,
                                        privacyClass: string)
    requires Started(c, auth) && c.policy.enabled
    ensures StaysLocal(c, tenant, model, privacyClass)
  {
    if Resolve(MakeResolver(c), tenant, model, privacyClass).Ok? {
      DecisionSound(c, auth, tenant, model, privacyClass);
    }
    var models := RouteForModelsEndpoint(MakeResolver(c), tenant, privacyClass);
    ModelsEndpointExact(c, auth, tenant, privacyClass);
    assert models.Ok? ==> MayCarry(models.value.route, privacyClass);
  }

  lemma {:induction false} LegacyLocality(c: GatewayPolicy)
    requires c.routes != [] && !c.policy.enabled
    ensures KeepsLocal(c) <==> LeadersLocal(c.routes)
  {
    if KeepsLocal(c) {
      assert StaysLocal(c, "", "", "restricted");
      forall model, i: nat | FirstServes(c.routes, model, i)
        ensures c.routes[i].local
      {
        LegacyFirst(c.routes, model, i);
        assert StaysLocal(c, "", model, "restricted");
      }
    }
    if LeadersLocal(c.routes) {
      forall tenant, model, privacyClass
        ensures StaysLocal(c, tenant, model, privacyClass)
      {
        LegacyStaysLocal(c, tenant, model, privacyClass);
      }
    }
  }

  lemma {:induction false} LegacyStaysLocal(c: GatewayPolicy, tenant: string, model: string, privacyClass: string)
    requires c.routes != [] && !c.policy.enabled && LeadersLocal(c.routes)
    ensures StaysLocal(c, tenant, model, privacyClass)
  {
    if LegacyRoute(c.routes, model).Ok? {
      var i := LegacyServes(c.routes, model);
    }
  }

  // ----- The privacy class of a request -----

  lemma {:induction false} BuiltInText(name: string)
    requires name in {"standard", "sensitive", "restricted"}
    ensures Lower(Strip(name)) == name
  {
  }

  lemma {:induction false} BuiltInNamed(c: GatewayPolicy, auth: AuthBindings, name: string)
    requires Started(c, auth) && name in {"standard", "sensitive", "restricted"}
    ensures NamesClass(c.policy, name)
  {
    if c.policy == DisabledPolicy {
      assert DefaultClasses[0].name == "standard" && DefaultClasses[1].name == "sensitive"
             && DefaultClasses[2].name == "restricted";
    } else {
      assert name in KeysOf(c.policy.privacyClasses, ClassName);
    }
  }

  /** The first text that is there and not empty. */
  function FirstNamed(texts: seq<Option<string>>, default: string): string {
    if texts == [] then default
    else if texts[0].Some? && texts[0].value != "" then texts[0].value
    else FirstNamed(texts[1..], default)
  }

  lemma {:induction false} FirstOfThree(a: Option<string>, b: Option<string>, c: Option<string>, default: string)
    ensures FirstNamed([a, b, c], default)
         == if a.Some? && a.value != "" then a.value
            else if b.Some? && b.value != "" then b.value
            else if c.Some? && c.value != "" then c.value
            else default
  {
    assert [a, b, c][1..] == [b, c] && [b, c][1..] == [c] && [c][1..] == [];
    assert FirstNamed([c], default) == if c.Some? && c.value != "" then c.value else default;
    assert FirstNamed([b, c], default) == if b.Some? && b.value != "" then b.value else FirstNamed([c], default);
  }

  /** A request's class is what the header says, or else the body, or else the default, stripped and in lower case. */
  function RequestedClass(c: GatewayPolicy, header: Option<string>, field: Option<string>,
                          camelField: Option<string>): string {
    Lower(Strip(FirstNamed([header, field, camelField], c.policy.defaultPrivacyClass)))
  }

  lemma {:induction false} ClassPasses(c: GatewayPolicy, header: Option<string>, field: Option<string>,
                                       camelField: Option<string>)
    ensures PrivacyClassFor(MakeResolver(c), header, field, camelField)
         == if RequestedClass(c, header, field, camelField) in {"standard", "sensitive", "restricted"}
            then Ok(RequestedClass(c, header, field, camelField))
            else Err(UnknownPrivacyClass)
  {
    FirstOfThree(header, field, camelField, c.policy.defaultPrivacyClass);
  }

  /** It passes exactly if it is one of the built-in classes; those are all configured, and the default passes. */
  lemma {:induction false} ClassOfRequest(c: GatewayPolicy, auth: AuthBindings, header: Option<string>,
                                          field: Option<string>, camelField: Option<string>)
    requires Started(c, auth)
    ensures var name := RequestedClass(c, header, field, camelField);
            match PrivacyClassFor(MakeResolver(c), header, field, camelField)
            case Ok(passed) =>
              passed == name && name in {"standard", "sensitive", "restricted"} && NamesClass(c.policy, passed)
            case Err(denial) => denial == UnknownPrivacyClass && name !in {"standard", "sensitive", "restricted"}
    ensures PrivacyClassFor(MakeResolver(c), None, None, None) == Ok(c.policy.defaultPrivacyClass)
  {
    ClassPasses(c, header, field, camelField);
    var answer := PrivacyClassFor(MakeResolver(c), header, field, camelField);
    if answer.Ok? {
      BuiltInNamed(c, auth, answer.value);
    }
    DefaultPasses(c, auth);
  }

  lemma {:induction false} DefaultPasses(c: GatewayPolicy, auth: AuthBindings)
    requires Started(c, auth)
    ensures PrivacyClassFor(MakeResolver(c), None, None, None) == Ok(c.policy.defaultPrivacyClass)
  {
    BuiltInText(c.policy.defaultPrivacyClass);
  }
}
