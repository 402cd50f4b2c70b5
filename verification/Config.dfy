/**
  The routing policy: its typed configuration and its load-time validation
  (gateway/config.py:57-137, 386-526).

  Validation builds dictionaries from lists, last entry wins, and runs checks in loops.  What it
  accepts is stated without any of that, by positions in the lists.
*/
module Config {
  import opened Wrappers

  datatype Endpoint = Endpoint(path: string, methods: seq<string>)

  datatype Route = Route(
    name: string,
    backend: string,
    models: seq<string>,
    allowedEndpoints: seq<Endpoint>,
    local: bool,
    redactBeforeForward: Option<bool>)

  datatype ClassPolicy = ClassPolicy(name: string, redactBeforeForward: Option<bool>)

  datatype TenantPolicy = TenantPolicy(
    tenant: string,
    allowedModels: seq<string>,
    allowedBackends: seq<string>,
    privacyClasses: seq<string>,
    redactBeforeForward: Option<bool>)

  datatype RoutingRule = RoutingRule(
    tenant: string,
    model: string,
    privacyClass: string,
    backend: string,
    redactBeforeForward: Option<bool>)

  datatype RedactPolicy = RedactPolicy(tenants: seq<string>, routes: seq<string>, privacyClasses: seq<string>)

  datatype PolicyConfig = PolicyConfig(
    enabled: bool,
    defaultPrivacyClass: string,
    privacyClasses: seq<ClassPolicy>,
    tenants: seq<TenantPolicy>,
    routingRules: seq<RoutingRule>,
    redactBeforeForward: RedactPolicy)

  /** What validation needs to know of the authentication settings: the tenants of the static keys, and
      whether keys can also come from a key file or from tokens. */
  datatype AuthBindings = AuthBindings(keyTenants: seq<string>, hasKeyFile: bool, jwtEnabled: bool)

  datatype ConfigError =
    | DuplicateTenants
    | NoTenants
    | MissingBindings
    | UnboundTenants
    | TenantWithoutModels(tenant: string)
    | TenantWithoutBackends(tenant: string)
    | UnknownModels(tenant: string)
    | UnknownBackends(tenant: string)
    | UnknownClasses(tenant: string)
    | RedactUnknownTenant(name: string)
    | RedactUnknownBackend(name: string)
    | RedactUnknownClass(name: string)
    | DuplicateRule(rule: RoutingRule)
    | RuleUnknownTenant(rule: RoutingRule)
    | RuleUnknownBackend(rule: RoutingRule)
    | RuleUnknownClass(rule: RoutingRule)
    | ImpossibleRule(rule: RoutingRule)
    | RuleOutsideAllowlist(rule: RoutingRule)
    | RuleToExternalBackend(rule: RoutingRule)
    | WrongClasses
    | UnknownDefaultClass(name: string)

  // ----- Dictionaries from lists -----

  /** `{key(x): x for x in xs}`: a later entry replaces an earlier one with its key. */
  function Dict<K, V>(xs: seq<V>, key: V -> K): map<K, V> {
    if xs == [] then map[]
    else
      var n := |xs| - 1;
      Dict(xs[..n], key)[key(xs[n]) := xs[n]]
  }

  function KeysOf<K, V(==)>(xs: seq<V>, key: V -> K): set<K> {
    set x | x in xs :: key(x)
  }

  /** The last entry with a key. */
  predicate IsLast<K(==), V>(xs: seq<V>, key: V -> K, i: nat) {
    i < |xs| && forall j :: i < j < |xs| ==> key(xs[j]) != key(xs[i])
  }

  lemma {:induction false} DictLast<K, V>(xs: seq<V>, key: V -> K)
    ensures Dict(xs, key).Keys == KeysOf(xs, key)
    ensures forall k :: k in Dict(xs, key) ==> key(Dict(xs, key)[k]) == k && Dict(xs, key)[k] in xs
    ensures forall i: nat :: IsLast(xs, key, i) ==> key(xs[i]) in Dict(xs, key) && Dict(xs, key)[key(xs[i])] == xs[i]
  {
    if xs != [] {
      var n := |xs| - 1;
      DictLast(xs[..n], key);
      assert xs == xs[..n] + [xs[n]];
      forall i: nat | IsLast(xs, key, i)
        ensures key(xs[i]) in Dict(xs, key) && Dict(xs, key)[key(xs[i])] == xs[i]
      {
        if i < n {
          assert IsLast(xs[..n], key, i);
        }
      }
    }
  }

  lemma {:induction false} HasLast<K, V>(xs: seq<V>, key: V -> K, i: nat) returns (last: nat)
    requires i < |xs|
    ensures IsLast(xs, key, last) && key(xs[last]) == key(xs[i])
    decreases |xs| - i
  {
    if IsLast(xs, key, i) {
      last := i;
    } else {
      var j :| i < j < |xs| && key(xs[j]) == key(xs[i]);
      last := HasLast(xs, key, j);
    }
  }

  /** Looking a key up gives the last entry with it. */
  lemma {:induction false} DictIs<K, V>(xs: seq<V>, key: V -> K, k: K)
    ensures k in Dict(xs, key) <==> exists i :: 0 <= i < |xs| && key(xs[i]) == k
    ensures k in Dict(xs, key) ==> exists i: nat :: IsLast(xs, key, i) && key(xs[i]) == k && Dict(xs, key)[k] == xs[i]
  {
    DictLast(xs, key);
    assert Dict(xs, key).Keys == KeysOf(xs, key);
    if k in Dict(xs, key) {
      var i :| 0 <= i < |xs| && xs[i] == Dict(xs, key)[k];
      var last := HasLast(xs, key, i);
      assert Dict(xs, key)[k] == xs[last];
    }
    if i :| 0 <= i < |xs| && key(xs[i]) == k {
      assert xs[i] in xs;
      assert k in KeysOf(xs, key);
    }
  }

  predicate DistinctKeys<K(==), V>(xs: seq<V>, key: V -> K) {
    forall i, j :: 0 <= i < j < |xs| ==> key(xs[i]) != key(xs[j])
  }

  lemma DistinctInit<K, V>(xs: seq<V>, key: V -> K)
    requires xs != []
    ensures var n := |xs| - 1;
            DistinctKeys(xs, key) <==> DistinctKeys(xs[..n], key) && key(xs[n]) !in KeysOf(xs[..n], key)
  {
    var n := |xs| - 1;
    if x :| x in xs[..n] && key(x) == key(xs[n]) {
      var i :| 0 <= i < n && xs[i] == x;
    }
    forall i | 0 <= i < n
      ensures key(xs[i]) in KeysOf(xs[..n], key)
    {
      assert xs[i] in xs[..n];
    }
  }

  /** As many keys as entries exactly when no two entries share a key. */
  lemma {:induction false} DictSize<K, V>(xs: seq<V>, key: V -> K)
    ensures |Dict(xs, key)| <= |xs|
    ensures |Dict(xs, key)| == |xs| <==> DistinctKeys(xs, key)
  {
    if xs != [] {
      var n := |xs| - 1;
      var d := Dict(xs[..n], key);
      DictSize(xs[..n], key);
      DictLast(xs[..n], key);
      DistinctInit(xs, key);
      if key(xs[n]) in d {
        assert d[key(xs[n]) := xs[n]].Keys == d.Keys;
      } else {
        assert d[key(xs[n]) := xs[n]].Keys == d.Keys + {key(xs[n])};
      }
    }
  }

  function RouteName(r: Route): string { r.name }

  function TenantName(t: TenantPolicy): string { t.tenant }

  function ClassName(c: ClassPolicy): string { c.name }

  function RuleKey(r: RoutingRule): (string, string, string) { (r.tenant, r.model, r.privacyClass) }

  // ----- What a good policy is -----

  predicate Confidential(privacyClass: string) {
    privacyClass == "sensitive" || privacyClass == "restricted"
  }

  predicate NamesRoute(routes: seq<Route>, name: string) {
    exists i :: 0 <= i < |routes| && routes[i].name == name
  }

  predicate NamesTenant(p: PolicyConfig, name: string) {
    exists i :: 0 <= i < |p.tenants| && p.tenants[i].tenant == name
  }

  predicate NamesClass(p: PolicyConfig, name: string) {
    exists i :: 0 <= i < |p.privacyClasses| && p.privacyClasses[i].name == name
  }

  predicate SomeRouteServes(routes: seq<Route>, model: string) {
    exists i :: 0 <= i < |routes| && model in routes[i].models
  }

  /** Everything a tenant is allowed exists somewhere. */
  predicate TenantOk(p: PolicyConfig, routes: seq<Route>, t: TenantPolicy) {
    && t.allowedModels != [] && t.allowedBackends != []
    && (forall m :: m in t.allowedModels ==> SomeRouteServes(routes, m))
    && (forall b :: b in t.allowedBackends ==> NamesRoute(routes, b))
    && (forall c :: c in t.privacyClasses ==> NamesClass(p, c))
  }

  /** A rule can be followed: tenant t lets its traffic through, and route r, the last of its name, serves it. */
  predicate RuleFits(rule: RoutingRule, t: TenantPolicy, r: Route) {
    && t.tenant == rule.tenant && r.name == rule.backend
    && rule.model in t.allowedModels && rule.model in r.models
    && rule.backend in t.allowedBackends && rule.privacyClass in t.privacyClasses
    && (rule.privacyClass == "sensitive" || rule.privacyClass == "restricted" ==> r.local)
  }

  predicate RuleOk(p: PolicyConfig, routes: seq<Route>, rule: RoutingRule) {
    && NamesClass(p, rule.privacyClass)
    && (exists i, j ::
          0 <= i < |p.tenants| && 0 <= j < |routes| && IsLast(routes, RouteName, j)
            && RuleFits(rule, p.tenants[i], routes[j]))
  }

  predicate AllKnown(p: PolicyConfig, routes: seq<Route>) {
    && (forall name :: name in p.redactBeforeForward.tenants ==> NamesTenant(p, name))
    && (forall name :: name in p.redactBeforeForward.routes ==> NamesRoute(routes, name))
    && (forall name :: name in p.redactBeforeForward.privacyClasses ==> NamesClass(p, name))
  }

  predicate DistinctTenants(p: PolicyConfig) {
    DistinctKeys(p.tenants, TenantName)
  }

  predicate DistinctRules(rules: seq<RoutingRule>) {
    DistinctKeys(rules, RuleKey)
  }

  predicate BindingsOk(p: PolicyConfig, auth: AuthBindings) {
    && (forall t :: t in auth.keyTenants ==> NamesTenant(p, t))
    && (auth.hasKeyFile || auth.jwtEnabled || forall i ::
                                                  0 <= i < |p.tenants| ==> p.tenants[i].tenant in auth.keyTenants)
  }

  /** The policies validation is meant to accept. */
  predicate WellFormed(p: PolicyConfig, auth: AuthBindings, routes: seq<Route>) {
    && DistinctTenants(p) && p.tenants != []
    && BindingsOk(p, auth)
    && (forall i :: 0 <= i < |p.tenants| ==> TenantOk(p, routes, p.tenants[i]))
    && AllKnown(p, routes)
    && DistinctRules(p.routingRules)
    && (forall i :: 0 <= i < |p.routingRules| ==> RuleOk(p, routes, p.routingRules[i]))
  }

  // ----- What each error says is wrong -----

  predicate TenantFault(e: ConfigError, p: PolicyConfig, routes: seq<Route>, t: TenantPolicy) {
    match e
    case TenantWithoutModels(name) => name == t.tenant && t.allowedModels == []
    case TenantWithoutBackends(name) => name == t.tenant && t.allowedBackends == []
    case UnknownModels(name) => name == t.tenant && exists m :: m in t.allowedModels && !SomeRouteServes(routes, m)
    case UnknownBackends(name) => name == t.tenant && exists b :: b in t.allowedBackends && !NamesRoute(routes, b)
    case UnknownClasses(name) => name == t.tenant && exists c :: c in t.privacyClasses && !NamesClass(p, c)
    case _ => false
  }

  predicate RedactFault(e: ConfigError, p: PolicyConfig, routes: seq<Route>) {
    match e
    case RedactUnknownTenant(name) => name in p.redactBeforeForward.tenants && !NamesTenant(p, name)
    case RedactUnknownBackend(name) => name in p.redactBeforeForward.routes && !NamesRoute(routes, name)
    case RedactUnknownClass(name) => name in p.redactBeforeForward.privacyClasses && !NamesClass(p, name)
    case _ => false
  }

  /** A rule's faults, given the entries its names look up. */
  predicate RuleFault(e: ConfigError, p: PolicyConfig, routes: seq<Route>, rule: RoutingRule) {
    var tenants, backends := Dict(p.tenants, TenantName), Dict(routes, RouteName);
    match e
    case RuleUnknownTenant(r) => r == rule && !NamesTenant(p, r.tenant)
    case RuleUnknownBackend(r) => r == rule && !NamesRoute(routes, r.backend)
    case RuleUnknownClass(r) => r == rule && !NamesClass(p, r.privacyClass)
    case ImpossibleRule(r) =>
      && r == rule && r.tenant in tenants && r.backend in backends
      && (r.model !in tenants[r.tenant].allowedModels || r.model !in backends[r.backend].models)
    case RuleOutsideAllowlist(r) =>
      && r == rule && r.tenant in tenants
      && (r.backend !in tenants[r.tenant].allowedBackends || r.privacyClass !in tenants[r.tenant].privacyClasses)
    case RuleToExternalBackend(r) =>
      && r == rule && r.backend in backends
      && r.privacyClass in {"sensitive", "restricted"} && !backends[r.backend].local
    case _ => false
  }

  predicate RulesFault(e: ConfigError, p: PolicyConfig, routes: seq<Route>) {
    || (exists i, j :: 0 <= i < j < |p.routingRules|
          && e == DuplicateRule(p.routingRules[j]) && RuleKey(p.routingRules[i]) == RuleKey(p.routingRules[j]))
    || (exists i :: 0 <= i < |p.routingRules| && RuleFault(e, p, routes, p.routingRules[i]))
  }

  predicate BindingsFault(e: ConfigError, p: PolicyConfig, auth: AuthBindings) {
    match e
    case DuplicateTenants => !DistinctTenants(p)
    case NoTenants => p.tenants == []
    case MissingBindings => exists t :: t in auth.keyTenants && !NamesTenant(p, t)
    case UnboundTenants =>
      !auth.hasKeyFile && !auth.jwtEnabled && exists i :: 0 <= i < |p.tenants|
                                                && p.tenants[i].tenant !in auth.keyTenants
    case _ => false
  }

  predicate Fault(e: ConfigError, p: PolicyConfig, auth: AuthBindings, routes: seq<Route>) {
    || BindingsFault(e, p, auth)
    || (exists i :: 0 <= i < |p.tenants| && TenantFault(e, p, routes, p.tenants[i]))
    || RedactFault(e, p, routes)
    || RulesFault(e, p, routes)
  }

  // ----- Validation -----

  function ModelsOf(routes: seq<Route>): set<string> {
    set r, m | r in routes && m in r.models :: m
  }

  /** What the dictionaries and sets hold. */
  lemma {:induction false} Lookups(p: PolicyConfig, routes: seq<Route>)
    ensures forall b :: b in Dict(routes, RouteName) <==> NamesRoute(routes, b)
    ensures forall t :: t in Dict(p.tenants, TenantName) <==> NamesTenant(p, t)
    ensures forall c :: c in KeysOf(p.privacyClasses, ClassName) <==> NamesClass(p, c)
    ensures forall m :: m in ModelsOf(routes) <==> SomeRouteServes(routes, m)
  {
    forall b ensures b in Dict(routes, RouteName) <==> NamesRoute(routes, b) {
      DictIs(routes, RouteName, b);
    }
    forall t ensures t in Dict(p.tenants, TenantName) <==> NamesTenant(p, t) {
      DictIs(p.tenants, TenantName, t);
    }
    forall c ensures c in KeysOf(p.privacyClasses, ClassName) <==> NamesClass(p, c) {
      DictIs(p.privacyClasses, ClassName, c);
      DictLast(p.privacyClasses, ClassName);
    }
    forall m ensures m in ModelsOf(routes) <==> SomeRouteServes(routes, m) {
    }
  }

  /** With distinct tenants, a rule is good exactly when the entries its names look up fit it. */
  lemma {:induction false} RuleLookup(p: PolicyConfig, routes: seq<Route>, rule: RoutingRule)
    requires DistinctTenants(p)
    ensures RuleOk(p, routes, rule) <==>
              && NamesClass(p, rule.privacyClass)
              && rule.tenant in Dict(p.tenants, TenantName) && rule.backend in Dict(routes, RouteName)
              && RuleFits(rule, Dict(p.tenants, TenantName)[rule.tenant], Dict(routes, RouteName)[rule.backend])
  {
    DictIs(p.tenants, TenantName, rule.tenant);
    DictIs(routes, RouteName, rule.backend);
    if i, j :|
      0 <= i < |p.tenants| && 0 <= j < |routes| && IsLast(routes, RouteName, j)
        && RuleFits(rule, p.tenants[i], routes[j])
    {
      assert IsLast(p.tenants, TenantName, i);
      DictLast(p.tenants, TenantName);
      DictLast(routes, RouteName);
    }
  }

  function SetOf(xs: seq<string>): set<string> {
    set x | x in xs
  }

  lemma NothingMissing(xs: seq<string>, known: set<string>)
    ensures SetOf(xs) - known == {} <==> forall x :: x in xs ==> x in known
  {
    assert forall x :: x in xs ==> x in SetOf(xs);
    if x :| x in xs && x !in known {
      assert x in SetOf(xs) - known;
    }
  }

  /** The body of the loop over tenants. */
  method CheckTenant(p: PolicyConfig, routes: seq<Route>, t: TenantPolicy,
                     allModels: set<string>, backends: set<string>, classNames: set<string>)
    returns (error: Option<ConfigError>)
    requires allModels == ModelsOf(routes) && backends == Dict(routes, RouteName).Keys
    requires classNames == KeysOf(p.privacyClasses, ClassName)
    ensures error.None? <==> TenantOk(p, routes, t)
    ensures error.Some? ==> TenantFault(error.value, p, routes, t)
  {
    Lookups(p, routes);
    NothingMissing(t.allowedModels, allModels);
    NothingMissing(t.allowedBackends, backends);
    NothingMissing(t.privacyClasses, classNames);
    if t.allowedModels == [] {
      return Some(TenantWithoutModels(t.tenant));
    }
    if t.allowedBackends == [] {
      return Some(TenantWithoutBackends(t.tenant));
    }
    if SetOf(t.allowedModels) - allModels != {} {
      return Some(UnknownModels(t.tenant));
    }
    if SetOf(t.allowedBackends) - backends != {} {
      return Some(UnknownBackends(t.tenant));
    }
    if SetOf(t.privacyClasses) - classNames != {} {
      return Some(UnknownClasses(t.tenant));
    }
    return None;
  }

  method CheckTenants(p: PolicyConfig, routes: seq<Route>) returns (error: Option<ConfigError>)
    ensures error.None? <==> forall i :: 0 <= i < |p.tenants| ==> TenantOk(p, routes, p.tenants[i])
    ensures error.Some? ==> exists i :: 0 <= i < |p.tenants| && TenantFault(error.value, p, routes, p.tenants[i])
  {
    var backends := Dict(routes, RouteName).Keys;
    var allModels := ModelsOf(routes);
    var classNames := KeysOf(p.privacyClasses, ClassName);
    for i := 0 to |p.tenants|
      invariant forall j :: 0 <= j < i ==> TenantOk(p, routes, p.tenants[j])
    {
      error := CheckTenant(p, routes, p.tenants[i], allModels, backends, classNames);
      if error.Some? {
        return;
      }
    }
    return None;
  }

  method CheckRedaction(p: PolicyConfig, routes: seq<Route>) returns (error: Option<ConfigError>)
    ensures error.None? <==> AllKnown(p, routes)
    ensures error.Some? ==> RedactFault(error.value, p, routes)
  {
    var backends := Dict(routes, RouteName);
    var classNames := KeysOf(p.privacyClasses, ClassName);
    var tenantMap := Dict(p.tenants, TenantName);
    var redact := p.redactBeforeForward;
    Lookups(p, routes);
    for i := 0 to |redact.tenants|
      invariant forall j :: 0 <= j < i ==> NamesTenant(p, redact.tenants[j])
    {
      if redact.tenants[i] !in tenantMap {
        assert redact.tenants[i] in redact.tenants;
        return Some(RedactUnknownTenant(redact.tenants[i]));
      }
    }
    for i := 0 to |redact.routes|
      invariant forall j :: 0 <= j < i ==> NamesRoute(routes, redact.routes[j])
    {
      if redact.routes[i] !in backends {
        assert redact.routes[i] in redact.routes;
        return Some(RedactUnknownBackend(redact.routes[i]));
      }
    }
    for i := 0 to |redact.privacyClasses|
      invariant forall j :: 0 <= j < i ==> NamesClass(p, redact.privacyClasses[j])
    {
      if redact.privacyClasses[i] !in classNames {
        assert redact.privacyClasses[i] in redact.privacyClasses;
        return Some(RedactUnknownClass(redact.privacyClasses[i]));
      }
    }
    return None;
  }

  /** The body of the loop over rules, once the rule's key is new. */
  method CheckRule(p: PolicyConfig, routes: seq<Route>, rule: RoutingRule,
                   tenantMap: map<string, TenantPolicy>, backends: map<string, Route>, classNames: set<string>)
    returns (error: Option<ConfigError>)
    requires DistinctTenants(p)
    requires tenantMap == Dict(p.tenants, TenantName) && backends == Dict(routes, RouteName)
    requires classNames == KeysOf(p.privacyClasses, ClassName)
    ensures error.None? <==> RuleOk(p, routes, rule)
    ensures error.Some? ==> RuleFault(error.value, p, routes, rule)
  {
    Lookups(p, routes);
    RuleLookup(p, routes, rule);
    DictIs(p.tenants, TenantName, rule.tenant);
    DictIs(routes, RouteName, rule.backend);
    if rule.tenant !in tenantMap {
      return Some(RuleUnknownTenant(rule));
    }
    if rule.backend !in backends {
      return Some(RuleUnknownBackend(rule));
    }
    if rule.privacyClass !in classNames {
      return Some(RuleUnknownClass(rule));
    }
    var tenant := tenantMap[rule.tenant];
    var backend := backends[rule.backend];
    if rule.model !in tenant.allowedModels || rule.model !in backend.models {
      return Some(ImpossibleRule(rule));
    }
    if rule.backend !in tenant.allowedBackends || rule.privacyClass !in tenant.privacyClasses {
      return Some(RuleOutsideAllowlist(rule));
    }
    if rule.privacyClass in {"sensitive", "restricted"} && !backend.local {
      return Some(RuleToExternalBackend(rule));
    }
    return None;
  }

  ghost predicate SeenKeys(rules: seq<RoutingRule>, i: nat, seen: set<(string, string, string)>)
    requires i <= |rules|
  {
    forall k :: k in seen <==> exists j :: 0 <= j < i && RuleKey(rules[j]) == k
  }

  lemma DistinctNext(rules: seq<RoutingRule>, i: nat, seen: set<(string, string, string)>)
    requires i < |rules| && SeenKeys(rules, i, seen) && DistinctRules(rules[..i])
    ensures RuleKey(rules[i]) in seen ==> !DistinctRules(rules) && exists j ::
                                                                       0 <= j < i && RuleKey(rules[j])
                                                                         == RuleKey(rules[i])
    ensures RuleKey(rules[i]) !in seen ==> DistinctRules(rules[..i + 1])
    ensures SeenKeys(rules, i + 1, seen + {RuleKey(rules[i])})
  {
  }

  /** The rules, one by one, against the keys seen so far. */
  method CheckRules(p: PolicyConfig, routes: seq<Route>) returns (error: Option<ConfigError>)
    requires DistinctTenants(p)
    ensures error.None? <==>
              && DistinctRules(p.routingRules)
              && forall i :: 0 <= i < |p.routingRules| ==> RuleOk(p, routes, p.routingRules[i])
    ensures error.Some? ==> RulesFault(error.value, p, routes)
  {
    var backends := Dict(routes, RouteName);
    var classNames := KeysOf(p.privacyClasses, ClassName);
    var tenantMap := Dict(p.tenants, TenantName);
    var rules := p.routingRules;
    var seenRules: set<(string, string, string)> := {};
    for i := 0 to |rules|
      invariant SeenKeys(rules, i, seenRules)
      invariant DistinctRules(rules[..i])
      invariant forall j :: 0 <= j < i ==> RuleOk(p, routes, rules[j])
    {
      DistinctNext(rules, i, seenRules);
      if RuleKey(rules[i]) in seenRules {
        return Some(DuplicateRule(rules[i]));
      }
      seenRules := seenRules + {RuleKey(rules[i])};
      error := CheckRule(p, routes, rules[i], tenantMap, backends, classNames);
      if error.Some? {
        return;
      }
    }
    assert rules[..|rules|] == rules;
    return None;
  }

  lemma BindingsLookup(p: PolicyConfig, auth: AuthBindings, tenants: set<string>)
    requires tenants == Dict(p.tenants, TenantName).Keys
    ensures BindingsOk(p, auth) <==>
              && SetOf(auth.keyTenants) - tenants == {}
              && (auth.hasKeyFile || auth.jwtEnabled || tenants - SetOf(auth.keyTenants) == {})
  {
    NothingMissing(auth.keyTenants, tenants);
    forall t ensures t in tenants <==> NamesTenant(p, t) {
      DictIs(p.tenants, TenantName, t);
    }
    assert forall i :: 0 <= i < |p.tenants| ==> p.tenants[i].tenant in tenants by {
      assert forall i :: 0 <= i < |p.tenants| ==> NamesTenant(p, p.tenants[i].tenant);
    }
    if t :| t in tenants - SetOf(auth.keyTenants) {
      assert NamesTenant(p, t);
    }
  }

  lemma BindingsFaults(p: PolicyConfig, auth: AuthBindings, tenants: set<string>)
    requires tenants == Dict(p.tenants, TenantName).Keys
    ensures SetOf(auth.keyTenants) - tenants != {} ==> BindingsFault(MissingBindings, p, auth)
    ensures !auth.hasKeyFile && !auth.jwtEnabled && tenants - SetOf(auth.keyTenants) != {} ==>
              BindingsFault(UnboundTenants, p, auth)
  {
    forall t ensures t in tenants <==> NamesTenant(p, t) {
      DictIs(p.tenants, TenantName, t);
    }
    if t :| t in SetOf(auth.keyTenants) - tenants {
      assert t in auth.keyTenants && !NamesTenant(p, t);
    }
    if t :| t in tenants - SetOf(auth.keyTenants) {
      assert NamesTenant(p, t);
    }
  }

  /** `_validate_policy`: the first error it raises, or none for exactly the well-formed policies. */
  method ValidatePolicy(p: PolicyConfig, auth: AuthBindings, routes: seq<Route>) returns (error: Option<ConfigError>)
    ensures error.None? <==> WellFormed(p, auth, routes)
    ensures error.Some? ==> Fault(error.value, p, auth, routes)
  {
    var tenantMap := Dict(p.tenants, TenantName);
    var authTenants := SetOf(auth.keyTenants);
    DictSize(p.tenants, TenantName);
    BindingsLookup(p, auth, tenantMap.Keys);
    BindingsFaults(p, auth, tenantMap.Keys);
    if |tenantMap| != |p.tenants| {
      return Some(DuplicateTenants);
    }
    if p.tenants == [] {
      return Some(NoTenants);
    }
    if authTenants != {} && authTenants - tenantMap.Keys != {} {
      return Some(MissingBindings);
    }
    if !auth.hasKeyFile && !auth.jwtEnabled && tenantMap.Keys - authTenants != {} {
      return Some(UnboundTenants);
    }
    error := CheckTenants(p, routes);
    if error.Some? {
      return;
    }
    error := CheckRedaction(p, routes);
    if error.Some? {
      return;
    }
    error := CheckRules(p, routes);
  }

  // ----- Routes and credentials -----

  /** `_parse_endpoint` and `_parse_route` let it through. */
  predicate EndpointOk(e: Endpoint) {
    "/" <= e.path && e.methods != []
  }

  predicate RouteOk(r: Route) {
    && r.name != "" && r.models != []
    && ("http://" <= r.backend || "https://" <= r.backend)
    && r.allowedEndpoints != [] && (forall e :: e in r.allowedEndpoints ==> EndpointOk(e))
  }

  predicate RoutesOk(routes: seq<Route>) {
    routes != [] && forall r :: r in routes ==> RouteOk(r)
  }

  /** Someone can authenticate. */
  predicate AuthOk(auth: AuthBindings) {
    auth.keyTenants != [] || auth.hasKeyFile || auth.jwtEnabled
  }

  // ----- Parsing -----

  const BuiltInClasses := {"standard", "sensitive", "restricted"}

  const DefaultClasses := [ClassPolicy("standard", None), ClassPolicy("sensitive", None),
                           ClassPolicy("restricted", None)]

  const DisabledPolicy := PolicyConfig(false, "standard", DefaultClasses, [], [], RedactPolicy([], [], []))

  /** A policy the gateway can start with. */
  predicate Loadable(p: PolicyConfig, auth: AuthBindings, routes: seq<Route>) {
    || p == DisabledPolicy
    || (&& p.enabled
        && KeysOf(p.privacyClasses, ClassName) == {"standard", "sensitive", "restricted"}
        && p.defaultPrivacyClass in {"standard", "sensitive", "restricted"}
        && WellFormed(p, auth, routes))
  }

  /** The policy as it will be used: enabled, with the built-in classes if it lists none. */
  function Completed(raw: PolicyConfig): PolicyConfig {
    raw.(enabled := true, privacyClasses := if raw.privacyClasses == [] then DefaultClasses else raw.privacyClasses)
  }

  /** `_parse_policy` on typed fields; no policy section gives the disabled policy. */
  method ParsePolicy(raw: Option<PolicyConfig>, auth: AuthBindings, routes: seq<Route>)
    returns (r: Result<PolicyConfig, ConfigError>)
    ensures r.Ok? ==> Loadable(r.value, auth, routes)
    ensures r.Ok? ==> r.value == if raw.None? then DisabledPolicy else Completed(raw.value)
    ensures r.Ok? && raw.None? ==> !r.value.enabled && r.value.defaultPrivacyClass == "standard"
    ensures r.Ok? && raw.Some? ==>
              && r.value.enabled && r.value.defaultPrivacyClass == raw.value.defaultPrivacyClass
              && r.value.tenants == raw.value.tenants && r.value.routingRules == raw.value.routingRules
              && r.value.redactBeforeForward == raw.value.redactBeforeForward
              && (raw.value.privacyClasses != [] ==> r.value.privacyClasses == raw.value.privacyClasses)
              && (raw.value.privacyClasses == [] ==>
                    r.value.privacyClasses == [ClassPolicy("standard", None), ClassPolicy("sensitive", None),
                                               ClassPolicy("restricted", None)])
    ensures r.Err? ==> raw.Some? && !Loadable(Completed(raw.value), auth, routes)
    ensures r.Err? ==> match r.error
              case WrongClasses =>
                KeysOf(Completed(raw.value).privacyClasses, ClassName) != {"standard", "sensitive", "restricted"}
              case UnknownDefaultClass(name) =>
                name == raw.value.defaultPrivacyClass && name !in {"standard", "sensitive", "restricted"}
              case fault => Fault(fault, Completed(raw.value), auth, routes)
  {
    if raw.None? {
      return Ok(DisabledPolicy);
    }
    var p := Completed(raw.value);
    if KeysOf(p.privacyClasses, ClassName) != BuiltInClasses {
      return Err(WrongClasses);
    }
    if p.defaultPrivacyClass !in BuiltInClasses {
      return Err(UnknownDefaultClass(p.defaultPrivacyClass));
    }
    var error := ValidatePolicy(p, auth, routes);
    if error.Some? {
      return Err(error.value);
    }
    return Ok(p);
  }
}
