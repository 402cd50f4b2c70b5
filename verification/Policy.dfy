/**
  Routing decisions (gateway/policy.py): which route serves a request of a tenant for a model in a
  privacy class, and whether its body is redacted first.
*/
module Policy {
  import opened Wrappers
  import opened PyText
  import opened Config

  datatype GatewayPolicy = GatewayPolicy(routes: seq<Route>, policy: PolicyConfig, redactByDefault: bool)

  datatype Decision = Decision(route: Route, privacyClass: string, redactBeforeForward: bool)

  /** Why a request is denied, or the missing dictionary key that would stop the lookup. */
  datatype Denial =
    | UnknownPrivacyClass
    | NoTenantPolicy
    | ModelNotAllowed
    | ClassNotAllowed
    | NoRouteForModel
    | NoRouteForTenant
    | BackendNotAllowed
    | ExternalBackend
    | RestrictedNeedsLocal
    | MissingKey(backend: string)

  // ----- The resolver's dictionaries -----

  datatype Resolver = Resolver(
    config: GatewayPolicy,
    routes: map<string, Route>,
    tenantPolicies: map<string, TenantPolicy>,
    rules: map<(string, string, string), RoutingRule>,
    classPolicies: map<string, ClassPolicy>)

  function MakeResolver(c: GatewayPolicy): Resolver {
    Resolver(c, Dict(c.routes, RouteName), Dict(c.policy.tenants, TenantName),
             Dict(c.policy.routingRules, RuleKey), Dict(c.policy.privacyClasses, ClassName))
  }

  // ----- Redaction -----

  /** `_first_bool` */
  function FirstBool(values: seq<Option<bool>>): bool {
    if values == [] then false
    else if values[0].Some? then values[0].value
    else FirstBool(values[1..])
  }

  function TrueIf(b: bool): Option<bool> {
    if b then Some(true) else None
  }

  function RuleRedaction(rule: Option<RoutingRule>): Option<bool> {
    match rule
    case None => None
    case Some(r) => r.redactBeforeForward
  }

  function ClassRedaction(r: Resolver, privacyClass: string): Option<bool> {
    if privacyClass in r.classPolicies then r.classPolicies[privacyClass].redactBeforeForward else None
  }

  function RedactBeforeForward(r: Resolver, t: TenantPolicy, rule: Option<RoutingRule>, route: Route,
                               privacyClass: string): bool {
    var redact := r.config.policy.redactBeforeForward;
    FirstBool([
      RuleRedaction(rule),
      t.redactBeforeForward,
      route.redactBeforeForward,
      ClassRedaction(r, privacyClass),
      TrueIf(t.tenant in redact.tenants),
      TrueIf(route.name in redact.routes),
      TrueIf(privacyClass in redact.privacyClasses),
      Some(r.config.redactByDefault)])
  }

  // ----- Resolving -----

  /** `privacy_class_for_payload`: the first non-empty of the header and the two payload fields, else the default. */
  function PrivacyClassFor(r: Resolver, header: Option<string>, field: Option<string>, camelField: Option<string>)
    : Result<string, Denial>
  {
    var supplied :=
      if header.Some? && header.value != "" then header.value
      else if field.Some? && field.value != "" then field.value
      else if camelField.Some? && camelField.value != "" then camelField.value
      else r.config.policy.defaultPrivacyClass;
    var privacyClass := Lower(Strip(supplied));
    if privacyClass in BuiltInClasses then Ok(privacyClass) else Err(UnknownPrivacyClass)
  }

  function LegacyRoute(routes: seq<Route>, model: string): Result<Route, Denial> {
    if routes == [] then Err(NoRouteForModel)
    else if model in routes[0].models then Ok(routes[0])
    else LegacyRoute(routes[1..], model)
  }

  /** The first backend of the list that may carry the class and serves the model. */
  function FromAllowlist(routes: map<string, Route>, backends: seq<string>, model: string,
                         privacyClass: string): Result<Route, Denial> {
    if backends == [] then Err(NoRouteForModel)
    else if backends[0] !in routes then Err(MissingKey(backends[0]))
    else
      var route := routes[backends[0]];
      if Confidential(privacyClass) && !route.local then FromAllowlist(routes, backends[1..], model, privacyClass)
      else if model in route.models then Ok(route)
      else FromAllowlist(routes, backends[1..], model, privacyClass)
  }

  function RouteFor(r: Resolver, rule: Option<RoutingRule>, t: TenantPolicy, model: string,
                    privacyClass: string): Result<Route, Denial> {
    match rule
    case Some(x) => if x.backend in r.routes then Ok(r.routes[x.backend]) else Err(MissingKey(x.backend))
    case None => FromAllowlist(r.routes, t.allowedBackends, model, privacyClass)
  }

  function RuleFor(r: Resolver, tenant: string, model: string, privacyClass: string): Option<RoutingRule> {
    var key := (tenant, model, privacyClass);
    if key in r.rules then Some(r.rules[key]) else None
  }

  /** The last checks before a decision leaves the resolver. */
  function LastChecks(t: TenantPolicy, route: Route, privacyClass: string): Option<Denial> {
    if route.name !in t.allowedBackends then Some(BackendNotAllowed)
    else if Confidential(privacyClass) && !route.local then Some(ExternalBackend)
    else if privacyClass == "restricted" && !route.local then Some(RestrictedNeedsLocal)
    else None
  }

  function Resolve(r: Resolver, tenant: string, model: string, privacyClass: string): Result<Decision, Denial> {
    if !r.config.policy.enabled then
      match LegacyRoute(r.config.routes, model)
      case Err(e) => Err(e)
      case Ok(route) => Ok(Decision(route, privacyClass,
                                    FirstBool([route.redactBeforeForward, Some(r.config.redactByDefault)])))
    else if tenant !in r.tenantPolicies then Err(NoTenantPolicy)
    else
      var t := r.tenantPolicies[tenant];
      if model !in t.allowedModels then Err(ModelNotAllowed)
      else if privacyClass !in t.privacyClasses then Err(ClassNotAllowed)
      else
        var rule := RuleFor(r, tenant, model, privacyClass);
        match RouteFor(r, rule, t, model, privacyClass)
        case Err(e) => Err(e)
        case Ok(route) =>
          match LastChecks(t, route, privacyClass)
          case Some(denial) => Err(denial)
          case None => Ok(Decision(route, privacyClass, RedactBeforeForward(r, t, rule, route, privacyClass)))
  }

  /** The first backend of the list that may carry the class. */
  function FirstCarrier(routes: map<string, Route>, backends: seq<string>,
                        privacyClass: string): Result<Route, Denial> {
    if backends == [] then Err(NoRouteForTenant)
    else if backends[0] !in routes then Err(MissingKey(backends[0]))
    else if Confidential(privacyClass)
            && !routes[backends[0]].local then FirstCarrier(routes, backends[1..], privacyClass)
    else Ok(routes[backends[0]])
  }

  function RouteForModelsEndpoint(r: Resolver, tenant: string, privacyClass: string): Result<Decision, Denial>
    requires r.config.routes != []
  {
    if !r.config.policy.enabled then Ok(Decision(r.config.routes[0], privacyClass, r.config.redactByDefault))
    else if tenant !in r.tenantPolicies then Err(NoTenantPolicy)
    else
      var t := r.tenantPolicies[tenant];
      if privacyClass !in t.privacyClasses then Err(ClassNotAllowed)
      else
        match FirstCarrier(r.routes, t.allowedBackends, privacyClass)
        case Err(e) => Err(e)
        case Ok(route) => Ok(Decision(route, privacyClass, RedactBeforeForward(r, t, None, route, privacyClass)))
  }
}
