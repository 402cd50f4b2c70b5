/**
  The request pipeline (gateway/server.py:95-248): read, parse, authenticate, route, check, limit,
  forward, and count, over the shared key store, limiter and metrics.

  A request meets the world through `Surroundings`: what reads and writes do, what the key file
  holds, what the clocks say, what the backend answers.  Every value of it is possible.
*/
module Server {
  import opened Wrappers
  import opened PyText
  import opened Base64Url
  import opened ApiKeys
  import opened Policy
  import Config
  import Jwt
  import KeyStore
  import Metrics
  import RateLimit

  // ----- Configuration -----

  datatype RequestLimits = RequestLimits(maxBodyBytes: int, maxOutputTokens: int, maxN: int)

  /** A JSON value read as an integer; an infinite float cannot be. */
  datatype Count = Whole(value: int) | Overflows

  /** The members of the request body that the gateway looks at. */
  datatype Payload = Payload(
    model: string,
    privacyClass: Option<string>,
    camelPrivacyClass: Option<string>,
    maxTokens: Option<Count>,
    n: Option<Count>)

  const EmptyPayload := Payload("", None, None, None, None)

  /** Library code: the path of a URL, if it is one; the object a body holds, if it is one; the redactor. */
  datatype Library = Library(
    urlPath: string -> Option<string>,
    parseObject: seq<byte> -> Option<Payload>,
    redact: seq<byte> -> seq<byte>,
    isAlnum: char -> bool)

  datatype Settings = Settings(
    policy: GatewayPolicy,
    requestLimits: RequestLimits,
    rateLimits: RateLimit.Limits,
    staticKeys: seq<APIKey>,
    hasKeyFile: bool,
    accessLog: bool,
    jwt: Jwt.JWTConfig,
    json: Jwt.Json,
    crypto: Crypto,
    library: Library)

  // ----- One request and its world -----

  datatype Request = Request(
    path: string,
    command: string,
    authorization: Option<string>,
    xApiKey: Option<string>,
    privacyHeader: Option<string>,
    contentLength: Option<string>)

  /** How an operation outside the gateway ends; `Crashed` is any exception that is not an OSError. */
  datatype Outcome<T> = Returned(value: T) | TimedOut | OSFailed | Crashed

  datatype Raised = PayloadTooLarge | BadJSON | PolicyDenied | Timeout | OSFault | Uncaught

  /** What reading the body gives, what the key file holds, the token keys once reloaded, the clocks, the backend's
      status, whether reading the usage out of its answer raises, the first write of a response, the administration
      endpoint, and the writes of the two logs. */
  datatype Surroundings = Surroundings(
    body: Outcome<seq<byte>>,
    keyStat: KeyStore.FileStat,
    keyText: KeyStore.FileText,
    jwtKeys: Outcome<map<string, seq<byte>>>,
    jwtNow: int,
    now: RateLimit.Time,
    backend: Outcome<int>,
    usageRaises: bool,
    write: Outcome<()>,
    admin: Result<int, Raised>,
    logWrite: Outcome<()>,
    auditWrite: Outcome<()>,
    latencyMs: int)

  /** What reaches a backend, and when the limiter let it through. */
  datatype Forward = Forward(principal: Principal, decision: Decision, body: seq<byte>, at: RateLimit.Time)

  /** How the `try` block ends: the status set by then, and the exception that leaves it, if any. */
  datatype End = End(status: int, raised: Option<Raised>)

  function Fault<T>(o: Outcome<T>): Option<Raised> {
    match o
    case Returned(_) => None
    case TimedOut => Some(Timeout)
    case OSFailed => Some(OSFault)
    case Crashed => Some(Uncaught)
  }

  const INTERNAL_SERVER_ERROR := 500

  function Failed(raised: Raised): End {
    End(INTERNAL_SERVER_ERROR, Some(raised))
  }

  /** A status is set, then the response is written. */
  function Answered(status: int, w: Surroundings): End {
    End(status, Fault(w.write))
  }

  /** The `except` clauses; an exception without one leaves the status as it was. */
  function FinalStatus(end: End): int {
    match end.raised
    case None => end.status
    case Some(PayloadTooLarge) => 413
    case Some(BadJSON) => 400
    case Some(PolicyDenied) => 403
    case Some(Timeout) => 504
    case Some(OSFault) => 502
    case Some(Uncaught) => end.status
  }

  /** The members of `http.HTTPStatus`. */
  predicate IsHttpStatus(status: int) {
    || 100 <= status <= 103 || 200 <= status <= 208 || status == 226
    || 300 <= status <= 305 || status == 307 || status == 308
    || 400 <= status <= 418 || 421 <= status <= 426 || status == 428 || status == 429 || status == 431 || status == 451
    || 500 <= status <= 508 || status == 510 || status == 511
  }

  // ----- Reading -----

  /** `_read_body`: a length of -1 reads to the end of the stream, any other negative one is refused. */
  function ReadBody(limits: RequestLimits, contentLength: Option<string>,
                    stream: Outcome<seq<byte>>): Result<seq<byte>, Raised> {
    match ParseInt(if contentLength.Some? && contentLength.value != "" then contentLength.value else "0")
    case None => Err(Uncaught)
    case Some(n) =>
      if n > limits.maxBodyBytes then Err(PayloadTooLarge)
      else if n < -1 then Err(Uncaught)
      else
        match stream
        case Returned(bytes) => Ok(if 0 <= n < |bytes| then bytes[..n] else bytes)
        case TimedOut => Err(Timeout)
        case OSFailed => Err(OSFault)
        case Crashed => Err(Uncaught)
  }

  /** `_parse_json_body` */
  function ParseBody(g: Settings, command: string, body: seq<byte>): Result<Payload, Raised> {
    if command == "GET" || body == [] then Ok(EmptyPayload)
    else
      match g.library.parseObject(body)
      case None => Err(BadJSON)
      case Some(payload) => Ok(payload)
  }

  // ----- Authentication -----

  function FindSpace(s: string): (i: nat)
    ensures i <= |s|
  {
    if s == "" || IsSpace(s[0]) then 0 else 1 + FindSpace(s[1..])
  }

  /** `_extract_bearer` */
  function Bearer(authorization: Option<string>): Option<string> {
    if authorization.None? then None
    else
      var text := Strip(authorization.value);
      var i := FindSpace(text);
      if i < |text| && Lower(text[..i]) == "bearer" then Some(LStrip(text[i..])) else None
  }

  /** `_extract_api_key`; an empty text is no key. */
  function SuppliedKey(q: Request): Option<string> {
    var bearer := Bearer(q.authorization);
    var supplied :=
      if bearer.Some? then bearer
      else if q.xApiKey.Some? then Some(Strip(q.xApiKey.value))
      else None;
    if supplied == Some("") then None else supplied
  }

  datatype Who = Known(principal: Principal) | Unknown | AuthRaises(raised: Raised)

  function Refreshed(g: Settings, c: KeyStore.Cache, w: Surroundings): KeyStore.Cache {
    if g.hasKeyFile then KeyStore.Reload(c, false, w.keyStat, w.keyText) else c
  }

  /** The key cache after a request: refreshed if the request supplies a key. */
  function CacheAfter(g: Settings, c: KeyStore.Cache, q: Request, w: Surroundings): KeyStore.Cache {
    if SuppliedKey(q).Some? then Refreshed(g, c, w) else c
  }

  function WhoByToken(g: Settings, q: Request, w: Surroundings): Who {
    match Bearer(q.authorization)
    case None => Unknown
    case Some("") => Unknown
    case Some(token) =>
      if !g.jwt.enabled then Unknown
      else
        match w.jwtKeys
        case TimedOut => AuthRaises(Timeout)
        case OSFailed => AuthRaises(OSFault)
        case Crashed => AuthRaises(Uncaught)
        case Returned(keys) =>
          match Jwt.Verify(g.crypto, g.json, g.jwt, keys, token, w.jwtNow)
          case Accepted(principal) => Known(principal)
          case Rejected => Unknown
          case VerifyRaises => AuthRaises(Uncaught)
  }

  function EscapedRaises(escaped: KeyStore.Escaped): Raised {
    if escaped.StatError? then OSFault else Uncaught
  }

  /** `_authenticate`, after the refresh: a key of the store, or else a token. */
  function Authenticate(g: Settings, c: KeyStore.Cache, q: Request, w: Surroundings): Who {
    match SuppliedKey(q)
    case None => WhoByToken(g, q, w)
    case Some(supplied) =>
      match KeyStore.Response(g.crypto, g.staticKeys, g.hasKeyFile, c, supplied, w.keyStat, w.keyText)
      case Err(escaped) => AuthRaises(EscapedRaises(escaped))
      case Ok(Granted(principal)) => Known(principal)
      case Ok(LookupRaises) => AuthRaises(Uncaught)
      case Ok(NoMatch) => WhoByToken(g, q, w)
  }

  // ----- Routing and checks -----

  function Decide(r: Resolver, q: Request, urlPath: string, payload: Payload, tenant: string): Result<Decision, Denial>
    requires r.config.routes != []
  {
    match PrivacyClassFor(r, q.privacyHeader, payload.privacyClass, payload.camelPrivacyClass)
    case Err(denial) => Err(denial)
    case Ok(privacyClass) =>
      if q.command == "GET" && urlPath == "/v1/models" then RouteForModelsEndpoint(r, tenant, privacyClass)
      else Resolve(r, tenant, payload.model, privacyClass)
  }

  /** A missing dictionary key is a KeyError, which nothing catches. */
  function DenialRaises(denial: Denial): Raised {
    if denial.MissingKey? then Uncaught else PolicyDenied
  }

  /** `_is_endpoint_allowed` */
  predicate EndpointAllowed(route: Config.Route, urlPath: string, command: string) {
    exists i :: 0 <= i < |route.allowedEndpoints| && route.allowedEndpoints[i].path == urlPath
      && command in route.allowedEndpoints[i].methods
  }

  predicate ModelAllowed(principal: Principal, model: string) {
    model == "" || principal.allowedModels == [] || model in principal.allowedModels
  }

  datatype LimitCheck = Within | Exceeded | CheckRaises

  function CheckCount(count: Option<Count>, limit: int): LimitCheck {
    match count
    case None => Within
    case Some(Overflows) => CheckRaises
    case Some(Whole(v)) => if v > limit then Exceeded else Within
  }

  /** `_validate_limits` */
  function CheckLimits(limits: RequestLimits, payload: Payload, bodySize: nat): LimitCheck {
    if bodySize > limits.maxBodyBytes then Exceeded
    else if CheckCount(payload.maxTokens, limits.maxOutputTokens) != Within
            then CheckCount(payload.maxTokens, limits.maxOutputTokens)
    else CheckCount(payload.n, limits.maxN)
  }

  // ----- The pipeline -----

  /** What an attempt at a request did: the logs it left, how it ended, the backend it had chosen, the limiter call it
      made, and what it forwarded. */
  datatype Attempt = Attempt(
    logs: RateLimit.Logs, end: End, backend: string, limited: Option<RateLimit.Arrival>, forwarded: Option<Forward>)

  function Stopped(logs: RateLimit.Logs, end: End, backend: string): Attempt {
    Attempt(logs, end, backend, None, None)
  }

  function BackendEnd(w: Surroundings): End {
    match w.backend
    case Returned(status) =>
      if !IsHttpStatus(status) then Failed(Uncaught)
      else if w.usageRaises then End(status, Some(Uncaught))
      else Answered(status, w)
    case TimedOut => Failed(Timeout)
    case OSFailed => Failed(OSFault)
    case Crashed => Failed(Uncaught)
  }

  /** From a decision on. */
  function Admit(g: Settings, logs: RateLimit.Logs, q: Request, w: Surroundings, received: Received,
                 principal: Principal, d: Decision): Attempt {
    if !EndpointAllowed(d.route, received.urlPath, q.command) || !ModelAllowed(principal, received.payload.model)
    then Stopped(logs, Answered(403, w), d.route.name)
    else
      var step := RateLimit.AllowStep(g.rateLimits, logs, principal.tenant, w.now);
      var limited := Some(RateLimit.Arrival(principal.tenant, w.now));
      if step.verdict != RateLimit.Admitted then Attempt(step.logs, Answered(429, w), d.route.name, limited, None)
      else
        match CheckLimits(g.requestLimits, received.payload, |received.body|)
        case Exceeded => Attempt(step.logs, Answered(400, w), d.route.name, limited, None)
        case CheckRaises => Attempt(step.logs, Failed(Uncaught), d.route.name, limited, None)
        case Within =>
          var sent := if d.redactBeforeForward then g.library.redact(received.body) else received.body;
          Attempt(step.logs, BackendEnd(w), d.route.name, limited, Some(Forward(principal, d, sent, w.now)))
  }

  lemma {:induction false} AdmitBackend(g: Settings, logs: RateLimit.Logs, q: Request, w: Surroundings, r: Received,
                                        p: Principal, d: Decision)
    ensures Admit(g, logs, q, w, r, p, d).backend == d.route.name
  {
  }

  /** A request that reads no body and asks no one's permission, answered by the gateway itself. */
  function SelfServed(g: Settings, q: Request, w: Surroundings): Option<End> {
    if q.path == "/healthz" && q.command == "GET" then Some(Answered(200, w))
    else
      match g.library.urlPath(q.path)
      case None => Some(Failed(Uncaught))
      case Some(urlPath) =>
        if urlPath == "/metrics" && q.command == "GET" then Some(Answered(200, w))
        else if urlPath == "/admin/api-keys" then
          match w.admin
          case Ok(status) => Some(End(status, None))
          case Err(raised) => Some(Failed(raised))
        else None
  }

  datatype Received = Received(urlPath: string, body: seq<byte>, payload: Payload)

  function Receive(g: Settings, q: Request, w: Surroundings): Result<Received, End> {
    match SelfServed(g, q, w)
    case Some(end) => Err(end)
    case None =>
      match ReadBody(g.requestLimits, q.contentLength, w.body)
      case Err(raised) => Err(Failed(raised))
      case Ok(body) =>
        match ParseBody(g, q.command, body)
        case Err(raised) => Err(Failed(raised))
        case Ok(payload) => Ok(Received(g.library.urlPath(q.path).value, body, payload))
  }

  datatype Shared = Shared(cache: KeyStore.Cache, logs: RateLimit.Logs, counters: Metrics.Counters)

  /** A finished request: what it left behind, its status, the backend it had chosen, the limiter call, the
      forwarding. */
  datatype Served = Served(
    state: Shared, status: int, backend: string, limited: Option<RateLimit.Arrival>, forwarded: Option<Forward>)

  /** Who asks, and where the request goes; or how it ends without a decision. */
  function Prepared(g: Settings, c: KeyStore.Cache, q: Request, w: Surroundings,
                    received: Received): Result<(Principal, Decision), End>
    requires g.policy.routes != []
  {
    match Authenticate(g, c, q, w)
    case Unknown => Err(Answered(401, w))
    case AuthRaises(raised) => Err(Failed(raised))
    case Known(principal) =>
      match Decide(MakeResolver(g.policy), q, received.urlPath, received.payload, principal.tenant)
      case Err(denial) => Err(Failed(DenialRaises(denial)))
      case Ok(d) => Ok((principal, d))
  }

  /** The `try` block after the request has been received, or could not be, with the cache it leaves. */
  function Conclude(g: Settings, s: Shared, q: Request, w: Surroundings,
                    received: Result<Received, End>): (KeyStore.Cache, Attempt)
    requires g.policy.routes != []
  {
    match received
    case Err(end) => (s.cache, Stopped(s.logs, end, "-"))
    case Ok(r) =>
      var cache := CacheAfter(g, s.cache, q, w);
      match Prepared(g, cache, q, w, r)
      case Err(end) => (cache, Stopped(s.logs, end, "-"))
      case Ok(ready) => (cache, Admit(g, s.logs, q, w, r, ready.0, ready.1))
  }

  function Try(g: Settings, s: Shared, q: Request, w: Surroundings): (KeyStore.Cache, Attempt)
    requires g.policy.routes != []
  {
    Conclude(g, s, q, w, Receive(g, q, w))
  }

  function Observed(q: Request, w: Surroundings, a: Attempt): Metrics.Observation {
    Metrics.Observation(q.path, a.backend, FinalStatus(a.end), w.latencyMs)
  }

  /** Both logs were written; if either write raises, the request goes unobserved. */
  predicate Logged(g: Settings, w: Surroundings) {
    (g.accessLog ==> w.logWrite.Returned?) && w.auditWrite.Returned?
  }

  function Serve(g: Settings, s: Shared, q: Request, w: Surroundings): Served
    requires g.policy.routes != []
  {
    var (cache, a) := Try(g, s, q, w);
    var counters :=
      if Logged(g, w) then Metrics.ObserveStep(g.library.isAlnum, s.counters, Observed(q, w, a)) else s.counters;
    Served(Shared(cache, a.logs, counters), FinalStatus(a.end), a.backend, a.limited, a.forwarded)
  }

  function InitialState(g: Settings, keyStat: KeyStore.FileStat, keyText: KeyStore.FileText): Shared {
    Shared(if g.hasKeyFile then KeyStore.Reload(KeyStore.FreshCache, true, keyStat, keyText) else KeyStore.FreshCache,
           RateLimit.EmptyLogs, Metrics.Recorded(g.library.isAlnum, []))
  }

  // ----- The handler -----

  class Gateway {
    const g: Settings
    const keyStore: KeyStore.APIKeyStore
    const limiter: RateLimit.TenantRateLimiter
    const metrics: Metrics.MetricsRegistry

    /** `make_handler`: one store, limiter and registry shared by every request. */
    constructor (g: Settings, keyStat: KeyStore.FileStat, keyText: KeyStore.FileText)
      requires g.policy.routes != []
      requires g.hasKeyFile ==> KeyStore.Escape(KeyStore.FreshCache, true, keyStat, keyText) == None
      ensures Valid() && this.g == g && State() == InitialState(g, keyStat, keyText)
    {
      this.g := g;
      keyStore := new KeyStore.APIKeyStore(g.staticKeys, g.hasKeyFile, keyStat, keyText);
      limiter := new RateLimit.TenantRateLimiter(g.rateLimits.perMinute, g.rateLimits.perDay);
      metrics := new Metrics.MetricsRegistry(g.library.isAlnum);
    }

    ghost predicate Valid() {
      && keyStore.staticKeys == g.staticKeys && keyStore.hasPath == g.hasKeyFile
      && limiter.Limiter() == g.rateLimits
      && metrics.isAlnum == g.library.isAlnum
      && g.policy.routes != []
    }

    function State(): Shared
      reads keyStore, limiter, metrics
    {
      Shared(keyStore.State(), limiter.State(), metrics.State())
    }

    method Identify(q: Request, w: Surroundings) returns (who: Who)
      requires Valid()
      modifies keyStore
      ensures keyStore.State() == CacheAfter(g, old(keyStore.State()), q, w)
      ensures who == Authenticate(g, keyStore.State(), q, w)
    {
      var supplied := SuppliedKey(q);
      if supplied.Some? {
        var answer := keyStore.Authenticate(g.crypto, supplied.value, w.keyStat, w.keyText);
        if answer.Err? {
          return AuthRaises(EscapedRaises(answer.error));
        }
        if answer.value.Granted? {
          return Known(answer.value.principal);
        }
        if answer.value.LookupRaises? {
          return AuthRaises(Uncaught);
        }
      }
      return WhoByToken(g, q, w);
    }

    /** The `try` block up to the decision: who asks, and where the request goes. */
    method Prepare(q: Request, w: Surroundings, received: Received)
      returns (status: int, raised: Option<Raised>, ready: Option<(Principal, Decision)>)
      requires Valid()
      modifies keyStore
      ensures keyStore.State() == CacheAfter(g, old(keyStore.State()), q, w)
      ensures Prepared(g, keyStore.State(), q, w, received)
           == match ready
              case None => Err(End(status, raised))
              case Some(pair) => Ok(pair)
    {
      status, raised, ready := INTERNAL_SERVER_ERROR, None, None;
      var who := Identify(q, w);
      if who.Unknown? {
        status := 401;
        raised := Fault(w.write);
        return;
      }
      if who.AuthRaises? {
        raised := Some(who.raised);
        return;
      }
      var decided := Decide(MakeResolver(g.policy), q, received.urlPath, received.payload, who.principal.tenant);
      if decided.Err? {
        raised := Some(DenialRaises(decided.error));
        return;
      }
      ready := Some((who.principal, decided.value));
    }

    /** The `try` block from the decision on. */
    method Relay(q: Request, w: Surroundings, received: Received, principal: Principal, decision: Decision)
      returns (status: int, raised: Option<Raised>, forwarded: Option<Forward>)
      requires Valid()
      modifies limiter
      ensures var a := Admit(g, old(limiter.State()), q, w, received, principal, decision);
              limiter.State() == a.logs && End(status, raised) == a.end && forwarded == a.forwarded
    {
      status, raised, forwarded := INTERNAL_SERVER_ERROR, None, None;
      var model := received.payload.model;
      if !EndpointAllowed(decision.route, received.urlPath, q.command) {
        status := 403;
        raised := Fault(w.write);
        return;
      }
      if model != "" && principal.allowedModels != [] && model !in principal.allowedModels {
        status := 403;
        raised := Fault(w.write);
        return;
      }
      var allowed := limiter.Allow(principal.tenant, w.now);
      if !allowed {
        status := 429;
        raised := Fault(w.write);
        return;
      }
      var limitError := CheckLimits(g.requestLimits, received.payload, |received.body|);
      if limitError.Exceeded? {
        status := 400;
        raised := Fault(w.write);
        return;
      }
      if limitError.CheckRaises? {
        raised := Some(Uncaught);
        return;
      }
      var forwardBody := if decision.redactBeforeForward then g.library.redact(received.body) else received.body;
      forwarded := Some(Forward(principal, decision, forwardBody, w.now));
      if !w.backend.Returned? {
        raised := Fault(w.backend);
        return;
      }
      if !IsHttpStatus(w.backend.value) {
        raised := Some(Uncaught);
        return;
      }
      status := w.backend.value;
      raised := if w.usageRaises then Some(Uncaught) else Fault(w.write);
    }

    /** The rest of the `try` block: the status and the backend's name as set when it ends, and the exception that
        ended it. */
    method Attempt(q: Request, w: Surroundings, received: Result<Received, End>)
      returns (status: int, raised: Option<Raised>, backendName: string, forwarded: Option<Forward>)
      requires Valid()
      modifies keyStore, limiter
      ensures metrics.State() == old(metrics.State())
      ensures var (cache, a) := Conclude(g, old(State()), q, w, received);
              && keyStore.State() == cache && limiter.State() == a.logs
              && End(status, raised) == a.end && backendName == a.backend && forwarded == a.forwarded
    {
      if received.Err? {
        return received.error.status, received.error.raised, "-", None;
      }
      var ready;
      status, raised, ready := Prepare(q, w, received.value);
      if ready.None? {
        assert Conclude(g, old(State()), q, w, received)
            == (keyStore.State(), Stopped(limiter.State(), End(status, raised), "-"));
        return status, raised, "-", None;
      }
      var (principal, decision) := ready.value;
      backendName := decision.route.name;
      assert Conclude(g, old(State()), q, w, received)
          == (keyStore.State(), Admit(g, limiter.State(), q, w, received.value, principal, decision));
      AdmitBackend(g, limiter.State(), q, w, received.value, principal, decision);
      status, raised, forwarded := Relay(q, w, received.value, principal, decision);
    }

    /** `_handle` */
    method Handle(q: Request, w: Surroundings) returns (status: int, forwarded: Option<Forward>)
      requires Valid()
      modifies keyStore, limiter, metrics
      ensures var r := Serve(g, old(State()), q, w);
              State() == r.state && status == r.status && forwarded == r.forwarded
    {
      var received := Receive(g, q, w);
      var s, raised, backendName, sent := Attempt(q, w, received);
      status := s;
      match raised {
        case None =>
        case Some(PayloadTooLarge) => status := 413;
        case Some(BadJSON) => status := 400;
        case Some(PolicyDenied) => status := 403;
        case Some(Timeout) => status := 504;
        case Some(OSFault) => status := 502;
        case Some(Uncaught) =>
      }
      forwarded := sent;
      if g.accessLog && !w.logWrite.Returned? {
        return;
      }
      if !w.auditWrite.Returned? {
        return;
      }
      metrics.Observe(Metrics.Observation(q.path, backendName, status, w.latencyMs));
    }
  }
}
