/**
  What a request says, read off its headers and its body, and who it therefore comes from
  (gateway/server.py:95-245, 300-309, 382-398).

  Each reading is stated without the functions that do it: by the text of a header, the bytes of
  the body, the keys of the store and the segments of a token.
*/
module Requests {
  import opened Wrappers
  import opened PyText
  import opened ApiKeys
  import opened Server
  import Base64Url
  import Jwt
  import KeyStore

  // ----- The authorization header -----

  lemma {:induction false} SpaceFound(s: string)
    ensures NoSpace(s[..FindSpace(s)])
    ensures FindSpace(s) < |s| ==> IsSpace(s[FindSpace(s)])
  {
    if s != "" && !IsSpace(s[0]) {
      SpaceFound(s[1..]);
      assert s[..FindSpace(s)] == [s[0]] + s[1..][..FindSpace(s[1..])];
    }
  }

  /** A scheme, a gap and a token. */
  predicate SchemeAndToken(text: string, scheme: string, gap: string, token: string) {
    && text == scheme + gap + token
    && NoSpace(scheme) && gap != "" && AllSpace(gap)
    && (token != "" ==> !IsSpace(token[0]))
  }

  lemma {:induction false} BearerSplits(header: string) returns (scheme: string, gap: string)
    requires Bearer(Some(header)).Some?
    ensures SchemeAndToken(Strip(header), scheme, gap, Bearer(Some(header)).value)
    ensures Lower(scheme) == "bearer"
  {
    var text := Strip(header);
    var i := FindSpace(text);
    SpaceFound(text);
    scheme := text[..i];
    gap := LStripSplits(text[i..]);
    assert text == scheme + text[i..];
    assert gap != "" by {
      assert IsSpace(text[i..][0]);
    }
  }

  lemma {:induction false} FindSpaceAfter(scheme: string, rest: string)
    requires NoSpace(scheme) && rest != "" && IsSpace(rest[0])
    ensures FindSpace(scheme + rest) == |scheme|
  {
    if scheme != "" {
      FindSpaceAfter(scheme[1..], rest);
      assert (scheme + rest)[1..] == scheme[1..] + rest;
    } else {
      assert scheme + rest == rest;
    }
  }

  /** The bearer token of a header is what follows the scheme `bearer`, in any case, and a gap; any other header has
      none. */
  lemma {:induction false} BearerExact(header: string, token: string)
    ensures Bearer(Some(header)) == Some(token) <==>
              exists scheme, gap :: SchemeAndToken(Strip(header), scheme, gap, token)
                && Lower(scheme) == "bearer"
  {
    if Bearer(Some(header)) == Some(token) {
      var scheme, gap := BearerSplits(header);
    }
    if scheme, gap :| SchemeAndToken(Strip(header), scheme, gap, token) && Lower(scheme) == "bearer" {
      var text := Strip(header);
      assert text == scheme + (gap + token);
      FindSpaceAfter(scheme, gap + token);
      LStripGap(gap, token);
      assert text[..|scheme|] == scheme && text[|scheme|..] == gap + token;
    }
  }

  /** The header that a client writes is read back. */
  lemma {:induction false} BearerReads(token: string)
    requires token != "" && !IsSpace(token[0]) && !IsSpace(token[|token| - 1])
    ensures Bearer(Some("Bearer " + token)) == Some(token)
  {
    var text := "Bearer " + token;
    assert text == "" + (text + "") && Padded(text, "", text, "");
    StripExact(text, text);
    assert Lower("Bearer") == "bearer";
    assert SchemeAndToken(text, "Bearer", " ", token);
    BearerExact(text, token);
  }

  /** The header has a bearer token. */
  ghost predicate CarriesToken(header: Option<string>, token: string) {
    header.Some? && exists scheme, gap ::
                      SchemeAndToken(Strip(header.value), scheme, gap, token) && Lower(scheme) == "bearer"
  }

  lemma {:induction false} TokenCarried(header: Option<string>, token: string)
    ensures Bearer(header) == Some(token) <==> CarriesToken(header, token)
  {
    if header.Some? {
      BearerExact(header.value, token);
    }
  }

  /** The key of a request: its bearer token or, if it has none, what `X-Api-Key` holds between white space. */
  ghost predicate Supplies(q: Request, secret: string) {
    && secret != ""
    && (CarriesToken(q.authorization, secret)
        || (&& (forall token :: !CarriesToken(q.authorization, token))
            && q.xApiKey.Some? && exists a, b :: Padded(q.xApiKey.value, a, secret, b)))
  }

  lemma {:induction false} SuppliedKeyExact(q: Request, secret: string)
    ensures SuppliedKey(q) == Some(secret) <==> Supplies(q, secret)
  {
    TokenCarried(q.authorization, secret);
    if Bearer(q.authorization).Some? {
      TokenCarried(q.authorization, Bearer(q.authorization).value);
    }
    forall token
      ensures CarriesToken(q.authorization, token) <==> Bearer(q.authorization) == Some(token)
    {
      TokenCarried(q.authorization, token);
    }
    if q.xApiKey.Some? {
      StripExact(q.xApiKey.value, secret);
    }
  }

  // ----- What the gateway answers itself -----

  predicate AsksHealth(q: Request) {
    q.path == "/healthz" && q.command == "GET"
  }

  predicate AsksMetrics(q: Request, urlPath: string) {
    urlPath == "/metrics" && q.command == "GET"
  }

  /** A request that goes on to be read, with its path. */
  predicate Foreign(g: Settings, q: Request, urlPath: string) {
    && !AsksHealth(q) && g.library.urlPath(q.path) == Some(urlPath)
    && !AsksMetrics(q, urlPath) && urlPath != "/admin/api-keys"
  }

  /** A 200 whose response could be written, or the failure of the write. */
  function WrittenStatus(status: int, write: Outcome<()>): int {
    match write
    case TimedOut => 504
    case OSFailed => 502
    case _ => status
  }

  /** What becomes of an exception. */
  function CaughtStatus(raised: Raised): int {
    match raised
    case PayloadTooLarge => 413
    case BadJSON => 400
    case PolicyDenied => 403
    case Timeout => 504
    case OSFault => 502
    case Uncaught => 500
  }

  /** What is recorded for a request that the gateway answers itself. */
  function OwnStatus(g: Settings, q: Request, w: Surroundings): int {
    if AsksHealth(q) then WrittenStatus(200, w.write)
    else
      match g.library.urlPath(q.path)
      case None => 500
      case Some(urlPath) =>
        if AsksMetrics(q, urlPath) then WrittenStatus(200, w.write)
        else
          match w.admin
          case Ok(status) => status
          case Err(raised) => CaughtStatus(raised)
  }

  /** It answers `/healthz`, `/metrics` and the administration endpoint itself, and what has no path; it asks nobody who
      they are, sends nothing on, and leaves cache and logs alone. */
  lemma {:induction false} OwnExact(g: Settings, s: Shared, q: Request, w: Surroundings)
    requires g.policy.routes != []
    ensures SelfServed(g, q, w).Some? <==> forall urlPath :: !Foreign(g, q, urlPath)
    ensures SelfServed(g, q, w).Some? ==>
              var r := Serve(g, s, q, w);
              && r.status == OwnStatus(g, q, w) && r.backend == "-" && r.forwarded == None && r.limited == None
              && r.state.cache == s.cache && r.state.logs == s.logs
  {
    if SelfServed(g, q, w).None? {
      assert Foreign(g, q, g.library.urlPath(q.path).value);
    } else {
      OwnEnd(g, q, w);
      assert Serve(g, s, q, w).status == FinalStatus(SelfServed(g, q, w).value);
    }
  }

  lemma {:induction false} OwnEnd(g: Settings, q: Request, w: Surroundings)
    requires SelfServed(g, q, w).Some?
    ensures FinalStatus(SelfServed(g, q, w).value) == OwnStatus(g, q, w)
  {
  }

  // ----- What is received -----

  /** The declared length of the body. */
  function Declared(q: Request): Option<int> {
    ParseInt(if q.contentLength.Some? && q.contentLength.value != "" then q.contentLength.value else "0")
  }

  predicate TooLong(g: Settings, q: Request) {
    Declared(q).Some? && Declared(q).value > g.requestLimits.maxBodyBytes
  }

  /** The length allows reading; -1 reads to the end. */
  predicate Announced(g: Settings, q: Request) {
    Declared(q).Some? && -1 <= Declared(q).value <= g.requestLimits.maxBodyBytes
  }

  /** As much of the stream as was declared, all of it if -1 was; so the second size check, after the limiter, can only
      fire for a declared length of -1. */
  predicate BodyIs(g: Settings, q: Request, w: Surroundings, body: seq<Base64Url.byte>) {
    && Announced(g, q) && w.body.Returned? && body <= w.body.value
    && |body| == (if 0 <= Declared(q).value < |w.body.value| then Declared(q).value else |w.body.value|)
  }

  /** What a body says: the object it holds; nothing, for a GET request or without a body. */
  predicate PayloadIs(g: Settings, q: Request, body: seq<Base64Url.byte>, payload: Payload) {
    if q.command == "GET" || body == [] then payload == Payload("", None, None, None, None)
    else g.library.parseObject(body) == Some(payload)
  }

  predicate ReceivedAs(g: Settings, q: Request, w: Surroundings, r: Received) {
    Foreign(g, q, r.urlPath) && BodyIs(g, q, w, r.body) && PayloadIs(g, q, r.body, r.payload)
  }

  /** The body was read and is no JSON object. */
  ghost predicate NotJson(g: Settings, q: Request, w: Surroundings) {
    exists body :: BodyIs(g, q, w, body) && q.command != "GET" && body != [] && g.library.parseObject(body) == None
  }

  /** Reading the body times out or fails. */
  predicate BodyFault(g: Settings, q: Request, w: Surroundings, raised: Raised) {
    Announced(g, q) && ((raised == Timeout && w.body.TimedOut?) || (raised == OSFault && w.body.OSFailed?))
  }

  lemma {:induction false} ReadExact(g: Settings, q: Request, w: Surroundings, body: seq<Base64Url.byte>)
    ensures ReadBody(g.requestLimits, q.contentLength, w.body) == Ok(body) <==> BodyIs(g, q, w, body)
  {
    if BodyIs(g, q, w, body) {
      assert body == w.body.value[..|body|];
      assert w.body.value[..|w.body.value|] == w.body.value;
    }
  }

  /** A request is received exactly as its path, the bytes read and the object in them say. */
  lemma {:induction false} ReceiveExact(g: Settings, q: Request, w: Surroundings, r: Received)
    ensures Receive(g, q, w) == Ok(r) <==> ReceivedAs(g, q, w, r)
  {
    ReadExact(g, q, w, r.body);
  }

  /** And if not, it ends for one of these reasons. */
  lemma {:induction false} NotReceived(g: Settings, q: Request, w: Surroundings)
    requires SelfServed(g, q, w).None? && Receive(g, q, w).Err?
    ensures var end := Receive(g, q, w).error;
            && end.status == 500 && end.raised.Some?
            && (end.raised == Some(PayloadTooLarge) <==> TooLong(g, q))
            && (end.raised == Some(BadJSON) <==> NotJson(g, q, w))
            && (end.raised == Some(Timeout) <==> BodyFault(g, q, w, Timeout))
            && (end.raised == Some(OSFault) <==> BodyFault(g, q, w, OSFault))
            && end.raised != Some(PolicyDenied)
  {
    var read := ReadBody(g.requestLimits, q.contentLength, w.body);
    if read.Ok? {
      ReadExact(g, q, w, read.value);
    }
    forall body | BodyIs(g, q, w, body)
      ensures read == Ok(body)
    {
      ReadExact(g, q, w, body);
    }
  }

  // ----- The limits on what is received -----

  predicate Above(count: Option<Count>, limit: int) {
    count.Some? && count.value.Whole? && count.value.value > limit
  }

  predicate Unreadable(count: Option<Count>) {
    count.Some? && count.value.Overflows?
  }

  /** The body is too long, or `max_tokens` is above its limit, or it is not and `n` is. */
  predicate ExceedsLimits(limits: RequestLimits, payload: Payload, bodySize: nat) {
    || bodySize > limits.maxBodyBytes || Above(payload.maxTokens, limits.maxOutputTokens)
    || (!Unreadable(payload.maxTokens) && Above(payload.n, limits.maxN))
  }

  lemma {:induction false} LimitsExact(limits: RequestLimits, payload: Payload, bodySize: nat)
    ensures CheckLimits(limits, payload, bodySize) == Exceeded <==> ExceedsLimits(limits, payload, bodySize)
    ensures CheckLimits(limits, payload, bodySize) == Within <==>
              && bodySize <= limits.maxBodyBytes
              && !Above(payload.maxTokens, limits.maxOutputTokens) && !Unreadable(payload.maxTokens)
              && !Above(payload.n, limits.maxN) && !Unreadable(payload.n)
  {
  }

  // ----- Who a request comes from -----

  predicate RefreshRaises(g: Settings, c: KeyStore.Cache, w: Surroundings) {
    g.hasKeyFile && KeyStore.Escape(c, false, w.keyStat, w.keyText).Some?
  }

  /** The supplied key is that of a live key in the store, the first that accepts it. */
  ghost predicate StoreGrants(g: Settings, c: KeyStore.Cache, q: Request, w: Surroundings, p: Principal) {
    exists secret, i: nat ::
      && Supplies(q, secret) && !RefreshRaises(g, c, w) && !c.loadError
      && FirstHolds(g.crypto, g.staticKeys + c.keys, secret, p, i)
  }

  /** No key is supplied, or the store has none like it. */
  ghost predicate StoreHasNone(g: Settings, c: KeyStore.Cache, q: Request, w: Surroundings) {
    forall secret :: Supplies(q, secret) ==>
      !RefreshRaises(g, c, w) && (c.loadError || PassedOver(g.crypto, g.staticKeys + c.keys, secret))
  }

  /** The bearer token proves the principal. */
  ghost predicate TokenProves(g: Settings, q: Request, w: Surroundings, p: Principal) {
    exists token, x, y, z ::
      && CarriesToken(q.authorization, token) && token != "" && w.jwtKeys.Returned?
      && Jwt.Proof(g.crypto, g.json, g.jwt, w.jwtKeys.value, token, x, y, z, w.jwtNow, p)
  }

  ghost predicate HasToken(g: Settings, q: Request) {
    g.jwt.enabled && exists token :: CarriesToken(q.authorization, token) && token != ""
  }

  /** Verifying it raises: the token keys are not there, or its signature does not decode. */
  ghost predicate TokenRaises(g: Settings, q: Request, w: Surroundings) {
    || (HasToken(g, q) && !w.jwtKeys.Returned?)
    || exists token, x, y, z ::
         && CarriesToken(q.authorization, token) && token != "" && w.jwtKeys.Returned?
         && Jwt.Unreadable(g.json, g.jwt, w.jwtKeys.value, token, x, y, z)
  }

  lemma {:induction false} StoreExact(g: Settings, c: KeyStore.Cache, q: Request, w: Surroundings, secret: string,
                                      p: Principal)
    requires SuppliedKey(q) == Some(secret)
    ensures var reply := KeyStore.Response(g.crypto, g.staticKeys, g.hasKeyFile, c, secret, w.keyStat, w.keyText);
            && (reply == Ok(Granted(p)) <==> StoreGrants(g, c, q, w, p))
            && (reply == Ok(NoMatch) <==> StoreHasNone(g, c, q, w))
  {
    FindExact(g.crypto, g.staticKeys + c.keys, secret, p);
    forall other
      ensures Supplies(q, other) <==> other == secret
    {
      SuppliedKeyExact(q, other);
    }
  }

  lemma {:induction false} NothingSupplied(g: Settings, c: KeyStore.Cache, q: Request, w: Surroundings)
    requires SuppliedKey(q) == None
    ensures StoreHasNone(g, c, q, w) && forall p :: !StoreGrants(g, c, q, w, p)
  {
    forall secret
      ensures !Supplies(q, secret)
    {
      SuppliedKeyExact(q, secret);
    }
  }

  lemma {:induction false} TokenExact(g: Settings, q: Request, w: Surroundings, p: Principal)
    ensures WhoByToken(g, q, w) == Known(p) <==> TokenProves(g, q, w, p)
    ensures WhoByToken(g, q, w).AuthRaises? <==> TokenRaises(g, q, w)
  {
    forall token
      ensures Bearer(q.authorization) == Some(token) <==> CarriesToken(q.authorization, token)
    {
      TokenCarried(q.authorization, token);
    }
    if Bearer(q.authorization).Some? && w.jwtKeys.Returned? {
      Jwt.TokenExact(g.crypto, g.json, g.jwt, w.jwtKeys.value, Bearer(q.authorization).value, w.jwtNow, p);
    }
  }

  /** A request comes from p exactly if the store grants its key to p or, where the store has no such key, its token
      proves p; from nobody exactly if neither says anything; and otherwise it raises. */
  lemma {:induction false} AuthenticateExact(g: Settings, c: KeyStore.Cache, q: Request, w: Surroundings, p: Principal)
    ensures Authenticate(g, c, q, w) == Known(p) <==>
              StoreGrants(g, c, q, w, p) || (StoreHasNone(g, c, q, w) && TokenProves(g, q, w, p))
    ensures Authenticate(g, c, q, w) == Unknown <==>
              StoreHasNone(g, c, q, w) && !TokenRaises(g, q, w) && forall who :: !TokenProves(g, q, w, who)
  {
    TokenExact(g, q, w, p);
    if SuppliedKey(q).Some? {
      StoreExact(g, c, q, w, SuppliedKey(q).value, p);
    } else {
      NothingSupplied(g, c, q, w);
    }
    if WhoByToken(g, q, w).Known? {
      TokenExact(g, q, w, WhoByToken(g, q, w).principal);
    }
    forall who
      ensures TokenProves(g, q, w, who) <==> WhoByToken(g, q, w) == Known(who)
    {
      TokenExact(g, q, w, who);
    }
  }

  /** Identifying the client times out or fails: the file's stat, or the token keys. */
  ghost predicate IdentityFault(g: Settings, c: KeyStore.Cache, q: Request, w: Surroundings, raised: Raised) {
    || (raised == OSFault && g.hasKeyFile && w.keyStat.StatRaises? && exists secret :: Supplies(q, secret))
    || (StoreHasNone(g, c, q, w) && HasToken(g, q)
        && ((raised == Timeout && w.jwtKeys.TimedOut?) || (raised == OSFault && w.jwtKeys.OSFailed?)))
  }

  lemma {:induction false} IdentityFaultExact(g: Settings, c: KeyStore.Cache, q: Request, w: Surroundings,
                                              raised: Raised)
    requires raised == Timeout || raised == OSFault
    ensures Authenticate(g, c, q, w) == AuthRaises(raised) <==> IdentityFault(g, c, q, w, raised)
  {
    forall token
      ensures Bearer(q.authorization) == Some(token) <==> CarriesToken(q.authorization, token)
    {
      TokenCarried(q.authorization, token);
    }
    if SuppliedKey(q).Some? {
      var secret := SuppliedKey(q).value;
      SuppliedKeyExact(q, secret);
      StoreExact(g, c, q, w, secret, Principal("", "", [], ""));
    } else {
      NothingSupplied(g, c, q, w);
      forall secret
        ensures !Supplies(q, secret)
      {
        SuppliedKeyExact(q, secret);
      }
    }
  }
}
