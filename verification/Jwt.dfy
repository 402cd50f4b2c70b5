/**
  JSON Web Tokens (gateway/auth.py:135-175): the compact serialization of RFC 7515 section 7.1 with
  HS256, and the registered claims of RFC 7519 section 4.1.

  JSON is library code: a header and a claims set are parsed by functions given as parameters, and
  come out well-typed.
*/
module Jwt {
  import opened Wrappers
  import opened PyText
  import opened Base64Url
  import opened ApiKeys

  datatype JWTConfig = JWTConfig(enabled: bool, issuer: Option<string>, audience: Option<string>)

  datatype Header = Header(alg: Option<string>, kid: Option<string>)

  datatype Audience = NoAudience | One(name: string) | Many(names: seq<string>)

  /** `tenant` and `models` are the claims the configuration names; a missing `exp` reads as 0. */
  datatype Claims = Claims(
    iss: Option<string>, aud: Audience, exp: int, tenant: Option<string>, sub: Option<string>, models: seq<string>)

  datatype Json = Json(header: seq<byte> -> Option<Header>, claims: seq<byte> -> Option<Claims>)

  datatype Verdict = Accepted(principal: Principal) | Rejected | VerifyRaises

  function AudienceMatches(actual: Audience, expected: Option<string>): bool {
    match expected
    case None => false
    case Some(name) =>
      match actual
      case NoAudience => false
      case One(a) => a == name
      case Many(names) => name in names
  }

  /** `claims.get(tenant_claim) or claims.get("sub")`, if that is a non-empty string. */
  function TenantOf(claims: Claims): Option<string> {
    var tenant := if claims.tenant.Some? && claims.tenant.value != "" then claims.tenant else claims.sub;
    if tenant == Some("") then None else tenant
  }

  function CheckClaims(config: JWTConfig, claims: Claims, now: int): Verdict {
    if claims.iss != config.issuer then Rejected
    else if !AudienceMatches(claims.aud, config.audience) then Rejected
    else if claims.exp <= now then Rejected
    else
      match TenantOf(claims)
      case None => Rejected
      case Some(tenant) =>
        Accepted(Principal(if claims.sub.Some? then claims.sub.value else tenant, tenant, claims.models, "jwt"))
  }

  /** A token whose header and claims parsed: its algorithm, key and signature, then its claims. */
  function CheckSigned(c: Crypto, config: JWTConfig, keys: map<string, seq<byte>>, header: Header, claims: Claims,
                       signingInput: string, signatureText: string, now: int): Verdict {
    if header.alg != Some("HS256") || header.kid.None? || header.kid.value !in keys then Rejected
    else
      match Decode(signatureText)
      case None => VerifyRaises
      case Some(signature) =>
        if signature != c.hmac(keys[header.kid.value], signingInput) then Rejected else CheckClaims(config, claims, now)
  }

  /** The JSON of a segment, if it decodes and parses. */
  function Segment<T>(text: string, parse: seq<byte> -> Option<T>): Option<T> {
    match Decode(text)
    case None => None
    case Some(bytes) => parse(bytes)
  }

  /** `verify`, with the key set already loaded. */
  function Verify(c: Crypto, json: Json, config: JWTConfig, keys: map<string, seq<byte>>, token: string,
                  now: int): Verdict {
    if !config.enabled then Rejected
    else
      var parts := Split(token, '.', 2);
      if |parts| != 3 then Rejected
      else
        var header, claims := Segment(parts[0], json.header), Segment(parts[1], json.claims);
        if header.None? || claims.None? then Rejected
        else CheckSigned(c, config, keys, header.value, claims.value, parts[0] + "." + parts[1], parts[2], now)
  }

  // ----- Printing a token and verifying it -----

  /** The compact serialization. */
  function Compact(header: seq<byte>, payload: seq<byte>, signature: seq<byte>): string {
    Encode(header) + "." + (Encode(payload) + "." + Encode(signature))
  }

  lemma {:induction false} NoDot(data: seq<byte>)
    ensures '.' !in Encode(data)
  {
    EncodeShape(data);
  }

  /** The three segments come back as they were printed. */
  lemma {:induction false} CompactSplits(header: seq<byte>, payload: seq<byte>, signature: seq<byte>)
    ensures Split(Compact(header, payload, signature), '.', 2) == [Encode(header), Encode(payload), Encode(signature)]
  {
    NoDot(header);
    NoDot(payload);
    assert "." == ['.'];
    SplitThree(Encode(header), Encode(payload), Encode(signature), '.');
  }

  /** So a printed token survives being stripped. */
  lemma {:induction false} CompactEnds(header: seq<byte>, payload: seq<byte>, signature: seq<byte>)
    ensures var token := Compact(header, payload, signature);
            token != "" && !IsSpace(token[0]) && !IsSpace(token[|token| - 1])
  {
    var first, last := Encode(header), Encode(signature);
    EncodeShape(header);
    EncodeShape(signature);
    var token := Compact(header, payload, signature);
    assert token[0] == if first == "" then '.' else first[0];
    assert token[|token| - 1] == if last == "" then '.' else last[|last| - 1];
  }

  /** What has to hold of a claims set for this principal to be let in. */
  predicate Entitles(config: JWTConfig, claims: Claims, now: int, p: Principal) {
    && claims.iss == config.issuer
    && config.audience.Some?
    && (claims.aud == One(config.audience.value) || (claims.aud.Many? && config.audience.value in claims.aud.names))
    && claims.exp > now
    && p.tenant != ""
    && (claims.tenant == Some(p.tenant)
        || ((claims.tenant == None || claims.tenant == Some("")) && claims.sub == Some(p.tenant)))
    && p.id == (if claims.sub.Some? then claims.sub.value else p.tenant)
    && p.allowedModels == claims.models && p.authType == "jwt"
  }

  lemma {:induction false} ClaimsExact(config: JWTConfig, claims: Claims, now: int, p: Principal)
    ensures CheckClaims(config, claims, now) == Accepted(p) <==> Entitles(config, claims, now, p)
    ensures CheckClaims(config, claims, now) != VerifyRaises
  {
    assert AudienceMatches(claims.aud, config.audience) <==>
        && config.audience.Some?
        && (claims.aud == One(config.audience.value)
            || (claims.aud.Many? && config.audience.value in claims.aud.names));
  }

  predicate KnownKey(keys: map<string, seq<byte>>, header: Header) {
    header.alg == Some("HS256") && header.kid.Some? && header.kid.value in keys
  }

  /** Three segments whose header names HS256 and a known key, and whose claims parse. */
  predicate Readable(json: Json, keys: map<string, seq<byte>>, a: string, b: string) {
    && '.' !in a && '.' !in b
    && Decode(a).Some? && json.header(Decode(a).value).Some?
    && Decode(b).Some? && json.claims(Decode(b).value).Some?
    && KnownKey(keys, json.header(Decode(a).value).value)
  }

  /** A readable token's third segment decodes to its key's MAC over the first two, and its claims entitle the
      principal. */
  predicate Proves(c: Crypto, json: Json, config: JWTConfig, keys: map<string, seq<byte>>, a: string, b: string,
                   s: string, now: int, who: Principal)
    requires Readable(json, keys, a, b)
  {
    && Decode(s) == Some(c.hmac(keys[json.header(Decode(a).value).value.kid.value], a + "." + b))
    && Entitles(config, json.claims(Decode(b).value).value, now, who)
  }

  function Joined(a: string, b: string, s: string): string {
    a + "." + (b + "." + s)
  }

  lemma {:induction false} SignedExact(c: Crypto, config: JWTConfig, keys: map<string, seq<byte>>, header: Header,
                                       claims: Claims, signingInput: string, s: string, now: int, who: Principal)
    ensures CheckSigned(c, config, keys, header, claims, signingInput, s, now) == Accepted(who) <==>
              && KnownKey(keys, header) && Decode(s) == Some(c.hmac(keys[header.kid.value], signingInput))
              && Entitles(config, claims, now, who)
    ensures CheckSigned(c, config, keys, header, claims, signingInput, s, now) == VerifyRaises <==>
              KnownKey(keys, header) && Decode(s).None?
  {
    ClaimsExact(config, claims, now, who);
  }

  /** Verification of three segments, whatever they hold. */
  lemma {:induction false} SegmentsExact(c: Crypto, json: Json, config: JWTConfig, keys: map<string, seq<byte>>,
                                         a: string, b: string, s: string, now: int, who: Principal)
    requires '.' !in a && '.' !in b
    ensures Verify(c, json, config, keys, Joined(a, b, s), now) == Accepted(who) <==>
              config.enabled && Readable(json, keys, a, b) && Proves(c, json, config, keys, a, b, s, now, who)
    ensures Verify(c, json, config, keys, Joined(a, b, s), now) == VerifyRaises <==>
              config.enabled && Readable(json, keys, a, b) && Decode(s).None?
  {
    assert "." == ['.'];
    SplitThree(a, b, s, '.');
    var header, claims := Segment(a, json.header), Segment(b, json.claims);
    if header.Some? && claims.Some? {
      SignedExact(c, config, keys, header.value, claims.value, a + "." + b, s, now, who);
    }
  }

  predicate Proof(c: Crypto, json: Json, config: JWTConfig, keys: map<string, seq<byte>>, token: string,
                  a: string, b: string, s: string, now: int, who: Principal)
  {
    token == Joined(a, b, s) && config.enabled && Readable(json, keys, a, b)
      && Proves(c, json, config, keys, a, b, s, now, who)
  }

  predicate Unreadable(json: Json, config: JWTConfig, keys: map<string, seq<byte>>, token: string, a: string, b: string,
                       s: string) {
    token == Joined(a, b, s) && config.enabled && Readable(json, keys, a, b) && Decode(s).None?
  }

  /** The three segments of a token that is not simply rejected. */
  lemma {:induction false} TokenSplits(c: Crypto, json: Json, config: JWTConfig, keys: map<string, seq<byte>>,
                                       token: string, now: int)
    returns (a: string, b: string, s: string)
    requires Verify(c, json, config, keys, token, now) != Rejected
    ensures token == Joined(a, b, s) && '.' !in a && '.' !in b
  {
    var p := Split(token, '.', 2);
    ThreePieces(token, '.');
    a, b, s := p[0], p[1], p[2];
    assert "." == ['.'];
  }

  lemma {:induction false} AcceptedIsProven(c: Crypto, json: Json, config: JWTConfig, keys: map<string, seq<byte>>,
                                            token: string, now: int, who: Principal)
    requires Verify(c, json, config, keys, token, now) == Accepted(who)
    ensures exists a, b, s :: Proof(c, json, config, keys, token, a, b, s, now, who)
  {
    var a, b, s := TokenSplits(c, json, config, keys, token, now);
    SegmentsExact(c, json, config, keys, a, b, s, now, who);
    assert Proof(c, json, config, keys, token, a, b, s, now, who);
  }

  lemma {:induction false} RaisesIsUnreadable(c: Crypto, json: Json, config: JWTConfig, keys: map<string, seq<byte>>,
                                              token: string, now: int, who: Principal)
    requires Verify(c, json, config, keys, token, now) == VerifyRaises
    ensures exists a, b, s :: Unreadable(json, config, keys, token, a, b, s)
  {
    var a, b, s := TokenSplits(c, json, config, keys, token, now);
    SegmentsExact(c, json, config, keys, a, b, s, now, who);
    assert Unreadable(json, config, keys, token, a, b, s);
  }

  /** Every token: it is accepted for exactly the principal that its three segments prove, and makes verification raise
      exactly if they are readable and the third does not decode. */
  lemma {:induction false} TokenExact(c: Crypto, json: Json, config: JWTConfig, keys: map<string, seq<byte>>,
                                      token: string, now: int, who: Principal)
    ensures Verify(c, json, config, keys, token, now) == Accepted(who) <==>
              exists a, b, s :: Proof(c, json, config, keys, token, a, b, s, now, who)
    ensures Verify(c, json, config, keys, token, now) == VerifyRaises <==>
              exists a, b, s :: Unreadable(json, config, keys, token, a, b, s)
  {
    if Verify(c, json, config, keys, token, now) == Accepted(who) {
      AcceptedIsProven(c, json, config, keys, token, now, who);
    }
    if Verify(c, json, config, keys, token, now) == VerifyRaises {
      RaisesIsUnreadable(c, json, config, keys, token, now, who);
    }
    if a, b, s :| Proof(c, json, config, keys, token, a, b, s, now, who) {
      SegmentsExact(c, json, config, keys, a, b, s, now, who);
    }
    if a, b, s :| Unreadable(json, config, keys, token, a, b, s) {
      SegmentsExact(c, json, config, keys, a, b, s, now, who);
    }
  }

  /** A serialized token never makes verification raise, and is accepted for exactly the principal its claims
      entitle when its header names HS256 and a known key, and its signature is that key's MAC over its first
      two segments. */
  lemma {:induction false} TokenAccepted(c: Crypto, json: Json, config: JWTConfig, keys: map<string, seq<byte>>,
                                         h: seq<byte>, p: seq<byte>, signature: seq<byte>, now: int, who: Principal)
    ensures Verify(c, json, config, keys, Compact(h, p, signature), now) != VerifyRaises
    ensures Verify(c, json, config, keys, Compact(h, p, signature), now) == Accepted(who) <==>
              && config.enabled
              && json.header(h).Some? && json.claims(p).Some?
              && json.header(h).value.alg == Some("HS256")
              && json.header(h).value.kid.Some? && json.header(h).value.kid.value in keys
              && signature == c.hmac(keys[json.header(h).value.kid.value], Encode(h) + "." + Encode(p))
              && Entitles(config, json.claims(p).value, now, who)
  {
    NoDot(h);
    NoDot(p);
    SegmentsExact(c, json, config, keys, Encode(h), Encode(p), Encode(signature), now, who);
    RoundTrip(h);
    RoundTrip(p);
    RoundTrip(signature);
  }
}
