/**
  A started gateway without keys, asked on a token: what the converse of token authentication says of
  accepted tokens is said of one that reaches a backend.
*/
module TokenGateway {
  import opened Wrappers
  import opened Base64Url
  import opened ApiKeys
  import opened Server
  import opened Requests
  import opened ServerTheorems
  import opened SmallGateway
  import Jwt
  import KeyStore
  import Locality
  import PolicyTheorems
  import RateLimit

  const Claims := Jwt.Claims(Some("issuer"), Jwt.One("gateway"), 1, Some("acme"), None, [])

  const TokenConfig := Jwt.JWTConfig(true, Some("issuer"), Some("gateway"))

  /** Every header names HS256 and the one key, and every payload holds these claims. */
  const TokenJson := Jwt.Json(_ => Some(Jwt.Header(Some("HS256"), Some("k"))), _ => Some(Claims))

  const TokenHolder := Principal("acme", "acme", [], "jwt")

  function Signature(crypto: Crypto, header: seq<byte>, payload: seq<byte>): seq<byte> {
    crypto.hmac([7], Encode(header) + "." + Encode(payload))
  }

  function Token(crypto: Crypto, header: seq<byte>, payload: seq<byte>): string {
    Jwt.Compact(header, payload, Signature(crypto, header, payload))
  }

  function TokenChat(token: string): Request {
    Chat.(authorization := Some("Bearer " + token), xApiKey := None)
  }

  const WithKeys := Quiet.(jwtKeys := Returned(map["k" := [7]]))

  function TokenGateway(crypto: Crypto, redact: seq<byte> -> seq<byte>, isAlnum: char -> bool): Settings {
    SmallGateway.Gateway(SmallPolicy, crypto, TokenJson, redact, isAlnum)
      .(staticKeys := [], jwt := TokenConfig)
  }

  lemma {:induction false} TokenIsAccepted(crypto: Crypto, header: seq<byte>, payload: seq<byte>)
    ensures Jwt.Verify(crypto, TokenJson, TokenConfig, map["k" := [7]], Token(crypto, header, payload), 0)
         == Jwt.Accepted(TokenHolder)
  {
    Jwt.TokenAccepted(crypto, TokenJson, TokenConfig, map["k" := [7]], header, payload,
                      Signature(crypto, header, payload), 0, TokenHolder);
  }

  lemma {:induction false} TokenIsKnown(g: Settings, redact: seq<byte> -> seq<byte>, isAlnum: char -> bool,
                                        header: seq<byte>, payload: seq<byte>)
    requires g == TokenGateway(g.crypto, redact, isAlnum)
    ensures Authenticate(g, KeyStore.FreshCache, TokenChat(Token(g.crypto, header, payload)), WithKeys)
         == Known(TokenHolder)
  {
    Jwt.CompactEnds(header, payload, Signature(g.crypto, header, payload));
    BearerReads(Token(g.crypto, header, payload));
    TokenIsAccepted(g.crypto, header, payload);
  }

  lemma {:induction false} TokenChatIsReceived(g: Settings, redact: seq<byte> -> seq<byte>, isAlnum: char -> bool,
                                               token: string)
    requires g == TokenGateway(g.crypto, redact, isAlnum)
    ensures Receive(g, TokenChat(token), WithKeys) == Ok(Received(PATH, BODY, Parsed))
  {
    assert g.library.urlPath(PATH) == Some(PATH);
    assert SelfServed(g, TokenChat(token), WithKeys) == None;
    assert g.library.parseObject(BODY) == Some(Parsed);
  }

  lemma {:induction false} TokenIsForwarded(g: Settings, s: Shared, redact: seq<byte> -> seq<byte>,
                                            isAlnum: char -> bool, header: seq<byte>, payload: seq<byte>)
    returns (f: Forward)
    requires g == TokenGateway(g.crypto, redact, isAlnum)
    requires s.cache == KeyStore.FreshCache && s.logs == RateLimit.EmptyLogs
    ensures Serve(g, s, TokenChat(Token(g.crypto, header, payload)), WithKeys).forwarded == Some(f)
    ensures f.principal == TokenHolder && f.decision.privacyClass == "restricted" && f.decision.route == OnlyRoute
  {
    var q, r := TokenChat(Token(g.crypto, header, payload)), Received(PATH, BODY, Parsed);
    TokenChatIsReceived(g, redact, isAlnum, Token(g.crypto, header, payload));
    TokenIsKnown(g, redact, isAlnum, header, payload);
    var d := ChatIsRouted(g, r);
    f := Forward(TokenHolder, d, redact(BODY), 0.0);
    PostAllowed(d.route);
    assert Cleared(g, s, q, WithKeys, r, TokenHolder, d);
    assert Sendable(g, s.logs, WithKeys, r, f);
    ForwardedIff(g, s, q, WithKeys, f);
  }

  /** A started gateway without keys forwards a restricted request on a token, for the tenant that its claims name. */
  lemma {:induction false} ForwardsOnToken(crypto: Crypto, redact: seq<byte> -> seq<byte>, isAlnum: char -> bool,
                                           header: seq<byte>, payload: seq<byte>)
    returns (g: Settings, s: Shared, f: Forward)
    ensures PolicyTheorems.Started(g.policy, TokenBindings) && g.policy.policy.enabled && g.staticKeys == []
            && g.jwt.enabled
    ensures Locality.Reached(g, s)
    ensures Serve(g, s, TokenChat(Token(crypto, header, payload)), WithKeys).forwarded == Some(f)
    ensures f.principal == TokenHolder && f.decision.privacyClass == "restricted" && f.decision.route == OnlyRoute
  {
    g := TokenGateway(crypto, redact, isAlnum);
    s := Locality.FreshReached(g);
    Starts();
    f := TokenIsForwarded(g, s, redact, isAlnum, header, payload);
  }
}
