/**
  API keys: how a secret is hashed to text, how a supplied secret is matched against a key, and
  how a list of keys is searched (gateway/auth.py:34-43, 129-132, 195-223).

  PBKDF2 and HMAC are library code: they are fields of `Crypto`, about which nothing is known
  except what a lemma says it needs.
*/
module ApiKeys {
  import opened Wrappers
  import opened PyText
  import opened Base64Url

  datatype Crypto = Crypto(
    pbkdf2: (string, seq<byte>, int) -> seq<byte>,
    hmac: (seq<byte>, string) -> seq<byte>)

  datatype APIKey = APIKey(
    id: string,
    secret: string,
    tenant: string,
    allowedModels: seq<string>,
    secretHash: Option<string>,
    revoked: bool)

  datatype Principal = Principal(id: string, tenant: string, allowedModels: seq<string>, authType: string)

  const ALGORITHM := "pbkdf2_sha256"
  const ROUNDS := 210000

  /** `hash_api_key`, with its random salt as a parameter. */
  function HashApiKey(c: Crypto, plaintext: string, salt: seq<byte>): string {
    ALGORITHM + "$" + ("210000" + "$" + (Encode(salt) + "$" + Encode(c.pbkdf2(plaintext, salt, ROUNDS))))
  }

  /** A comparison has an answer, or an exception leaves the function. */
  datatype Match = Answer(matches: bool) | Raises

  /** `_matches_key` */
  function MatchesKey(c: Crypto, key: APIKey, supplied: string): Match {
    if key.secret != "" && !(Ascii(supplied) && Ascii(key.secret)) then Raises
    else if key.secret != "" && supplied == key.secret then Answer(true)
    else MatchesHash(c, key.secretHash, supplied)
  }

  function MatchesHash(c: Crypto, secretHash: Option<string>, supplied: string): Match {
    if secretHash.None? || secretHash.value == "" then Answer(false)
    else
      var parts := Split(secretHash.value, '$', 3);
      if |parts| != 4 || parts[0] != ALGORITHM then Answer(false)
      else
        match (Decode(parts[2]), ParseInt(parts[1]), Decode(parts[3]))
        case (Some(salt), Some(rounds), Some(digest)) =>
          if rounds < 1 then Raises else Answer(digest == c.pbkdf2(supplied, salt, rounds))
        case _ => Raises
  }

  // ----- Printing and parsing a hash -----

  lemma {:induction false} NoDollar(data: seq<byte>)
    ensures '$' !in Encode(data)
  {
    EncodeShape(data);
  }

  /** The printed hash splits into the four things it was printed from. */
  lemma {:induction false} HashSplits(c: Crypto, plaintext: string, salt: seq<byte>)
    ensures Split(HashApiKey(c, plaintext, salt), '$', 3)
         == ["pbkdf2_sha256", "210000", Encode(salt), Encode(c.pbkdf2(plaintext, salt, 210000))]
  {
    NoDollar(salt);
    assert "$" == ['$'];
    SplitFour(ALGORITHM, "210000", Encode(salt), Encode(c.pbkdf2(plaintext, salt, ROUNDS)), '$');
  }

  lemma {:induction false} RoundsParse()
    ensures ParseInt("210000") == Some(ROUNDS)
  {
    assert Decimal(21) == "21" && Decimal(210) == "210" && Decimal(2100) == "2100";
    assert Decimal(21000) == "21000" && Decimal(210000) == "210000";
    IntOfDecimal(210000, "", "");
    assert "" + ("210000" + "") == "210000";
  }

  /** A key stored as a printed hash accepts exactly the secrets whose digest under the recorded salt is the
      recorded digest, and never raises. */
  lemma {:induction false} HashRoundTrip(c: Crypto, key: APIKey, plaintext: string, salt: seq<byte>, supplied: string)
    requires key.secret == "" && key.secretHash == Some(HashApiKey(c, plaintext, salt))
    ensures MatchesKey(c, key, supplied)
         == Answer(c.pbkdf2(plaintext, salt, 210000) == c.pbkdf2(supplied, salt, 210000))
  {
    HashSplits(c, plaintext, salt);
    RoundsParse();
    RoundTrip(salt);
    RoundTrip(c.pbkdf2(plaintext, salt, ROUNDS));
  }

  // ----- Which secrets a key accepts -----

  /** A text in the form of a stored hash, by its pieces. */
  predicate HashText(hash: string, rounds: string, salt: string, digest: string) {
    hash == "pbkdf2_sha256$" + (rounds + "$" + (salt + "$" + digest)) && '$' !in rounds && '$' !in salt
  }

  /** Its rounds are a positive number, and salt and digest decode. */
  predicate Usable(rounds: string, salt: string, digest: string) {
    ParseInt(rounds).Some? && ParseInt(rounds).value >= 1 && Decode(salt).Some? && Decode(digest).Some?
  }

  /** The stored hash records the digest of this text, under its own salt and rounds. */
  ghost predicate HashAccepts(c: Crypto, secretHash: Option<string>, supplied: string) {
    exists rounds, salt, digest ::
      && secretHash.Some? && HashText(secretHash.value, rounds, salt, digest) && Usable(rounds, salt, digest)
      && Decode(digest).value == c.pbkdf2(supplied, Decode(salt).value, ParseInt(rounds).value)
  }

  ghost predicate HashBroken(secretHash: Option<string>) {
    exists rounds, salt, digest ::
      secretHash.Some? && HashText(secretHash.value, rounds, salt, digest) && !Usable(rounds, salt, digest)
  }

  /** A key that is stored in plain text cannot be compared with this text. */
  predicate Incomparable(key: APIKey, supplied: string) {
    key.secret != "" && !(Ascii(supplied) && Ascii(key.secret))
  }

  /** The key is the supplied text itself, or its hash is that of the text. */
  ghost predicate Accepts(c: Crypto, key: APIKey, supplied: string) {
    && !Incomparable(key, supplied)
    && ((key.secret != "" && supplied == key.secret) || HashAccepts(c, key.secretHash, supplied))
  }

  /** Comparing raises: the texts cannot be compared, or they differ and the hash cannot be used. */
  ghost predicate Breaks(key: APIKey, supplied: string) {
    Incomparable(key, supplied) || (!(key.secret != "" && supplied == key.secret) && HashBroken(key.secretHash))
  }

  lemma {:induction false} PiecesOf(hash: string, rounds: string, salt: string, digest: string)
    ensures HashText(hash, rounds, salt, digest) <==> Split(hash, '$', 3) == ["pbkdf2_sha256", rounds, salt, digest]
  {
    assert "$" == ['$'];
    assert "pbkdf2_sha256$" == "pbkdf2_sha256" + "$";
    if HashText(hash, rounds, salt, digest) {
      SplitFour("pbkdf2_sha256", rounds, salt, digest, '$');
      assert hash == "pbkdf2_sha256" + ['$'] + (rounds + ['$'] + (salt + ['$'] + digest));
    }
    if Split(hash, '$', 3) == ["pbkdf2_sha256", rounds, salt, digest] {
      FourPieces(hash, '$');
      assert hash == "pbkdf2_sha256" + ['$'] + (rounds + ['$'] + (salt + ['$'] + digest));
    }
  }

  lemma {:induction false} HashExact(c: Crypto, secretHash: Option<string>, supplied: string)
    ensures MatchesHash(c, secretHash, supplied) == Answer(true) <==> HashAccepts(c, secretHash, supplied)
    ensures MatchesHash(c, secretHash, supplied) == Raises <==> HashBroken(secretHash)
  {
    if secretHash.Some? {
      var parts := Split(secretHash.value, '$', 3);
      if |parts| == 4 && parts[0] == "pbkdf2_sha256" {
        assert parts == ["pbkdf2_sha256", parts[1], parts[2], parts[3]];
        PiecesOf(secretHash.value, parts[1], parts[2], parts[3]);
      }
      forall rounds, salt, digest | HashText(secretHash.value, rounds, salt, digest)
        ensures parts == ["pbkdf2_sha256", rounds, salt, digest] && secretHash.value != ""
      {
        PiecesOf(secretHash.value, rounds, salt, digest);
      }
    }
  }

  /** Every key and every text: they match, or comparing them raises, exactly for these reasons. */
  lemma {:induction false} MatchesExact(c: Crypto, key: APIKey, supplied: string)
    ensures MatchesKey(c, key, supplied) == Answer(true) <==> Accepts(c, key, supplied)
    ensures MatchesKey(c, key, supplied) == Raises <==> Breaks(key, supplied)
  {
    HashExact(c, key.secretHash, supplied);
  }

  // ----- Searching a list of keys -----

  datatype Lookup = Granted(principal: Principal) | NoMatch | LookupRaises

  /** The first live key that matches. */
  function FindKey(c: Crypto, keys: seq<APIKey>, supplied: string): Lookup {
    if keys == [] then NoMatch
    else if keys[0].revoked then FindKey(c, keys[1..], supplied)
    else
      match MatchesKey(c, keys[0], supplied)
      case Raises => LookupRaises
      case Answer(true) => Granted(Principal(keys[0].id, keys[0].tenant, keys[0].allowedModels, "api_key"))
      case Answer(false) => FindKey(c, keys[1..], supplied)
  }

  lemma {:induction false} FindAppend(c: Crypto, first: seq<APIKey>, second: seq<APIKey>, supplied: string)
    ensures FindKey(c, first + second, supplied)
         == if FindKey(c, first, supplied) == NoMatch then FindKey(c, second, supplied) else FindKey(c, first, supplied)
  {
    if first == [] {
      assert first + second == second;
    } else {
      FindAppend(c, first[1..], second, supplied);
      assert (first + second)[1..] == first[1..] + second;
    }
  }

  /** A live key that accepts the supplied text, and whom it stands for. */
  ghost predicate HoldsKey(c: Crypto, key: APIKey, supplied: string, principal: Principal) {
    && !key.revoked && Accepts(c, key, supplied)
    && principal == Principal(key.id, key.tenant, key.allowedModels, "api_key")
  }

  /** The keys before have no say: they are revoked, or can be compared and do not accept. */
  ghost predicate PassedOver(c: Crypto, keys: seq<APIKey>, supplied: string) {
    forall key :: key in keys ==> key.revoked || (!Accepts(c, key, supplied) && !Breaks(key, supplied))
  }

  ghost predicate FirstHolds(c: Crypto, keys: seq<APIKey>, supplied: string, principal: Principal, i: nat) {
    i < |keys| && HoldsKey(c, keys[i], supplied, principal) && PassedOver(c, keys[..i], supplied)
  }

  lemma {:induction false} PassedNext(c: Crypto, keys: seq<APIKey>, supplied: string, i: nat)
    requires i < |keys|
    ensures PassedOver(c, keys[..i + 1], supplied) <==>
              PassedOver(c, [keys[0]], supplied) && PassedOver(c, keys[1..][..i], supplied)
  {
    assert keys[..i + 1] == [keys[0]] + keys[1..][..i];
    assert forall key :: key in keys[..i + 1] <==> key == keys[0] || key in keys[1..][..i];
  }

  lemma {:induction false} FirstMoves(c: Crypto, keys: seq<APIKey>, supplied: string, principal: Principal, i: nat)
    requires i + 1 < |keys| && PassedOver(c, [keys[0]], supplied)
    ensures FirstHolds(c, keys, supplied, principal, i + 1) <==> FirstHolds(c, keys[1..], supplied, principal, i)
  {
    PassedNext(c, keys, supplied, i);
  }

  lemma {:induction false} HeadDecides(c: Crypto, keys: seq<APIKey>, supplied: string, principal: Principal)
    requires keys != [] && !PassedOver(c, [keys[0]], supplied)
    ensures FindKey(c, keys, supplied) == Granted(principal) <==> HoldsKey(c, keys[0], supplied, principal)
    ensures forall i: nat :: FirstHolds(c, keys, supplied, principal, i) ==> i == 0
    ensures FindKey(c, keys, supplied) != NoMatch && !PassedOver(c, keys, supplied)
  {
    MatchesExact(c, keys[0], supplied);
    forall i | 0 < i <= |keys|
      ensures keys[0] in keys[..i]
    {
      assert keys[..i][0] == keys[0];
    }
  }

  /** A search grants exactly the first live key that accepts, with none before it that cannot be compared; and finds
      nothing exactly if every key is passed over. */
  lemma {:induction false} FindExact(c: Crypto, keys: seq<APIKey>, supplied: string, principal: Principal)
    ensures FindKey(c, keys, supplied) == Granted(principal) <==>
              exists i: nat :: FirstHolds(c, keys, supplied, principal, i)
    ensures FindKey(c, keys, supplied) == NoMatch <==> PassedOver(c, keys, supplied)
    decreases |keys|, 1
  {
    if keys != [] {
      if PassedOver(c, [keys[0]], supplied) {
        FindRest(c, keys, supplied, principal);
      } else {
        HeadDecides(c, keys, supplied, principal);
        if HoldsKey(c, keys[0], supplied, principal) {
          assert FirstHolds(c, keys, supplied, principal, 0);
        }
      }
    }
  }

  lemma {:induction false} FindRest(c: Crypto, keys: seq<APIKey>, supplied: string, principal: Principal)
    requires keys != [] && PassedOver(c, [keys[0]], supplied)
    ensures FindKey(c, keys, supplied) == Granted(principal) <==>
              exists i: nat :: FirstHolds(c, keys, supplied, principal, i)
    ensures FindKey(c, keys, supplied) == NoMatch <==> PassedOver(c, keys, supplied)
    decreases |keys|, 0
  {
    MatchesExact(c, keys[0], supplied);
    assert keys[0] in [keys[0]];
    FindExact(c, keys[1..], supplied, principal);
    if i: nat :| FirstHolds(c, keys[1..], supplied, principal, i) {
      FirstMoves(c, keys, supplied, principal, i);
    }
    if i: nat :| FirstHolds(c, keys, supplied, principal, i) {
      assert i > 0;
      FirstMoves(c, keys, supplied, principal, i - 1);
    }
    assert PassedOver(c, keys, supplied) <==> PassedOver(c, keys[1..], supplied);
  }

  /** Whoever is granted holds a live key of the list that accepts the supplied text. */
  lemma {:induction false} GrantedHoldsKey(c: Crypto, keys: seq<APIKey>, supplied: string)
    requires FindKey(c, keys, supplied).Granted?
    ensures exists key :: key in keys && HoldsKey(c, key, supplied, FindKey(c, keys, supplied).principal)
  {
    FindExact(c, keys, supplied, FindKey(c, keys, supplied).principal);
  }

  /** Keys stored in plain text. */
  predicate Plaintext(keys: seq<APIKey>) {
    forall key :: key in keys ==> key.secret != "" && Ascii(key.secret) && key.secretHash == None
  }

  /** The first live key with this very text. */
  predicate FirstWithText(keys: seq<APIKey>, supplied: string, principal: Principal, i: nat) {
    && i < |keys| && !keys[i].revoked && keys[i].secret == supplied
    && (forall j :: 0 <= j < i ==> keys[j].revoked || keys[j].secret != supplied)
    && principal == Principal(keys[i].id, keys[i].tenant, keys[i].allowedModels, "api_key")
  }

  /** Among keys in plain text, an ASCII text is granted as the first live key that it is, and otherwise to nobody. */
  lemma {:induction false} PlaintextExact(c: Crypto, keys: seq<APIKey>, supplied: string, principal: Principal)
    requires Plaintext(keys) && Ascii(supplied)
    ensures FindKey(c, keys, supplied) == Granted(principal) <==>
              exists i: nat :: FirstWithText(keys, supplied, principal, i)
    ensures FindKey(c, keys, supplied) == NoMatch <==>
              forall key :: key in keys ==> key.revoked || key.secret != supplied
  {
    FindExact(c, keys, supplied, principal);
    forall key | key in keys
      ensures (Accepts(c, key, supplied) <==> key.secret == supplied) && !Breaks(key, supplied)
    {
    }
    forall i: nat
      ensures FirstHolds(c, keys, supplied, principal, i) <==> FirstWithText(keys, supplied, principal, i)
    {
      if i < |keys| {
        assert forall j :: 0 <= j < i ==> keys[j] in keys[..i];
      }
    }
  }
}
