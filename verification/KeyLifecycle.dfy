/**
  The life of dynamic API keys: the records on disk, and what issue, update and rotate do to them
  (gateway/auth.py:70-126, 210-223).

  The records are a list searched by first match and store only hashes.  What they stand for is a
  ledger, a map from key id to the key's current plaintext and binding.  Every sequence of
  operations keeps the two in step, and then looking a secret up in the list is looking its
  holder up in the ledger.
*/
module KeyLifecycle {
  import opened Wrappers
  import opened PyText
  import opened Base64Url
  import opened ApiKeys

  datatype Record = Record(id: string, tenant: string, keyHash: string, allowedModels: seq<string>, revoked: bool)

  // ----- Operations on the record list -----

  datatype Op =
    | Issue(id: string, tenant: string, allowedModels: seq<string>, token: string, salt: seq<byte>)
    | Update(id: string, newTenant: Option<string>, newModels: Option<seq<string>>, newRevoked: Option<bool>)
    | Rotate(id: string, token: string, salt: seq<byte>)

  /** The first record with this id, or the length of the list. */
  function IndexOf(records: seq<Record>, id: string): (i: nat)
    ensures i <= |records|
    ensures i < |records| ==> records[i].id == id
    ensures forall j :: 0 <= j < i ==> records[j].id != id
  {
    if records == [] || records[0].id == id then 0 else 1 + IndexOf(records[1..], id)
  }

  function Or<T>(o: Option<T>, default: T): T {
    if o.Some? then o.value else default
  }

  /** Whether the operation succeeds; a ConfigError otherwise, with the file as it was. */
  predicate Succeeds(records: seq<Record>, op: Op) {
    var found := IndexOf(records, op.id) < |records|;
    if op.Issue? then !found else found
  }

  function Edited(c: Crypto, r: Record, op: Op): Record
    requires !op.Issue?
  {
    if op.Update? then
      r.(tenant := Or(op.newTenant, r.tenant), allowedModels := Or(op.newModels, r.allowedModels),
         revoked := Or(op.newRevoked, r.revoked))
    else
      r.(keyHash := HashApiKey(c, op.token, op.salt), revoked := false)
  }

  function Apply(c: Crypto, records: seq<Record>, op: Op): seq<Record> {
    if !Succeeds(records, op) then records
    else if op.Issue? then
      records + [Record(op.id, op.tenant, HashApiKey(c, op.token, op.salt), op.allowedModels, false)]
    else
      var i := IndexOf(records, op.id);
      records[i := Edited(c, records[i], op)]
  }

  function Run(c: Crypto, ops: seq<Op>): seq<Record> {
    if ops == [] then [] else Apply(c, Run(c, ops[..|ops| - 1]), ops[|ops| - 1])
  }

  /** The key file, edited in place; the crypto library, token and salt of an operation are given. */
  class KeyFile {
    var records: seq<Record>

    constructor ()
      ensures records == []
    {
      records := [];
    }

    method IssueApiKey(c: Crypto, id: string, tenant: string, allowedModels: seq<string>, token: string,
                       salt: seq<byte>)
      returns (plaintext: Option<string>)
      modifies this
      ensures records == Apply(c, old(records), Issue(id, tenant, allowedModels, token, salt))
      ensures plaintext == if id in (set r | r in old(records) :: r.id) then None else Some(token)
    {
      var record := Record(id, tenant, HashApiKey(c, token, salt), allowedModels, false);
      for i := 0 to |records|
        invariant records == old(records)
        invariant forall j :: 0 <= j < i ==> records[j].id != id
      {
        if records[i].id == id {
          return None;
        }
      }
      records := records + [record];
      return Some(token);
    }

    method UpdateApiKey(c: Crypto, id: string, tenant: Option<string>, allowedModels: Option<seq<string>>,
                        revoked: Option<bool>)
      returns (found: bool)
      modifies this
      ensures records == Apply(c, old(records), Update(id, tenant, allowedModels, revoked))
      ensures found <==> id in (set r | r in old(records) :: r.id)
    {
      for i := 0 to |records|
        invariant records == old(records)
        invariant forall j :: 0 <= j < i ==> records[j].id != id
      {
        var item := records[i];
        if item.id == id {
          assert i == IndexOf(records, id);
          if tenant.Some? {
            item := item.(tenant := tenant.value);
          }
          if allowedModels.Some? {
            item := item.(allowedModels := allowedModels.value);
          }
          if revoked.Some? {
            item := item.(revoked := revoked.value);
          }
          records := records[i := item];
          return true;
        }
      }
      return false;
    }

    method RotateApiKey(c: Crypto, id: string, token: string, salt: seq<byte>) returns (plaintext: Option<string>)
      modifies this
      ensures records == Apply(c, old(records), Rotate(id, token, salt))
      ensures plaintext == if id in (set r | r in old(records) :: r.id) then Some(token) else None
    {
      for i := 0 to |records|
        invariant records == old(records)
        invariant forall j :: 0 <= j < i ==> records[j].id != id
      {
        if records[i].id == id {
          assert i == IndexOf(records, id);
          records := records[i := records[i].(keyHash := HashApiKey(c, token, salt), revoked := false)];
          return Some(token);
        }
      }
      return None;
    }
  }

  // ----- The ledger -----

  datatype Entry = Entry(token: string, tenant: string, allowedModels: seq<string>, revoked: bool)

  type Ledger = map<string, Entry>

  function ApplyLedger(m: Ledger, op: Op): Ledger {
    match op
    case Issue(id, tenant, models, token, _) =>
      if id in m then m else m[id := Entry(token, tenant, models, false)]
    case Update(id, tenant, models, revoked) =>
      if id !in m then m
      else m[id := Entry(m[id].token,
                         if tenant.Some? then tenant.value else m[id].tenant,
                         if models.Some? then models.value else m[id].allowedModels,
                         if revoked.Some? then revoked.value else m[id].revoked)]
    case Rotate(id, token, _) =>
      if id !in m then m else m[id := m[id].(token := token, revoked := false)]
  }

  function RunLedger(ops: seq<Op>): Ledger {
    if ops == [] then map[] else ApplyLedger(RunLedger(ops[..|ops| - 1]), ops[|ops| - 1])
  }

  // ----- The list stands for the ledger -----

  ghost predicate HashOf(c: Crypto, token: string, hash: string) {
    exists salt :: hash == HashApiKey(c, token, salt)
  }

  ghost predicate StandsFor(c: Crypto, r: Record, e: Entry) {
    r.tenant == e.tenant && r.allowedModels == e.allowedModels && r.revoked == e.revoked
      && HashOf(c, e.token, r.keyHash)
  }

  predicate DistinctIds(records: seq<Record>) {
    forall i, j :: 0 <= i < j < |records| ==> records[i].id != records[j].id
  }

  ghost predicate Represents(c: Crypto, records: seq<Record>, m: Ledger) {
    && DistinctIds(records)
    && (forall i :: 0 <= i < |records| ==> records[i].id in m && StandsFor(c, records[i], m[records[i].id]))
    && (forall id :: id in m ==> IndexOf(records, id) < |records|)
  }

  lemma Found(records: seq<Record>, id: string, i: nat)
    requires i < |records| && records[i].id == id
    ensures IndexOf(records, id) < |records|
  {
  }

  lemma {:induction false} IssueRepresents(c: Crypto, records: seq<Record>, m: Ledger, op: Op)
    requires Represents(c, records, m) && op.Issue?
    ensures Represents(c, Apply(c, records, op), ApplyLedger(m, op))
  {
    if Succeeds(records, op) {
      var records', m' := Apply(c, records, op), ApplyLedger(m, op);
      assert op.id !in m;
      assert HashOf(c, op.token, HashApiKey(c, op.token, op.salt));
      forall id | id in m'
        ensures IndexOf(records', id) < |records'|
      {
        var i := if id == op.id then |records| else IndexOf(records, id);
        Found(records', id, i);
      }
    } else {
      assert op.id in m;
    }
  }

  lemma {:induction false} EditKeepsIndex(records: seq<Record>, i: nat, r: Record, id: string)
    requires i < |records| && r.id == records[i].id
    ensures IndexOf(records[i := r], id) == IndexOf(records, id)
  {
    var records' := records[i := r];
    if records[0].id != id {
      if i == 0 {
        assert records'[1..] == records[1..];
      } else {
        assert records'[1..] == records[1..][i - 1 := r];
        EditKeepsIndex(records[1..], i - 1, r, id);
      }
    }
  }

  lemma {:induction false} EditKeepsIds(c: Crypto, records: seq<Record>, m: Ledger, op: Op, i: nat)
    requires Represents(c, records, m) && !op.Issue? && i < |records| && i == IndexOf(records, op.id)
    ensures DistinctIds(Apply(c, records, op))
    ensures forall id :: id in ApplyLedger(m, op) ==> IndexOf(Apply(c, records, op), id) < |records|
  {
    forall id
      ensures IndexOf(Apply(c, records, op), id) == IndexOf(records, id)
    {
      EditKeepsIndex(records, i, Edited(c, records[i], op), id);
    }
  }

  lemma {:induction false} EditRepresents(c: Crypto, records: seq<Record>, m: Ledger, op: Op)
    requires Represents(c, records, m) && !op.Issue?
    ensures Represents(c, Apply(c, records, op), ApplyLedger(m, op))
  {
    var i := IndexOf(records, op.id);
    if i < |records| {
      EditKeepsIds(c, records, m, op, i);
    } else {
      assert op.id !in m;
    }
  }

  /** Over every sequence of operations, from an empty file, ids stay distinct and the list stands for the ledger. */
  lemma {:induction false} RunRepresents(c: Crypto, ops: seq<Op>)
    ensures Represents(c, Run(c, ops), RunLedger(ops))
  {
    if ops != [] {
      var before, op := ops[..|ops| - 1], ops[|ops| - 1];
      RunRepresents(c, before);
      if op.Issue? {
        IssueRepresents(c, Run(c, before), RunLedger(before), op);
      } else {
        EditRepresents(c, Run(c, before), RunLedger(before), op);
      }
    }
  }

  // ----- Fresh tokens -----

  function NewTokens(ops: seq<Op>): set<string> {
    if ops == [] then {}
    else
      var op := ops[|ops| - 1];
      NewTokens(ops[..|ops| - 1]) + (if op.Update? then {} else {op.token})
  }

  /** No token is ever drawn twice. */
  predicate Fresh(ops: seq<Op>) {
    ops == [] ||
    var before, op := ops[..|ops| - 1], ops[|ops| - 1];
    Fresh(before) && (!op.Update? ==> op.token !in NewTokens(before))
  }

  ghost predicate DistinctTokens(m: Ledger) {
    forall i, j :: i in m && j in m && i != j ==> m[i].token != m[j].token
  }

  ghost predicate TokensFrom(m: Ledger, tokens: set<string>) {
    forall id :: id in m ==> m[id].token in tokens
  }

  lemma {:induction false} RunTokens(ops: seq<Op>)
    requires Fresh(ops)
    ensures DistinctTokens(RunLedger(ops)) && TokensFrom(RunLedger(ops), NewTokens(ops))
  {
    if ops != [] {
      RunTokens(ops[..|ops| - 1]);
    }
  }

  // ----- Loading the file -----

  /** `_parse_key_record`; `None` stands for the ConfigError. */
  function ParseRecord(r: Record): Option<APIKey> {
    var id, tenant, hash := Strip(r.id), Strip(r.tenant), Strip(r.keyHash);
    if id == "" || tenant == "" || hash == "" then None
    else Some(APIKey(id, "", tenant, r.allowedModels, Some(hash), r.revoked))
  }

  function ParseRecords(records: seq<Record>): Option<seq<APIKey>> {
    if records == [] then Some([])
    else
      match (ParseRecord(records[0]), ParseRecords(records[1..]))
      case (Some(key), Some(keys)) => Some([key] + keys)
      case _ => None
  }

  /** The text is something between white space. */
  ghost predicate Around(s: string, text: string) {
    text != "" && exists a, b :: Padded(s, a, text, b)
  }

  lemma {:induction false} AroundExact(s: string, text: string)
    ensures Around(s, text) <==> text != "" && Strip(s) == text
  {
    StripExact(s, text);
  }

  /** A record becomes a key exactly if id, tenant and hash hold something besides white space; the key has these, the
      models and the revocation of the record, and no plain text. */
  lemma {:induction false} RecordExact(r: Record, key: APIKey)
    ensures ParseRecord(r) == Some(key) <==>
              && Around(r.id, key.id) && Around(r.tenant, key.tenant)
              && key.secretHash.Some? && Around(r.keyHash, key.secretHash.value)
              && key.allowedModels == r.allowedModels && key.revoked == r.revoked && key.secret == ""
  {
    AroundExact(r.id, key.id);
    AroundExact(r.tenant, key.tenant);
    if key.secretHash.Some? {
      AroundExact(r.keyHash, key.secretHash.value);
    }
  }

  predicate Blank(s: string) {
    Strip(s) == ""
  }

  /** Every key in the ledger has an id and a tenant with something in them. */
  ghost predicate Named(m: Ledger) {
    forall id :: id in m ==> !Blank(id) && !Blank(m[id].tenant)
  }

  lemma {:induction false} HashStrips(c: Crypto, token: string, salt: seq<byte>)
    ensures Strip(HashApiKey(c, token, salt)) == HashApiKey(c, token, salt) != ""
  {
    var hash := HashApiKey(c, token, salt);
    var digest := Encode(c.pbkdf2(token, salt, ROUNDS));
    EncodeShape(c.pbkdf2(token, salt, ROUNDS));
    assert hash[0] == 'p';
    if digest == "" {
      assert hash[|hash| - 1] == '$';
    } else {
      assert hash[|hash| - 1] == digest[|digest| - 1];
      assert UrlSafe(digest[|digest| - 1]);
    }
  }

  /** `keys` is what the records parse to, one by one. */
  predicate ParsesTo(records: seq<Record>, keys: seq<APIKey>) {
    && |keys| == |records|
    && (forall i :: 0 <= i < |records| ==> ParseRecord(records[i]) == Some(keys[i]))
  }

  lemma {:induction false} ParseEach(records: seq<Record>)
    ensures ParseRecords(records).Some? ==> ParsesTo(records, ParseRecords(records).value)
    ensures ParseRecords(records).None? ==> exists i :: 0 <= i < |records| && ParseRecord(records[i]).None?
  {
    if records != [] {
      ParseEach(records[1..]);
      if ParseRecords(records).None? && ParseRecord(records[0]).Some? {
        var i :| 0 <= i < |records[1..]| && ParseRecord(records[1..][i]).None?;
        assert ParseRecord(records[i + 1]).None?;
      }
    }
  }

  lemma {:induction false} ParseStandsFor(c: Crypto, r: Record, e: Entry)
    requires StandsFor(c, r, e)
    ensures ParseRecord(r).Some? <==> !Blank(r.id) && !Blank(e.tenant)
    ensures ParseRecord(r).Some? ==>
              ParseRecord(r).value
                == APIKey(Strip(r.id), "", Strip(e.tenant), e.allowedModels, Some(r.keyHash), e.revoked)
  {
    var salt :| r.keyHash == HashApiKey(c, e.token, salt);
    HashStrips(c, e.token, salt);
  }

  /** The file loads exactly when every key of the ledger has a name and a tenant. */
  lemma {:induction false} LoadsIffNamed(c: Crypto, records: seq<Record>, m: Ledger)
    requires Represents(c, records, m)
    ensures ParseRecords(records).Some? <==> Named(m)
  {
    ParseEach(records);
    forall i | 0 <= i < |records|
      ensures ParseRecord(records[i]).Some? <==> !Blank(records[i].id) && !Blank(m[records[i].id].tenant)
    {
      ParseStandsFor(c, records[i], m[records[i].id]);
    }
    if ParseRecords(records).Some? {
      forall id | id in m
        ensures !Blank(id) && !Blank(m[id].tenant)
      {
        assert ParseRecord(records[IndexOf(records, id)]).Some?;
      }
    }
  }

  // ----- Looking a secret up -----

  /** Among these secrets, no two have the same digest under any salt. */
  ghost predicate CollisionFree(c: Crypto, secrets: set<string>) {
    forall p, q, salt ::
        p in secrets && q in secrets && c.pbkdf2(p, salt, ROUNDS) == c.pbkdf2(q, salt, ROUNDS) ==> p == q
  }

  predicate Holds(m: Ledger, id: string, secret: string) {
    id in m && m[id].token == secret && !m[id].revoked
  }

  function PrincipalOf(m: Ledger, id: string): Principal
    requires id in m
  {
    Principal(Strip(id), Strip(m[id].tenant), m[id].allowedModels, "api_key")
  }

  /** The answer the ledger calls for: the holder of the secret with its current binding, and nobody else. */
  ghost predicate LedgerAnswers(m: Ledger, secret: string, answer: Lookup) {
    && (forall id :: Holds(m, id, secret) ==> answer == Granted(PrincipalOf(m, id)))
    && ((forall id :: !Holds(m, id, secret)) ==> answer == NoMatch)
  }

  lemma {:induction false} RecordMatches(c: Crypto, r: Record, e: Entry, key: APIKey, secret: string)
    requires StandsFor(c, r, e) && ParseRecord(r) == Some(key) && CollisionFree(c, {e.token, secret})
    ensures MatchesKey(c, key, secret) == Answer(e.token == secret)
  {
    ParseStandsFor(c, r, e);
    var salt :| r.keyHash == HashApiKey(c, e.token, salt);
    HashRoundTrip(c, key, e.token, salt, secret);
  }

  /** A search in which every comparison has an answer stops at the first live match, if there is one. */
  lemma {:induction false} FindFirstMatch(c: Crypto, keys: seq<APIKey>, secret: string, i: nat)
    requires i <= |keys|
    requires forall j :: 0 <= j < i ==> keys[j].revoked || MatchesKey(c, keys[j], secret) == Answer(false)
    requires i < |keys| ==> !keys[i].revoked && MatchesKey(c, keys[i], secret) == Answer(true)
    ensures FindKey(c, keys, secret) == if i == |keys| then NoMatch
              else Granted(Principal(keys[i].id, keys[i].tenant, keys[i].allowedModels, "api_key"))
  {
    if i > 0 {
      FindFirstMatch(c, keys[1..], secret, i - 1);
    }
  }

  lemma {:induction false} ListMatches(c: Crypto, records: seq<Record>, m: Ledger, keys: seq<APIKey>, secret: string,
                                       i: nat)
    requires Represents(c, records, m) && ParsesTo(records, keys) && i < |records|
    requires CollisionFree(c, {m[records[i].id].token, secret})
    ensures MatchesKey(c, keys[i], secret) == Answer(m[records[i].id].token == secret)
    ensures keys[i].revoked == m[records[i].id].revoked
    ensures Principal(keys[i].id, keys[i].tenant, keys[i].allowedModels, "api_key") == PrincipalOf(m, records[i].id)
  {
    RecordMatches(c, records[i], m[records[i].id], keys[i], secret);
    ParseStandsFor(c, records[i], m[records[i].id]);
  }

  /** Searching the loaded list gives the ledger's answer. */
  lemma {:induction false} ListAnswers(c: Crypto, records: seq<Record>, m: Ledger, keys: seq<APIKey>, secret: string,
                                       tokens: set<string>)
    requires Represents(c, records, m) && ParsesTo(records, keys)
    requires DistinctTokens(m) && TokensFrom(m, tokens) && CollisionFree(c, tokens + {secret})
    ensures LedgerAnswers(m, secret, FindKey(c, keys, secret))
  {
    forall i | 0 <= i < |records|
      ensures MatchesKey(c, keys[i], secret) == Answer(m[records[i].id].token == secret)
      ensures keys[i].revoked == m[records[i].id].revoked
    {
      ListMatches(c, records, m, keys, secret, i);
    }
    if id :| Holds(m, id, secret) {
      var i := IndexOf(records, id);
      forall j | 0 <= j < i
        ensures keys[j].revoked || MatchesKey(c, keys[j], secret) == Answer(false)
      {
        assert records[j].id != id;
      }
      ListMatches(c, records, m, keys, secret, i);
      FindFirstMatch(c, keys, secret, i);
    } else {
      forall j | 0 <= j < |keys|
        ensures keys[j].revoked || MatchesKey(c, keys[j], secret) == Answer(false)
      {
        assert !Holds(m, records[j].id, secret);
      }
      FindFirstMatch(c, keys, secret, |keys|);
    }
  }

  /** The lifecycle refinement.  After any sequence of operations on an empty file, with tokens never drawn
      twice: ids are distinct; the file loads exactly when the ledger is named; and a loaded file grants a
      secret to exactly the live key whose latest issued or rotated plaintext it is, with that key's
      current tenant and models. */
  lemma {:induction false} LifecycleRefinement(c: Crypto, ops: seq<Op>, secret: string)
    requires Fresh(ops) && CollisionFree(c, NewTokens(ops) + {secret})
    ensures DistinctIds(Run(c, ops))
    ensures ParseRecords(Run(c, ops)).Some? <==> Named(RunLedger(ops))
    ensures ParseRecords(Run(c, ops)).Some? ==>
              LedgerAnswers(RunLedger(ops), secret, FindKey(c, ParseRecords(Run(c, ops)).value, secret))
  {
    RunRepresents(c, ops);
    RunTokens(ops);
    LoadsIffNamed(c, Run(c, ops), RunLedger(ops));
    ParseEach(Run(c, ops));
    if ParseRecords(Run(c, ops)).Some? {
      ListAnswers(c, Run(c, ops), RunLedger(ops), ParseRecords(Run(c, ops)).value, secret, NewTokens(ops));
    }
  }
}
