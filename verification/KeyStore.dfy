/**
  The gateway's view of the key file: an mtime-keyed cache that is refreshed on every
  authentication (gateway/auth.py:25-67).

  A refresh makes two observations of the file, `stat` and then, only if the cache is stale,
  `read_text`; between them the file may change.  Both observations are parameters here, so that
  every interleaving with a writer is a choice of arguments.
*/
module KeyStore {
  import opened Wrappers
  import opened ApiKeys
  import opened KeyLifecycle

  /** What `stat` gives: no file, its mtime in nanoseconds, or any other OSError, which leaves the store. */
  datatype FileStat = Missing | Stamped(mtime: int) | StatRaises

  /** What reading the file gives: a list of records, text that is no key list, an OSError, or bytes that are not
      UTF-8, whose error the store does not catch. */
  datatype FileText = Parsed(records: seq<Record>) | Malformed | Unreadable | Undecodable

  datatype Cache = Cache(mtime: Option<int>, keys: seq<APIKey>, loadError: bool)

  const FreshCache := Cache(None, [], false)

  /** The keys of a text, or `None` where loading fails. */
  function KeysOf(text: FileText): Option<seq<APIKey>> {
    if text.Parsed? then ParseRecords(text.records) else None
  }

  /** Whether a refresh that saw this stat goes on to read. */
  predicate Reads(c: Cache, force: bool, stat: FileStat) {
    stat.Stamped? && (force || c.mtime != Some(stat.mtime))
  }

  /** An exception that leaves the store. */
  datatype Escaped = StatError | DecodeError

  function Escape(c: Cache, force: bool, stat: FileStat, text: FileText): Option<Escaped> {
    if stat.StatRaises? then Some(StatError)
    else if Reads(c, force, stat) && text.Undecodable? then Some(DecodeError)
    else None
  }

  /** `_load_dynamic_keys` on a configured path.  `stat` is what is seen first, `text` what a read after that
      finds.  A missing file leaves the error flag as it was; an exception leaves everything. */
  function Reload(c: Cache, force: bool, stat: FileStat, text: FileText): Cache {
    match stat
    case StatRaises => c
    case Missing => Cache(None, [], c.loadError)
    case Stamped(mtime) =>
      if !Reads(c, force, stat) || text.Undecodable? then c
      else
        match KeysOf(text)
        case None => Cache(Some(mtime), [], true)
        case Some(keys) => Cache(Some(mtime), keys, false)
  }

  /** `authenticate` once the cache is up to date. */
  function Authenticated(crypto: Crypto, staticKeys: seq<APIKey>, c: Cache, supplied: string): Lookup {
    if c.loadError then NoMatch else FindKey(crypto, staticKeys + c.keys, supplied)
  }

  /** An authentication's answer from the cache that the refresh left, or the exception that ended the refresh. */
  function Response(crypto: Crypto, staticKeys: seq<APIKey>, hasPath: bool, c: Cache, supplied: string,
                    stat: FileStat, text: FileText): Result<Lookup, Escaped> {
    var escaped := Escape(c, false, stat, text);
    if hasPath && escaped.Some? then Err(escaped.value) else Ok(Authenticated(crypto, staticKeys, c, supplied))
  }

  /** Whether a refresh raised can be told from the cache it left. */
  lemma {:induction false} EscapeShows(c: Cache, stat: FileStat, text: FileText)
    ensures Escape(Reload(c, false, stat, text), false, stat, text) == Escape(c, false, stat, text)
  {
  }

  class APIKeyStore {
    const staticKeys: seq<APIKey>
    const hasPath: bool
    var mtime: Option<int>
    var dynamicKeys: seq<APIKey>
    var loadError: bool

    /** A store whose first refresh raises is never made. */
    constructor (staticKeys: seq<APIKey>, hasPath: bool, stat: FileStat, text: FileText)
      requires hasPath ==> Escape(FreshCache, true, stat, text) == None
      ensures this.staticKeys == staticKeys && this.hasPath == hasPath
      ensures State() == if hasPath then Reload(FreshCache, true, stat, text) else FreshCache
    {
      this.staticKeys, this.hasPath := staticKeys, hasPath;
      mtime, dynamicKeys, loadError := None, [], false;
      new;
      var _ := LoadDynamicKeys(true, stat, text);
    }

    function State(): Cache
      reads this
    {
      Cache(mtime, dynamicKeys, loadError)
    }

    /** The generator in the tuple: records one by one, abandoned at the first that does not parse. */
    method ParseKeys(records: seq<Record>) returns (keys: Option<seq<APIKey>>)
      ensures keys == ParseRecords(records)
    {
      var parsed: seq<APIKey> := [];
      for i := 0 to |records|
        invariant |parsed| == i && ParsesTo(records[..i], parsed)
      {
        var key := ParseRecord(records[i]);
        if key.None? {
          NotAll(records, i);
          return None;
        }
        parsed := parsed + [key.value];
      }
      assert records[..|records|] == records;
      AllParsed(records, parsed);
      return Some(parsed);
    }

    method LoadDynamicKeys(force: bool, stat: FileStat, text: FileText) returns (escaped: Option<Escaped>)
      modifies this
      ensures State() == if hasPath then Reload(old(State()), force, stat, text) else old(State())
      ensures escaped == if hasPath then Escape(old(State()), force, stat, text) else None
    {
      if !hasPath {
        return None;
      }
      if stat.StatRaises? {
        return Some(StatError);
      }
      if stat.Missing? {
        dynamicKeys, mtime := [], None;
        return None;
      }
      if !force && mtime == Some(stat.mtime) {
        return None;
      }
      if text.Undecodable? {
        return Some(DecodeError);
      }
      var keys: Option<seq<APIKey>> := None;
      if text.Parsed? {
        keys := ParseKeys(text.records);
      }
      if keys.None? {
        dynamicKeys, loadError, mtime := [], true, Some(stat.mtime);
        return None;
      }
      dynamicKeys, loadError, mtime := keys.value, false, Some(stat.mtime);
      return None;
    }

    method Authenticate(crypto: Crypto, supplied: string, stat: FileStat, text: FileText)
      returns (answer: Result<Lookup, Escaped>)
      modifies this
      ensures State() == if hasPath then Reload(old(State()), false, stat, text) else old(State())
      ensures answer == Response(crypto, staticKeys, hasPath, State(), supplied, stat, text)
    {
      EscapeShows(State(), stat, text);
      var escaped := LoadDynamicKeys(false, stat, text);
      if escaped.Some? {
        return Err(escaped.value);
      }
      if loadError {
        return Ok(NoMatch);
      }
      var keys := staticKeys + dynamicKeys;
      for i := 0 to |keys|
        invariant State() == if hasPath then Reload(old(State()), false, stat, text) else old(State())
        invariant !loadError && keys == staticKeys + dynamicKeys
        invariant FindKey(crypto, keys, supplied) == FindKey(crypto, keys[i..], supplied)
      {
        assert keys[i..][0] == keys[i] && keys[i..][1..] == keys[i + 1..];
        if keys[i].revoked {
          continue;
        }
        match MatchesKey(crypto, keys[i], supplied) {
          case Raises =>
            return Ok(LookupRaises);
          case Answer(matches) =>
            if matches {
              return Ok(Granted(Principal(keys[i].id, keys[i].tenant, keys[i].allowedModels, "api_key")));
            }
        }
      }
      return Ok(NoMatch);
    }
  }

  lemma {:induction false} AllParsed(records: seq<Record>, keys: seq<APIKey>)
    requires ParsesTo(records, keys)
    ensures ParseRecords(records) == Some(keys)
  {
    if records != [] {
      AllParsed(records[1..], keys[1..]);
      assert keys == [keys[0]] + keys[1..];
    } else {
      assert keys == [];
    }
  }

  lemma {:induction false} NotAll(records: seq<Record>, i: nat)
    requires i < |records| && ParseRecord(records[i]).None?
    ensures ParseRecords(records) == None
  {
    if i > 0 {
      NotAll(records[1..], i - 1);
    }
  }
}
