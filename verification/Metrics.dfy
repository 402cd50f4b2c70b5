/**
  Request counters (gateway/metrics.py): one request count and one latency total per route label,
  backend label and status family.
*/
module Metrics {
  import opened Wrappers
  import PyText

  datatype Key = Key(route: string, backend: string, family: string)

  datatype Observation = Observation(route: string, backend: string, status: int, latencyMs: int)

  const KnownRoutes := {"/healthz", "/metrics", "/v1/chat/completions", "/v1/completions", "/v1/embeddings",
                        "/v1/models"}

  function RouteLabel(route: string): string {
    if route in KnownRoutes then route else "other"
  }

  const LABEL_LENGTH := 64

  function SafeChar(isAlnum: char -> bool, c: char): char {
    if isAlnum(c) || c == '-' || c == '_' then c else '_'
  }

  /** `_safe_label`; which characters count as letters and digits is up to the Unicode database. */
  function SafeLabel(isAlnum: char -> bool, value: string): string {
    if value == "" || value == "-" then "none"
    else seq(if |value| <= LABEL_LENGTH then |value| else LABEL_LENGTH,
             i requires 0 <= i < |value| => SafeChar(isAlnum, value[i]))
  }

  function Family(status: int): string {
    if status == 0 then "unknown" else PyText.IntText(status / 100) + "xx"
  }

  function KeyFor(isAlnum: char -> bool, o: Observation): Key {
    Key(RouteLabel(o.route), SafeLabel(isAlnum, o.backend), Family(o.status))
  }

  // ----- What the labels are -----

  /** The families of the statuses a response can have. */
  lemma {:induction false} FamilyOfStatus(status: int)
    ensures 100 <= status <= 199 ==> Family(status) == "1xx"
    ensures 200 <= status <= 299 ==> Family(status) == "2xx"
    ensures 300 <= status <= 399 ==> Family(status) == "3xx"
    ensures 400 <= status <= 499 ==> Family(status) == "4xx"
    ensures 500 <= status <= 599 ==> Family(status) == "5xx"
  {
    if 100 <= status <= 599 {
      var d := status / 100;
      assert PyText.Decimal(d) == ['0' + d as char];
    }
  }

  /** The family of any status but 0 is `xx` behind the number of its hundreds, rounded down. */
  lemma {:induction false} FamilyReads(status: int, hundreds: int)
    requires status != 0 && hundreds * 100 <= status < hundreds * 100 + 100
    ensures exists text :: Family(status) == text + "xx" && PyText.ParseInt(text) == Some(hundreds)
  {
    PyText.IntOfText(hundreds);
    assert Family(status) == PyText.IntText(hundreds) + "xx";
  }

  /** The labels of an observation: the path if it is one of six; the backend's name, cut to 64 characters, with an
      underscore for everything but letters, digits, hyphens and underscores; the status's hundreds. */
  lemma {:induction false} LabelsExact(isAlnum: char -> bool, o: Observation)
    ensures var paths := ["/healthz", "/metrics", "/v1/chat/completions", "/v1/completions", "/v1/embeddings",
                          "/v1/models"];
            KeyFor(isAlnum, o).route == if o.route in paths then o.route else "other"
    ensures o.backend == "" || o.backend == "-" ==> KeyFor(isAlnum, o).backend == "none"
    ensures o.backend != "" && o.backend != "-" ==>
              var name := KeyFor(isAlnum, o).backend;
              && |name| == (if |o.backend| > 64 then 64 else |o.backend|)
              && forall i :: 0 <= i < |name| ==>
                   name[i] == if isAlnum(o.backend[i]) || o.backend[i] in "-_" then o.backend[i] else '_'
    ensures o.status == 0 ==> KeyFor(isAlnum, o).family == "unknown"
    ensures 200 <= o.status <= 299 ==> KeyFor(isAlnum, o).family == "2xx"
    ensures 400 <= o.status <= 499 ==> KeyFor(isAlnum, o).family == "4xx"
    ensures 500 <= o.status <= 599 ==> KeyFor(isAlnum, o).family == "5xx"
  {
    FamilyOfStatus(o.status);
  }

  // ----- The registry -----

  datatype Counters = Counters(requests: map<Key, int>, latencyMs: map<Key, int>)

  /** A `defaultdict(int)` lookup. */
  function Held(m: map<Key, int>, k: Key): int {
    if k in m then m[k] else 0
  }

  function Bump(m: map<Key, int>, k: Key, amount: int): map<Key, int> {
    m[k := Held(m, k) + amount]
  }

  function ObserveStep(isAlnum: char -> bool, c: Counters, o: Observation): Counters {
    var k := KeyFor(isAlnum, o);
    Counters(Bump(c.requests, k, 1), Bump(c.latencyMs, k, o.latencyMs))
  }

  /** The counters after a list of observations, from none. */
  function Recorded(isAlnum: char -> bool, observations: seq<Observation>): Counters {
    if observations == [] then Counters(map[], map[])
    else
      var n := |observations| - 1;
      ObserveStep(isAlnum, Recorded(isAlnum, observations[..n]), observations[n])
  }

  class MetricsRegistry {
    const isAlnum: char -> bool
    var requests: map<Key, int>
    var latencyMs: map<Key, int>

    constructor (isAlnum: char -> bool)
      ensures this.isAlnum == isAlnum && State() == Recorded(isAlnum, [])
    {
      this.isAlnum := isAlnum;
      requests, latencyMs := map[], map[];
    }

    function State(): Counters
      reads this
    {
      Counters(requests, latencyMs)
    }

    method Observe(o: Observation)
      modifies this
      ensures State() == ObserveStep(isAlnum, old(State()), o)
    {
      var key := KeyFor(isAlnum, o);
      requests := Bump(requests, key, 1);
      latencyMs := Bump(latencyMs, key, o.latencyMs);
    }
  }

  // ----- What a counter holds -----

  function CountOf(isAlnum: char -> bool, observations: seq<Observation>, k: Key): nat {
    if observations == [] then 0
    else
      var n := |observations| - 1;
      CountOf(isAlnum, observations[..n], k) + if KeyFor(isAlnum, observations[n]) == k then 1 else 0
  }

  function LatencyOf(isAlnum: char -> bool, observations: seq<Observation>, k: Key): int {
    if observations == [] then 0
    else
      var n := |observations| - 1;
      LatencyOf(isAlnum, observations[..n], k) + if KeyFor(isAlnum, observations[n]) == k then observations[n].latencyMs
        else 0
  }

  lemma {:induction false} SameKeys(isAlnum: char -> bool, observations: seq<Observation>)
    ensures Recorded(isAlnum, observations).requests.Keys == Recorded(isAlnum, observations).latencyMs.Keys
  {
    if observations != [] {
      SameKeys(isAlnum, observations[..|observations| - 1]);
    }
  }

  predicate Seen(isAlnum: char -> bool, observations: seq<Observation>, k: Key) {
    exists i :: 0 <= i < |observations| && KeyFor(isAlnum, observations[i]) == k
  }

  lemma {:induction false} KeysObserved(isAlnum: char -> bool, observations: seq<Observation>, k: Key)
    ensures k in Recorded(isAlnum, observations).requests <==> Seen(isAlnum, observations, k)
    ensures k in Recorded(isAlnum, observations).latencyMs <==> Seen(isAlnum, observations, k)
  {
    SameKeys(isAlnum, observations);
    if observations != [] {
      KeysObserved(isAlnum, observations[..|observations| - 1], k);
    }
  }

  /** Every key holds how often it was observed, and for how long in all. */
  lemma {:induction false} CountersExact(isAlnum: char -> bool, observations: seq<Observation>, k: Key)
    ensures Held(Recorded(isAlnum, observations).requests, k) == CountOf(isAlnum, observations, k)
    ensures Held(Recorded(isAlnum, observations).latencyMs, k) == LatencyOf(isAlnum, observations, k)
  {
    if observations != [] {
      CountersExact(isAlnum, observations[..|observations| - 1], k);
    }
  }

  // ----- Conservation -----

  /** The sum of a counter over its keys. */
  ghost function Total(m: map<Key, int>): int {
    if m == map[] then 0
    else
      var k :| k in m;
      m[k] + Total(m - {k})
  }

  /** It does not matter which key is taken first. */
  lemma {:induction false} TotalRemove(m: map<Key, int>, k: Key)
    requires k in m
    ensures Total(m) == m[k] + Total(m - {k})
    decreases |m|
  {
    var first :| first in m && Total(m) == m[first] + Total(m - {first});
    if first != k {
      assert |(m - {first}).Keys| < |m.Keys| by {
        assert (m - {first}).Keys == m.Keys - {first};
      }
      assert |(m - {k}).Keys| < |m.Keys| by {
        assert (m - {k}).Keys == m.Keys - {k};
      }
      TotalRemove(m - {first}, k);
      TotalRemove(m - {k}, first);
      assert m - {first} - {k} == m - {k} - {first};
    }
  }

  lemma {:induction false} TotalBump(m: map<Key, int>, k: Key, amount: int)
    ensures Total(Bump(m, k, amount)) == Total(m) + amount
  {
    var after := Bump(m, k, amount);
    TotalRemove(after, k);
    assert after - {k} == m - {k};
    if k in m {
      TotalRemove(m, k);
    } else {
      assert m - {k} == m;
    }
  }

  function TotalLatency(observations: seq<Observation>): int {
    if observations == [] then 0
    else
      var n := |observations| - 1;
      TotalLatency(observations[..n]) + observations[n].latencyMs
  }

  /** Nothing is lost or counted twice, whatever labels fall together. */
  lemma {:induction false} Conservation(isAlnum: char -> bool, observations: seq<Observation>)
    ensures Total(Recorded(isAlnum, observations).requests) == |observations|
    ensures Total(Recorded(isAlnum, observations).latencyMs) == TotalLatency(observations)
  {
    if observations != [] {
      var n := |observations| - 1;
      var before := Recorded(isAlnum, observations[..n]);
      var k := KeyFor(isAlnum, observations[n]);
      Conservation(isAlnum, observations[..n]);
      TotalBump(before.requests, k, 1);
      TotalBump(before.latencyMs, k, observations[n].latencyMs);
    }
  }

  // ----- How many keys there can be -----

  const RouteLabels := KnownRoutes + {"other"}

  const Families := {"1xx", "2xx", "3xx", "4xx", "5xx"}

  /** Keys over given labels are no more than the product of the labels. */
  lemma {:induction false} ProductBound(keys: set<Key>, routes: set<string>, backends: set<string>,
                                        families: set<string>)
    requires forall k :: k in keys ==> k.route in routes && k.backend in backends && k.family in families
    ensures |keys| <= |routes| * |backends| * |families|
  {
    if routes == {} {
      if k :| k in keys {
        assert false;
      }
      assert keys == {};
    } else {
      var r :| r in routes;
      var here := set k | k in keys && k.route == r;
      assert keys == here + (keys - here);
      ProductBound(keys - here, routes - {r}, backends, families);
      OneRoute(here, r, backends, families);
      assert |routes - {r}| == |routes| - 1;
      assert |routes| * |backends| * |families|
          == (|routes| - 1) * |backends| * |families| + |backends| * |families| by {
        assert |routes| * |backends| == (|routes| - 1) * |backends| + |backends|;
      }
    }
  }

  lemma {:induction false} OneRoute(keys: set<Key>, r: string, backends: set<string>, families: set<string>)
    requires forall k :: k in keys ==> k.route == r && k.backend in backends && k.family in families
    ensures |keys| <= |backends| * |families|
  {
    if backends == {} {
      assert keys == {};
    } else {
      var b :| b in backends;
      var here := set k | k in keys && k.backend == b;
      assert keys == here + (keys - here);
      OneRoute(keys - here, r, backends - {b}, families);
      OneBackend(here, r, b, families);
      assert |backends| * |families| == (|backends| - 1) * |families| + |families|;
    }
  }

  lemma {:induction false} OneBackend(keys: set<Key>, r: string, b: string, families: set<string>)
    requires forall k :: k in keys ==> k.route == r && k.backend == b && k.family in families
    ensures |keys| <= |families|
  {
    if families == {} {
      assert keys == {};
    } else {
      var f :| f in families;
      OneBackend(keys - {Key(r, b, f)}, r, b, families - {f});
    }
  }

  /** The labels a list of backend names can get. */
  function LabelsOf(isAlnum: char -> bool, names: seq<string>): set<string> {
    if names == [] then {"none"} else {SafeLabel(isAlnum, names[0])} + LabelsOf(isAlnum, names[1..])
  }

  lemma {:induction false} LabelsBound(isAlnum: char -> bool, names: seq<string>)
    ensures |LabelsOf(isAlnum, names)| <= |names| + 1
    ensures "none" in LabelsOf(isAlnum, names)
    ensures forall name :: name in names ==> SafeLabel(isAlnum, name) in LabelsOf(isAlnum, names)
  {
    if names != [] {
      LabelsBound(isAlnum, names[1..]);
      forall name | name in names
        ensures SafeLabel(isAlnum, name) in LabelsOf(isAlnum, names)
      {
        assert name == names[0] || name in names[1..];
      }
    }
  }

  /** An observation whose backend is one of the names, or absent, and whose status is an HTTP status. */
  predicate Regular(o: Observation, names: seq<string>) {
    (o.backend == "-" || o.backend in names) && 100 <= o.status < 600
  }

  /** However many requests there are, and whatever paths they ask for, there are at most 7 * (n + 1) * 5 keys. */
  lemma {:induction false} BoundedKeys(isAlnum: char -> bool, observations: seq<Observation>, names: seq<string>)
    requires forall i :: 0 <= i < |observations| ==> Regular(observations[i], names)
    ensures |Recorded(isAlnum, observations).requests| <= 7 * (|names| + 1) * 5
  {
    var keys := Recorded(isAlnum, observations).requests.Keys;
    var backends := LabelsOf(isAlnum, names);
    LabelsBound(isAlnum, names);
    forall k | k in keys
      ensures k.route in RouteLabels && k.backend in backends && k.family in Families
    {
      KeysObserved(isAlnum, observations, k);
      var i :| 0 <= i < |observations| && KeyFor(isAlnum, observations[i]) == k;
      assert Regular(observations[i], names);
      FamilyOfStatus(observations[i].status);
    }
    ProductBound(keys, RouteLabels, backends, Families);
    LabelCounts();
    assert |RouteLabels| * |backends| * |Families| <= 7 * (|names| + 1) * 5;
  }

  lemma {:induction false} LabelCounts()
    ensures |RouteLabels| == 7 && |Families| == 5
  {
  }
}
