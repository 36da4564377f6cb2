/** Ordered dictionaries and JSON values as the recipes see them after
    `json.load(..., object_pairs_hook=OrderedDict)` or a YAML load: an object is
    its list of members in file order. Keys are taken to be distinct, as a JSON
    or YAML loader produces them.
 */
module Json {
  import opened Wrappers
  import opened Strings

  /** An ordered `dict` with string keys. */
  type Dict<V> = seq<(string, V)>

  predicate HasKey<V>(d: Dict<V>, k: string) {
    exists i :: 0 <= i < |d| && d[i].0 == k
  }

  /** `d.get(k)` */
  function Get<V>(d: Dict<V>, k: string): (r: Option<V>)
    ensures r.Some? <==> HasKey(d, k)
    ensures r.Some? ==> exists i :: 0 <= i < |d| && d[i] == (k, r.value)
  {
    if |d| == 0 then None
    else if d[0].0 == k then Some(d[0].1)
    else
      var r := Get(d[1..], k);
      assert r.Some? ==> exists i :: 0 <= i < |d[1..]| && d[1..][i] == (k, r.value);
      r
  }

  /** Position of the member `d[k]` reads: the first one with key `k`. */
  function KeyIndex<V>(d: Dict<V>, k: string): (i: nat)
    requires HasKey(d, k)
    ensures i < |d| && d[i].0 == k
    ensures forall j :: 0 <= j < i ==> d[j].0 != k
    ensures Get(d, k) == Some(d[i].1)
  {
    if d[0].0 == k then 0
    else
      assert HasKey(d[1..], k) by {
        var j :| 0 <= j < |d| && d[j].0 == k;
        assert d[1..][j - 1].0 == k;
      }
      1 + KeyIndex(d[1..], k)
  }

  /** `d[k]`, raising `KeyError` for a missing key. */
  function Index<V>(d: Dict<V>, k: string): (r: Result<V>)
    ensures r.Ok? <==> HasKey(d, k)
    ensures r.Err? ==> r.error == KeyError(k)
  {
    match Get(d, k)
    case Some(v) => Ok(v)
    case None => Err(KeyError(k))
  }

  /** A key of the rest of a dict is a key of the dict. */
  lemma HasKeyOfTail<V>(d: Dict<V>, k: string)
    requires |d| > 0 && HasKey(d[1..], k)
    ensures HasKey(d, k)
  {
    var j :| 0 <= j < |d[1..]| && d[1..][j].0 == k;
    assert d[j + 1].0 == k;
  }

  /** `d[k] = v`: a key already present keeps its place and takes the new
      value; a new key goes last. */
  function Put<V>(d: Dict<V>, k: string, v: V): (r: Dict<V>)
    ensures HasKey(d, k) ==> |r| == |d| && r == d[KeyIndex(d, k) := (k, v)]
    ensures !HasKey(d, k) ==> r == d + [(k, v)]
  {
    if |d| == 0 then [(k, v)]
    else if d[0].0 == k then [(k, v)] + d[1..]
    else
      assert HasKey(d, k) <==> HasKey(d[1..], k) by {
        if HasKey(d[1..], k) {
          HasKeyOfTail(d, k);
        }
        if HasKey(d, k) {
          var j :| 0 <= j < |d| && d[j].0 == k;
          assert d[1..][j - 1].0 == k;
        }
      }
      [d[0]] + Put(d[1..], k, v)
  }

  /** Reading after `d[k] = v` gives `v` for `k` and the old value for any
      other key. */
  lemma {:induction false} GetPut<V>(d: Dict<V>, k: string, v: V, j: string)
    ensures Get(Put(d, k, v), j) == if j == k then Some(v) else Get(d, j)
    decreases |d|
  {
    if |d| > 0 && d[0].0 != k {
      GetPut(d[1..], k, v, j);
      assert Put(d, k, v) == [d[0]] + Put(d[1..], k, v);
      assert ([d[0]] + Put(d[1..], k, v))[1..] == Put(d[1..], k, v);
    } else if |d| > 0 {
      assert Put(d, k, v)[1..] == d[1..];
    }
  }

  predicate DistinctKeys<V>(d: Dict<V>) {
    forall i, j :: 0 <= i < j < |d| ==> d[i].0 != d[j].0
  }

  /** A parsed JSON value. Numbers, booleans and null behave alike here (none of
      them supports `in`, indexing by a string, `.replace` or `.items`). */
  datatype Json =
    | JString(s: string)
    | JArray(items: seq<Json>)
    | JObject(members: Dict<Json>)
    | JScalar

  /** Python's `key in value`: a key test on an object, a substring test on a
      string, an element test on a list, and `TypeError` on anything else. */
  function In(key: string, v: Json): (r: Result<bool>)
    ensures r.Err? <==> v.JScalar?
    ensures v.JObject? ==> r == Ok(HasKey(v.members, key))
  {
    match v
    case JObject(m) => Ok(HasKey(m, key))
    case JString(s) => Ok(Contains(s, key))
    case JArray(items) => Ok(JString(key) in items)
    case JScalar => Err(TypeError)
  }

  /** Python's `value[key]`: only objects can be indexed by a string. */
  function Member(v: Json, key: string): (r: Result<Json>)
    ensures r.Ok? <==> v.JObject? && HasKey(v.members, key)
  {
    match v
    case JObject(m) => Index(m, key)
    case _ => Err(TypeError)
  }

  /** The value as a Python `str`; any other type lacks the `str` methods the
      recipes call on it (`AttributeError`). */
  function AsStr(v: Json): (r: Result<string>)
    ensures r.Ok? <==> v.JString?
  {
    match v
    case JString(s) => Ok(s)
    case _ => Err(AttributeError)
  }

  /** `value.items()`: only objects have it. */
  function Items(v: Json): (r: Result<Dict<Json>>)
    ensures r.Ok? <==> v.JObject?
  {
    match v
    case JObject(m) => Ok(m)
    case _ => Err(AttributeError)
  }
}
