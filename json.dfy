/**
 * The JSON-shaped values the `to_dict` methods produce and the loader reads back,
 * and Python's insertion-ordered `dict` as a sequence of key/value pairs.
 */
module Json {
  import opened Optional
  import opened Time

  /**
   * `JIso(t)` is the text `t.isoformat()` produces; it is kept opaque, so the only
   * string `fromisoformat` is known to parse is one `isoformat` made.
   */
  datatype Json =
    | JNull
    | JBool(b: bool)
    | JInt(i: int)
    | JReal(r: real)
    | JStr(s: string)
    | JIso(t: Timestamp)
    | JArr(items: seq<Json>)
    | JObj(fields: seq<(string, Json)>)

  /** An insertion-ordered dictionary. */
  type Dict = seq<(string, Json)>

  /** Python truthiness: `bool(v)`. An isoformat string is never empty. */
  predicate Truthy(v: Json)
  {
    match v
    case JNull => false
    case JBool(b) => b
    case JInt(i) => i != 0
    case JReal(r) => r != 0.0
    case JStr(s) => s != ""
    case JIso(_) => true
    case JArr(items) => items != []
    case JObj(fields) => fields != []
  }

  function Keys(d: Dict): (ks: seq<string>)
    ensures |ks| == |d|
    ensures forall i :: 0 <= i < |d| ==> ks[i] == d[i].0
  {
    if d == [] then [] else Keys(d[..|d| - 1]) + [d[|d| - 1].0]
  }

  /** `d.get(k)`: the last binding of `k` wins, as in a dict display and in `json.load`. */
  function Get(d: Dict, k: string): (r: Option<Json>)
    ensures r.None? <==> k !in Keys(d)
  {
    if d == [] then None
    else if d[|d| - 1].0 == k then Some(d[|d| - 1].1)
    else Get(d[..|d| - 1], k)
  }

  /** `d.get(k, default)` */
  function GetOr(d: Dict, k: string, default: Json): Json
  {
    match Get(d, k)
    case Some(v) => v
    case None => default
  }

  /** With distinct keys, `d.get(k)` finds the value stored at `k`'s position. */
  lemma {:induction false} GetDistinct(d: Dict, i: nat)
    requires i < |d|
    requires forall a, b :: 0 <= a < b < |d| ==> d[a].0 != d[b].0
    ensures Get(d, d[i].0) == Some(d[i].1)
    decreases |d|
  {
    if i != |d| - 1 {
      GetDistinct(d[..|d| - 1], i);
    }
  }

  /** Every binding of k rebound to v, each in its place. */
  function Rebind(d: Dict, k: string, v: Json): (r: Dict)
    ensures |r| == |d|
    ensures forall i :: 0 <= i < |d| ==> r[i] == (if d[i].0 == k then (k, v) else d[i])
  {
    if d == [] then [] else Rebind(d[..|d| - 1], k, v) + [if d[|d| - 1].0 == k then (k, v) else d[|d| - 1]]
  }

  /** `d[k] = v`: an existing key keeps its position and takes the new value; a new key goes last. */
  function DictSet(d: Dict, k: string, v: Json): (r: Dict)
  {
    if k in Keys(d) then Rebind(d, k, v) else d + [(k, v)]
  }

  lemma {:induction false} GetRebind(d: Dict, k: string, v: Json, k': string)
    ensures Keys(Rebind(d, k, v)) == Keys(d)
    ensures Get(Rebind(d, k, v), k') == if k' == k && k in Keys(d) then Some(v) else Get(d, k')
    decreases |d|
  {
    if d != [] {
      var r := Rebind(d, k, v);
      assert r[..|r| - 1] == Rebind(d[..|d| - 1], k, v);
      assert Keys(d) == Keys(d[..|d| - 1]) + [d[|d| - 1].0];
      GetRebind(d[..|d| - 1], k, v, k');
    }
  }

  /** After `d[k] = v`, k reads back v, every other key reads as before, and keys keep their order. */
  lemma GetDictSet(d: Dict, k: string, v: Json)
    ensures Get(DictSet(d, k, v), k) == Some(v)
    ensures forall k' :: k' != k ==> Get(DictSet(d, k, v), k') == Get(d, k')
    ensures Keys(DictSet(d, k, v)) == if k in Keys(d) then Keys(d) else Keys(d) + [k]
  {
    if k in Keys(d) {
      GetRebind(d, k, v, k);
      forall k' | k' != k
        ensures Get(DictSet(d, k, v), k') == Get(d, k')
      {
        GetRebind(d, k, v, k');
      }
    } else {
      var r := d + [(k, v)];
      assert r[..|r| - 1] == d;
    }
  }
}
