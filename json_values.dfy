/**
 * Values produced by decoding a JSON text (Python's `json.loads`): an
 * object is the decoded dict, its members listed in document order.
 */
module JsonValues {
  import opened Wrappers

  datatype Json =
    | JNull
    | JBool(b: bool)
    | JInt(i: int)
    | JFloat(f: real)
    | JString(s: string)
    | JArray(items: seq<Json>)
    | JObject(members: seq<(string, Json)>)

  /** The keys of a decoded dict are pairwise distinct. */
  predicate DistinctKeys<V>(members: seq<(string, V)>) {
    forall i, j :: 0 <= i < j < |members| ==> members[i].0 != members[j].0
  }

  /** `d.get(key)`: the value stored under `key`, if any. */
  function Get<V>(members: seq<(string, V)>, key: string): (r: Option<V>)
    ensures r.None? <==> forall i :: 0 <= i < |members| ==> members[i].0 != key
    ensures r.Some? ==> exists i :: 0 <= i < |members| && members[i] == (key, r.value)
  {
    if members == [] then None
    else if members[0].0 == key then Some(members[0].1)
    else Get(members[1..], key)
  }

  /** `d.get(key, default)`. */
  function GetOr<V>(members: seq<(string, V)>, key: string, default: V): V {
    match Get(members, key)
    case Some(v) => v
    case None => default
  }
}
