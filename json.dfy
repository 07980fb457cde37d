/** The JSON values that cross the HTTP boundary. An object keeps its members
    in insertion order, as JavaScript objects do. Numbers are restricted to
    integers: JavaScript numbers are doubles, and fractional scores, values
    beyond 2^53 and the exponent notation a template literal uses from 1e21
    up are not modelled. */
module JsonValues {
  import opened Wrappers

  datatype Json =
    | Null
    | Bool(b: bool)
    | Number(n: int)
    | Str(s: string)
    | Array(items: seq<Json>)
    // Members are assumed to have distinct keys, as every object `JSON.parse` returns does.
    | Object(members: seq<(string, Json)>)

  /** `obj[key]`: the value of the first member named `key`, `None` for
      `undefined`. Used both for JSON objects and for the `scores` object. */
  function Get<V>(members: seq<(string, V)>, key: string): (r: Option<V>)
    ensures r.Some? <==> exists i :: 0 <= i < |members| && members[i].0 == key
    ensures r.Some? ==> exists i :: 0 <= i < |members| && members[i] == (key, r.value)
  {
    if members == [] then None
    else if members[0].0 == key then Some(members[0].1)
    else Get(members[1..], key)
  }
}
