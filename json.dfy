/**
 * JavaScript values as `JSON.parse` produces them. Numbers are kept as
 * integers and are never interpreted by the core; an object's fields are in
 * the order `Object.keys` enumerates them, with no key twice.
 */
module Json {
  import opened Wrappers

  datatype Json =
    | JNull
    | JBool(b: bool)
    | JNumber(n: int)
    | JString(s: string)
    | JArray(items: seq<Json>)
    | JObject(fields: seq<(string, Json)>)

  /** `JSON.parse` as an oracle: a value on success, `None` when it throws. */
  type Decoder = string -> Option<Json>

  /** JavaScript truthiness: `null`, `false`, `0`, `""` and `undefined` (`None`) are falsy. */
  predicate Truthy(v: Option<Json>) {
    match v
    case None => false
    case Some(JNull) => false
    case Some(JBool(b)) => b
    case Some(JNumber(n)) => n != 0
    case Some(JString(s)) => s != ""
    case Some(_) => true
  }

  /** The keys of an object's fields, in order. */
  function Keys(fields: seq<(string, Json)>): (ks: seq<string>)
    ensures |ks| == |fields|
    ensures forall k :: 0 <= k < |fields| ==> ks[k] == fields[k].0
  {
    if fields == [] then [] else [fields[0].0] + Keys(fields[1..])
  }

  /** Property access `o[key]`: the value of the first field named `key`, or `undefined`. */
  function Get(o: Json, key: string): (r: Option<Json>)
    ensures r.None? ==> !o.JObject? || key !in Keys(o.fields)
    ensures r.Some? ==> o.JObject? && exists k :: 0 <= k < |o.fields| && o.fields[k] == (key, r.value)
  {
    if !o.JObject? then None else FieldValue(o.fields, key)
  }

  function FieldValue(fields: seq<(string, Json)>, key: string): (r: Option<Json>)
    ensures r.None? ==> key !in Keys(fields)
    ensures r.Some? ==> exists k :: 0 <= k < |fields| && fields[k] == (key, r.value)
  {
    if fields == [] then None
    else if fields[0].0 == key then Some(fields[0].1)
    else
      var r := FieldValue(fields[1..], key);
      assert r.Some? ==> exists k :: 0 <= k < |fields[1..]| && fields[1..][k] == (key, r.value);
      assert Keys(fields) == [fields[0].0] + Keys(fields[1..]);
      r
  }
}
