/**
 Decoded JSON values as Python sees them after `json.loads`: objects are
 dictionaries, kept as key/value lists in insertion order (the parser is
 responsible for giving each key once, as `json.loads` does).
 */
module PyJson {
  import opened Wrappers

  datatype Json =
    | JNull
    | JBool(b: bool)
    | JNumber(n: real)
    | JString(s: string)
    | JArray(items: seq<Json>)
    | JObject(members: seq<(string, Json)>)

  /** Python truthiness: `None`, `False`, `0`, `""`, `[]` and `{}` are false. */
  predicate Truthy(v: Json) {
    match v
    case JNull => false
    case JBool(b) => b
    case JNumber(n) => n != 0.0
    case JString(s) => s != ""
    case JArray(a) => a != []
    case JObject(m) => m != []
  }

  /** `d.get(key)` on a dictionary: the value stored under `key`, or `None`. */
  function Get(members: seq<(string, Json)>, key: string): (r: Option<Json>)
    ensures r.None? <==> forall i :: 0 <= i < |members| ==> members[i].0 != key
    ensures r.Some? ==> exists i :: 0 <= i < |members| && members[i] == (key, r.value)
    decreases |members|
  {
    if |members| == 0 then None
    else if members[0].0 == key then Some(members[0].1)
    else Get(members[1..], key)
  }

  /**
   What `for x in v` visits: a list yields its items, a string its characters
   as one-character strings, a dictionary its keys; `None`, booleans and
   numbers are not iterable (a `TypeError`).
   */
  function Iterate(v: Json): (r: Option<seq<Json>>)
    ensures r.None? <==> v.JNull? || v.JBool? || v.JNumber?
    ensures v.JArray? ==> r == Some(v.items)
    ensures v.JString? ==>
              (r.Some? && |r.value| == |v.s|
               && forall i :: 0 <= i < |v.s| ==> r.value[i] == JString([v.s[i]]))
    ensures v.JObject? ==>
              (r.Some? && |r.value| == |v.members|
               && forall i :: 0 <= i < |v.members| ==> r.value[i] == JString(v.members[i].0))
  {
    match v
    case JArray(items) => Some(items)
    case JString(s) => Some(seq(|s|, i requires 0 <= i < |s| => JString([s[i]])))
    case JObject(m) => Some(seq(|m|, i requires 0 <= i < |m| => JString(m[i].0)))
    case _ => None
  }
}
