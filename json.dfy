/**
 * JavaScript values as they come out of `JSON.parse`, and the few pieces of JavaScript semantics the
 * components apply to them: truthiness, `typeof v === 'object'`, `Object.keys` / `Object.entries`
 * and `String(v)`. Numbers are integers; floating point is not modelled.
 */
module JsValues {

  datatype Json =
    | JNull
    | JBool(b: bool)
    | JNumber(n: int)
    | JString(s: string)
    | JArray(items: seq<Json>)
    /** An object: its members in `Object.keys` order. */
    | JObject(members: seq<(string, Json)>)

  /** The falsy values among these: `null`, `false`, `0` and `""`. */
  predicate IsFalsy(v: Json) {
    match v
    case JNull => true
    case JBool(b) => !b
    case JNumber(n) => n == 0
    case JString(s) => s == ""
    case _ => false
  }

  /** `typeof v === 'object'`: true of `null`, arrays and objects. */
  predicate IsObjectType(v: Json) {
    v.JNull? || v.JArray? || v.JObject?
  }

  /** The decimal digits of `n`, as `String(n)` writes a non-negative integer. */
  function NatToString(n: nat): (r: string)
    ensures |r| >= 1
    ensures forall i :: 0 <= i < |r| ==> '0' <= r[i] <= '9'
    ensures n < 10 <==> |r| == 1
  {
    var d := ['0', '1', '2', '3', '4', '5', '6', '7', '8', '9'];
    if n < 10 then [d[n]] else NatToString(n / 10) + [d[n % 10]]
  }

  /** `Object.entries(v)` for an array (keys are the indices) or an object. */
  function Entries(v: Json): (r: seq<(string, Json)>)
    requires v.JArray? || v.JObject?
    ensures v.JArray? ==> |r| == |v.items| && forall i :: 0 <= i < |r| ==> r[i] == (NatToString(i), v.items[i])
    ensures v.JObject? ==> r == v.members
  {
    match v
    case JArray(items) => seq(|items|, i requires 0 <= i < |items| => (NatToString(i), items[i]))
    case JObject(members) => members
  }

  /** `String(v)` for a value that is not of type 'object'. */
  function DisplayString(v: Json): (r: string)
    requires !IsObjectType(v)
    ensures v.JString? ==> r == v.s
    ensures v.JNumber? && v.n >= 0 ==> r == NatToString(v.n)
    ensures v.JNumber? && v.n < 0 ==> r == "-" + NatToString(-v.n)
  {
    match v
    case JBool(b) => if b then "true" else "false"
    case JNumber(n) => if n < 0 then "-" + NatToString(-n) else NatToString(n)
    case JString(s) => s
  }
}
