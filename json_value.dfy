/**
 * JSON values as Python holds them after `json.loads`, and the handful of Python
 * behaviours the backend applies to them besides dict access: truthiness, iteration,
 * `x[0]`, and the messages of the exceptions these raise on a value of the wrong type.
 */
module JsonValue {
  import opened Wrappers

  /**
   * A decoded JSON value. An object is its list of key/value pairs in insertion order,
   * as a Python dict keeps them; the decoder gives every key once.
   */
  datatype Json =
    | JNull
    | JBool(b: bool)
    | JInt(i: int)
    | JFloat(f: real)
    | JString(s: string)
    | JArray(items: seq<Json>)
    | JObject(fields: seq<(string, Json)>)

  /** Python's truth value of a decoded JSON value (`bool(v)`). */
  predicate Truthy(v: Json) {
    match v
    case JNull => false
    case JBool(b) => b
    case JInt(i) => i != 0
    case JFloat(f) => f != 0.0
    case JString(s) => s != []
    case JArray(xs) => xs != []
    case JObject(fs) => fs != []
  }

  /** Python's falsy JSON values are exactly `None`, `False`, `0`, `0.0` and the empty string, list and dict. */
  lemma FalsyValues(v: Json)
    ensures !Truthy(v) <==> v in [JNull, JBool(false), JInt(0), JFloat(0.0), JString([]), JArray([]), JObject([])]
  {
  }

  /** The Python type name that appears in the messages of `TypeError` and `AttributeError`. */
  function TypeName(v: Json): string {
    match v
    case JNull => "NoneType"
    case JBool(_) => "bool"
    case JInt(_) => "int"
    case JFloat(_) => "float"
    case JString(_) => "str"
    case JArray(_) => "list"
    case JObject(_) => "dict"
  }

  /** `str(e)` of the `AttributeError` raised by `v.<name>` on a value that is not a dict. */
  function NoAttribute(v: Json, name: string): string {
    "'" + TypeName(v) + "' object has no attribute '" + name + "'"
  }

  /**
   * `for x in v`: a list gives its items, a string its characters (each a one-character
   * string), a dict its keys; any other value raises `TypeError`.
   */
  function Iterate(v: Json): (r: Result<seq<Json>, string>)
    ensures r.Failure? <==> (v.JNull? || v.JBool? || v.JInt? || v.JFloat?)
    ensures v.JArray? ==> r == Success(v.items)
    ensures v.JString? ==>
              && r.Success? && |r.value| == |v.s|
              && forall k :: 0 <= k < |v.s| ==> r.value[k] == JString([v.s[k]])
    ensures v.JObject? ==>
              && r.Success? && |r.value| == |v.fields|
              && forall k :: 0 <= k < |v.fields| ==> r.value[k] == JString(v.fields[k].0)
  {
    match v
    case JArray(xs) => Success(xs)
    case JString(s) => Success(seq(|s|, k requires 0 <= k < |s| => JString([s[k]])))
    case JObject(fs) => Success(seq(|fs|, k requires 0 <= k < |fs| => JString(fs[k].0)))
    case _ => Failure("'" + TypeName(v) + "' object is not iterable")
  }

  /**
   * `v[0]`: the first item of a list, the first character of a string; a dict raises
   * `KeyError(0)`, whose message is `0`; a scalar is not subscriptable.
   */
  function First(v: Json): (r: Result<Json, string>)
    ensures r.Success? <==> Truthy(v) && (v.JArray? || v.JString?)
    ensures v.JArray? && Truthy(v) ==> r == Success(v.items[0])
  {
    match v
    case JArray(xs) => if xs == [] then Failure("list index out of range") else Success(xs[0])
    case JString(s) => if s == [] then Failure("string index out of range") else Success(JString([s[0]]))
    case JObject(_) => Failure("0")
    case _ => Failure("'" + TypeName(v) + "' object is not subscriptable")
  }

  /**
   * `str(v)`, as an f-string renders it: a string is itself; how Python prints any other
   * value is given by `render`.
   */
  function PyStr(render: Json -> string, v: Json): string {
    if v.JString? then v.s else render(v)
  }
}
