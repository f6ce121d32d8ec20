/**
 * The JavaScript values that `JSON.parse` can produce, with the two pieces of
 * JavaScript semantics the receipt function depends on: truthiness and
 * property access (which yields `undefined`, here `None`, for a missing key or
 * a non-object).
 */
module Js {
  import opened Common

  /** A JSON value. Numbers are exact reals: `JSON.parse` never yields NaN. */
  datatype Value =
    | Null
    | Bool(b: bool)
    | Number(n: real)
    | Str(s: string)
    | Array(elems: seq<Value>)
    | Object(fields: map<string, Value>)

  /** JavaScript truthiness of a parsed value (`undefined` is `None`). */
  predicate Truthy(v: Option<Value>) {
    match v
    case None => false
    case Some(Null) => false
    case Some(Bool(b)) => b
    case Some(Number(n)) => n != 0.0
    case Some(Str(s)) => s != ""
    case Some(Array(_)) => true
    case Some(Object(_)) => true
  }

  /**
   * `v[key]` for a parsed value: only an object has own named properties;
   * on a string, number, boolean or array the names used here are `undefined`.
   * (`null[key]` throws; callers check truthiness first.)
   */
  function Get(v: Value, key: string): Option<Value> {
    if v.Object? && key in v.fields then Some(v.fields[key]) else None
  }

  /** `typeof v[key] === 'string'`. */
  predicate HasString(v: Value, key: string) {
    var f := Get(v, key);
    f.Some? && f.value.Str?
  }

  /** `typeof v[key] === 'number'`. */
  predicate HasNumber(v: Value, key: string) {
    var f := Get(v, key);
    f.Some? && f.value.Number?
  }
}
