/** Conventional optional value and success-or-error result. */
module Wrappers {
  datatype Option<+T> = None | Some(value: T)

  datatype Result<+T, +E> = Ok(value: T) | Err(error: E)
}

/** JSON values as `JSON.parse` produces them, and the few JavaScript
    conversions the pipeline applies to them: truthiness, property access
    and template-literal interpolation. Numbers are integers in this model. */
module JsonValue {
  import opened Wrappers
  import JsString

  datatype Json =
    | JNull
    | JBool(b: bool)
    | JNum(n: int)
    | JStr(s: string)
    | JArr(items: seq<Json>)
    | JObj(fields: map<string, Json>)

  /** A JSON object as a JavaScript record: key to value. A key that is not
      in the map reads as `undefined`. */
  type Record = map<string, Json>

  /** JavaScript truthiness of a JSON value: `null`, `false`, `0` and `""`
      are falsy; every array and every object, even an empty one, is truthy. */
  predicate Truthy(v: Json) {
    match v
    case JNull => false
    case JBool(b) => b
    case JNum(n) => n != 0
    case JStr(s) => s != ""
    case JArr(_) => true
    case JObj(_) => true
  }

  /** Truthiness of a property read, where a missing property is `undefined`
      and therefore falsy. */
  predicate Present(v: Option<Json>) {
    v.Some? && Truthy(v.value)
  }

  /** `record[key]`: the value, or `None` for `undefined`. */
  function Get(r: Record, key: string): (v: Option<Json>)
    ensures v.Some? <==> key in r
    ensures v.Some? ==> v.value == r[key]
  {
    if key in r then Some(r[key]) else None
  }

  /** `value.key` on a parsed value that is not `null`: an object yields its
      own property; a string, number, boolean or array has none of the keys
      the pipeline reads, so the read gives `undefined`. */
  function Property(v: Json, key: string): (r: Option<Json>)
    requires v != JNull
    ensures v.JObj? ==> r == Get(v.fields, key)
    ensures !v.JObj? ==> r == None
  {
    if v.JObj? then Get(v.fields, key) else None
  }

  /** `String(v)`, the text a template literal `${v}` inserts: strings as
      they are, `null`/`true`/`false` spelled out, integers in decimal, an
      array as its elements' texts joined by "," (with `null` elements
      empty), any other object as "[object Object]". */
  function Display(v: Json): (r: string)
    ensures v.JStr? ==> r == v.s
    decreases v, 0
  {
    match v
    case JNull => "null"
    case JBool(b) => if b then "true" else "false"
    case JNum(n) => JsString.IntToString(n)
    case JStr(s) => s
    case JArr(items) => JsString.Join(seq(|items|, i requires 0 <= i < |items| => ElementText(items[i])), ",")
    case JObj(_) => "[object Object]"
  }

  /** The text `Array.prototype.join` uses for one element: `null` becomes
      the empty string, anything else its `String` conversion. */
  function ElementText(v: Json): (r: string)
    ensures v == JNull ==> r == ""
    decreases v, 1
  {
    if v == JNull then "" else Display(v)
  }

  /** `String(x)` for a property read: `undefined` when it is missing. */
  function DisplayProperty(v: Option<Json>): (r: string)
    ensures v.None? ==> r == "undefined"
  {
    if v.None? then "undefined" else Display(v.value)
  }
}
