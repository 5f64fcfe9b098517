/**
 * Parsed JSON values and the JavaScript property reads the handlers and
 * screens perform on them (`v.name`, `v?.name`, `v?.[0]`) and the truthiness
 * tests (`!v`) they branch on.
 */
module JsonValue {
  import opened Wrappers

  /** A value produced by `JSON.parse`; numbers are exact (floating point left out). */
  datatype Json =
    | JNull
    | JBool(b: bool)
    | JNum(n: real)
    | JStr(s: string)
    | JArr(items: seq<Json>)
    | JObj(fields: map<string, Json>)

  /** JavaScript truthiness: null, false, 0 and "" are falsy; every array and object is truthy. */
  predicate Truthy(v: Json)
  {
    match v
    case JNull => false
    case JBool(b) => b
    case JNum(n) => n != 0.0
    case JStr(s) => s != ""
    case _ => true
  }

  /** Truthiness of a value that may be `undefined` (None). */
  predicate Present(o: Option<Json>)
  {
    o.Some? && Truthy(o.value)
  }

  /**
   * `v.name` on a non-null value, for the identifier names the code reads
   * (none of them is an own property of strings or arrays): an object's member,
   * otherwise `undefined`.
   */
  function Prop(v: Json, name: string): Option<Json>
    requires !v.JNull?
  {
    if v.JObj? && name in v.fields then Some(v.fields[name]) else None
  }

  /** `v[0]` on a non-null value: an array's first element, an object's member "0", a string's first character. */
  function Elem0(v: Json): Option<Json>
    requires !v.JNull?
  {
    match v
    case JArr(items) => if |items| > 0 then Some(items[0]) else None
    case JObj(fields) => if "0" in fields then Some(fields["0"]) else None
    case JStr(s) => if |s| > 0 then Some(JStr([s[0]])) else None
    case _ => None
  }

  /** `o?.name`: `undefined` when `o` is null or undefined. */
  function OptProp(o: Option<Json>, name: string): Option<Json>
  {
    if o.None? || o.value.JNull? then None else Prop(o.value, name)
  }

  /** `o?.[0]`: `undefined` when `o` is null or undefined. */
  function OptElem0(o: Option<Json>): Option<Json>
  {
    if o.None? || o.value.JNull? then None else Elem0(o.value)
  }

  /** An object literal with one member. */
  function Obj1(k: string, v: Json): Json
  {
    JObj(map[k := v])
  }

  /** An object literal with two distinct members. */
  function Obj2(k1: string, v1: Json, k2: string, v2: Json): Json
  {
    JObj(map[k1 := v1, k2 := v2])
  }
}
