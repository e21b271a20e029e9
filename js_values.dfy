/** JavaScript values as the dashboard sees them: document fields read from
    the store, grid rows, API error objects. */
module JsValues {

  datatype Option<+T> = None | Some(value: T)

  /** A JavaScript number. The model needs only comparisons with zero and the
      NaN case, so a number is either NaN or a real value. */
  datatype Num = NaN | Val(r: real)

  /** A JSON-like JavaScript value. `JUndefined` stands for a missing
      property or an explicit `undefined`. */
  datatype Json =
    | JUndefined
    | JNull
    | JBool(b: bool)
    | JNum(n: Num)
    | JStr(s: string)
    | JArr(items: seq<Json>)
    | JObj(fields: map<string, Json>)

  /** A stored document, a row of a grid or the payload of a write. */
  type Doc = map<string, Json>

  /** JavaScript truthiness: `undefined`, `null`, `false`, `0`, `NaN` and `""`
      are falsy; every array and object is truthy. */
  predicate Truthy(v: Json)
  {
    match v
    case JUndefined => false
    case JNull => false
    case JBool(b) => b
    case JNum(n) => n.Val? && n.r != 0.0
    case JStr(s) => s != ""
    case JArr(_) => true
    case JObj(_) => true
  }

  /** The `typeof` operator (`null` and arrays are "object"). */
  function TypeOf(v: Json): string
  {
    match v
    case JUndefined => "undefined"
    case JNull => "object"
    case JBool(_) => "boolean"
    case JNum(_) => "number"
    case JStr(_) => "string"
    case JArr(_) => "object"
    case JObj(_) => "object"
  }

  /** Property read `d.key`: `undefined` when the document has no such field. */
  function Get(d: Doc, key: string): Json
  {
    if key in d then d[key] else JUndefined
  }

  /** Optional chaining `v?.key`: `undefined` when `v` is `null`,
      `undefined` or a value without that own property. */
  function Member(v: Json, key: string): Json
  {
    if v.JObj? then Get(v.fields, key) else JUndefined
  }
}
