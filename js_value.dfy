/** Values as a parsed JSON request body (or `JSON.parse` result) presents
    them to JavaScript code, with the two operations the IDE applies to
    untyped data: truthiness and property access. */
module JsValues {

  datatype JsValue =
    | Undefined
    | Null
    | Bool(b: bool)
    | Num(n: real)
    | Str(s: string)
    | Arr(items: seq<JsValue>)
    | Obj(fields: map<string, JsValue>)

  /** JavaScript truthiness: `undefined`, `null`, `false`, `0` and `''` are
      falsy; every array and object is truthy. */
  predicate Truthy(v: JsValue) {
    match v
    case Undefined => false
    case Null => false
    case Bool(b) => b
    case Num(n) => n != 0.0
    case Str(s) => s != []
    case Arr(_) => true
    case Obj(_) => true
  }

  /** `v.key` on a value that is neither `null` nor `undefined`: an own field
      of an object, and `undefined` for every other kind of value (the
      properties the IDE reads are never array or string built-ins). */
  function Get(v: JsValue, key: string): JsValue
    requires !v.Null? && !v.Undefined?
  {
    match v
    case Obj(fields) => if key in fields then fields[key] else Undefined
    case _ => Undefined
  }

  /** A truthy string, the shape `!x || typeof x !== 'string'` rejects. */
  predicate IsNonEmptyString(v: JsValue) {
    v.Str? && v.s != []
  }
}
