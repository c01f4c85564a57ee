/** Dynamically typed JavaScript values and the two ways a call can complete. */
module JsValues {

  /** The conventional present/absent wrapper. */
  datatype Option<+T> = None | Some(value: T)

  /**
   * A JavaScript value, as far as the utilities below can tell values apart.
   * Numbers are kept as integers; `Object`, `Array` and `Function` stand for
   * any value of those kinds, and `ErrorObject` for an `Error` instance with
   * its message.
   */
  datatype JsValue =
    | Undefined
    | Null
    | Bool(b: bool)
    | Num(n: int)
    | Str(s: string)
    | Object
    | Array
    | Function
    | ErrorObject(message: string)

  /** How a call ends: it returns a value, or it throws one. */
  datatype Completion = Normal(value: JsValue) | Throw(thrown: JsValue)

  /** ECMAScript ToBoolean: the falsy values are undefined, null, false, 0 and "". */
  predicate Truthy(v: JsValue)
  {
    match v
    case Undefined => false
    case Null => false
    case Bool(b) => b
    case Num(n) => n != 0
    case Str(s) => s != ""
    case _ => true
  }

  /** `typeof v === "string"` */
  predicate IsString(v: JsValue)
  {
    v.Str?
  }
}
