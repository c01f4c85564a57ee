/**
 * `returnOrThrow({shouldThrow, throwable, returns})`: throws the supplied
 * error when asked to and one is present, otherwise returns the supplied
 * value when it is defined, and otherwise throws an `Error` saying the
 * properties are invalid.
 */
module ReturnOrThrowUtil {
  import opened JsValues

  const InvalidPropertiesMessage: string := "Invalid properties"

  /**
   * The `TReturnOrThrow<T>` argument record. The optional `returns`
   * property is the field `returnValue`, `Undefined` when it is absent;
   * `throwable` is whatever the caller passed, and only its truthiness
   * enters the `shouldThrow && throwable` condition.
   */
  datatype ReturnOrThrowArgs = ReturnOrThrowArgs(shouldThrow: bool, throwable: JsValue, returnValue: JsValue)

  /** The call fails with the caller's own throwable. */
  predicate ThrowsSupplied(args: ReturnOrThrowArgs)
  {
    args.shouldThrow && Truthy(args.throwable)
  }

  function ReturnOrThrow(args: ReturnOrThrowArgs): (c: Completion)
    ensures c.Normal? <==> !ThrowsSupplied(args) && args.returnValue != Undefined
    ensures c.Normal? ==> c.value == args.returnValue && c.value != Undefined
    ensures ThrowsSupplied(args) ==> c == Throw(args.throwable)
    ensures !ThrowsSupplied(args) && c.Throw? ==> c.thrown == ErrorObject("Invalid properties")
  {
    if args.shouldThrow && Truthy(args.throwable) then
      Throw(args.throwable)
    else if args.returnValue != Undefined then
      Normal(args.returnValue)
    else
      Throw(ErrorObject(InvalidPropertiesMessage))
  }

  /** With `shouldThrow` true and an `Error` supplied, that error is thrown even when `returns` is defined. */
  lemma ThrowWins(message: string, returnValue: JsValue)
    ensures ReturnOrThrow(ReturnOrThrowArgs(true, ErrorObject(message), returnValue)) == Throw(ErrorObject(message))
  {
  }

  /**
   * With `shouldThrow` false the supplied throwable is never raised: the
   * outcome does not depend on it at all.
   */
  lemma NoThrowIgnoresThrowable(t1: JsValue, t2: JsValue, returnValue: JsValue)
    ensures ReturnOrThrow(ReturnOrThrowArgs(false, t1, returnValue)) == ReturnOrThrow(ReturnOrThrowArgs(false, t2, returnValue))
    ensures ReturnOrThrow(ReturnOrThrowArgs(false, t1, returnValue)).Throw? ==>
            ReturnOrThrow(ReturnOrThrowArgs(false, t1, returnValue)).thrown == ErrorObject("Invalid properties")
  {
  }

  /**
   * A present but falsy throwable (undefined, null, false, 0, "") does not
   * count as an error to throw, even when `shouldThrow` is true.
   */
  lemma FalsyThrowableIsSkipped(args: ReturnOrThrowArgs)
    requires !Truthy(args.throwable)
    ensures ReturnOrThrow(args) ==
            if args.returnValue != Undefined then Normal(args.returnValue) else Throw(ErrorObject("Invalid properties"))
  {
  }

  /** Falsy values other than undefined are returned unchanged: null, false, 0 and "". */
  lemma FalsyValuesAreReturned(throwable: JsValue)
    ensures ReturnOrThrow(ReturnOrThrowArgs(false, throwable, Null)) == Normal(Null)
    ensures ReturnOrThrow(ReturnOrThrowArgs(false, throwable, Bool(false))) == Normal(Bool(false))
    ensures ReturnOrThrow(ReturnOrThrowArgs(false, throwable, Num(0))) == Normal(Num(0))
    ensures ReturnOrThrow(ReturnOrThrowArgs(false, throwable, Str(""))) == Normal(Str(""))
  {
  }

  /** When neither branch applies the call fails with "Invalid properties". */
  lemma MissingReturnsIsInvalid(shouldThrow: bool, throwable: JsValue)
    requires !(shouldThrow && Truthy(throwable))
    ensures ReturnOrThrow(ReturnOrThrowArgs(shouldThrow, throwable, Undefined)) == Throw(ErrorObject("Invalid properties"))
  {
  }
}
