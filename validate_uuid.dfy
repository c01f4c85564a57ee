/**
 * `validateUuid(value)`: the throwing wrapper over `isUuid`. It returns
 * nothing (undefined) when the value is a version-4 UUID string and
 * otherwise throws an `Error` with one fixed message, whatever the reason
 * for the rejection.
 */
module UuidValidation {
  import opened JsValues
  import opened Uuid

  const InvalidUuidMessage: string := "Invalid UUID format"

  function ValidateUuid(value: JsValue): (c: Completion)
    ensures c.Normal? <==> IsUuid(value)
    ensures c.Normal? ==> c.value == Undefined
    ensures c.Throw? ==> c.thrown == ErrorObject("Invalid UUID format")
  {
    if !IsUuid(value) then Throw(ErrorObject(InvalidUuidMessage)) else Normal(Undefined)
  }

  /** Validation completes exactly for strings of the positional version-4 form. */
  lemma ValidateUuidAcceptsExactly(value: JsValue)
    ensures ValidateUuid(value).Normal? <==> value.Str? && IsUuidV4Text(value.s)
  {
  }

  /** Every rejection is the same single error: rejected values cannot be told apart by their outcome. */
  lemma RejectionsAreIndistinguishable(v: JsValue, w: JsValue)
    requires !IsUuid(v) && !IsUuid(w)
    ensures ValidateUuid(v) == ValidateUuid(w)
  {
  }

  /**
   * Each rejection reason the tests exercise ends in the one error: a value
   * that is not a string (including undefined and null), a string of the
   * wrong length (the empty string, the hyphen-less 32-character form), a
   * misplaced hyphen, a version digit other than 4, a variant digit outside
   * 8, 9, a, b.
   */
  lemma ValidateUuidRejects(value: JsValue)
    requires || !value.Str?
             || |value.s| != 36
             || (|value.s| == 36 && (value.s[8] != '-' || value.s[13] != '-' || value.s[18] != '-' || value.s[23] != '-'))
             || (|value.s| == 36 && value.s[14] != '4')
             || (|value.s| == 36 && value.s[19] !in {'8', '9', 'a', 'b', 'A', 'B'})
    ensures ValidateUuid(value) == Throw(ErrorObject("Invalid UUID format"))
  {
    if value.Str? && |value.s| == 36 {
      var s := value.s;
      assert !(AllowedAt(8, s[8]) && AllowedAt(13, s[13]) && AllowedAt(18, s[18]) && AllowedAt(23, s[23])
               && AllowedAt(14, s[14]) && AllowedAt(19, s[19]));
    }
  }
}
