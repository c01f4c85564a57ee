/**
 * The values the validation tests use, each with the outcome the model
 * gives it. Accepted strings are written group by group, joined by hyphens.
 */
module UuidExamples {
  import opened JsValues
  import opened Uuid
  import opened UuidValidation

  /** A lower-case version-4 UUID string is accepted. */
  lemma AcceptsLowerCaseExample()
    ensures ValidateUuid(Str("123e4567" + "-" + "e89b" + "-" + "42d3" + "-" + "a456" + "-" + "556642440000")) == Normal(Undefined)
  {
    FromGroups("123e4567", "e89b", "42d3", "a456", "556642440000");
  }

  /** A second lower-case string, with variant digit a, is accepted. */
  lemma AcceptsSecondLowerCaseExample()
    ensures ValidateUuid(Str("550e8400" + "-" + "e29b" + "-" + "41d4" + "-" + "a716" + "-" + "446655440000")) == Normal(Undefined)
  {
    FromGroups("550e8400", "e29b", "41d4", "a716", "446655440000");
  }

  /** The upper-case form of the first example is accepted. */
  lemma AcceptsUpperCaseExample()
    ensures ValidateUuid(Str("123E4567" + "-" + "E89B" + "-" + "42D3" + "-" + "A456" + "-" + "556642440000")) == Normal(Undefined)
  {
    FromGroups("123E4567", "E89B", "42D3", "A456", "556642440000");
  }

  /** A mixed-case form of the first example is accepted. */
  lemma AcceptsMixedCaseExample()
    ensures ValidateUuid(Str("123e4567" + "-" + "E89b" + "-" + "42d3" + "-" + "A456" + "-" + "556642440000")) == Normal(Undefined)
  {
    FromGroups("123e4567", "E89b", "42d3", "A456", "556642440000");
  }

  /** A version-1 string is rejected. */
  lemma RejectsWrongVersionExample()
    ensures ValidateUuid(Str("123e4567-e89b-12d3-a456-556642440000")) == Throw(ErrorObject("Invalid UUID format"))
  {
    ValidateUuidRejects(Str("123e4567-e89b-12d3-a456-556642440000"));
  }

  /** A string whose variant digit is c is rejected. */
  lemma RejectsWrongVariantExample()
    ensures ValidateUuid(Str("123e4567-e89b-42d3-c456-556642440000")) == Throw(ErrorObject("Invalid UUID format"))
  {
    ValidateUuidRejects(Str("123e4567-e89b-42d3-c456-556642440000"));
  }

  /** Strings of the wrong shape are rejected: no hyphens, empty, or not a UUID at all. */
  lemma RejectsMalformedExamples()
    ensures ValidateUuid(Str("123e4567e89b42d3a456556642440000")) == Throw(ErrorObject("Invalid UUID format"))
    ensures ValidateUuid(Str("")) == Throw(ErrorObject("Invalid UUID format"))
    ensures ValidateUuid(Str("not-a-uuid")) == Throw(ErrorObject("Invalid UUID format"))
    ensures ValidateUuid(Str("invalid-uuid")) == Throw(ErrorObject("Invalid UUID format"))
  {
    ValidateUuidRejects(Str("123e4567e89b42d3a456556642440000"));
    ValidateUuidRejects(Str(""));
    ValidateUuidRejects(Str("not-a-uuid"));
    ValidateUuidRejects(Str("invalid-uuid"));
  }

  /** Numbers, booleans, objects, arrays, functions, null and undefined are rejected. */
  lemma RejectsNonStringExamples()
    ensures ValidateUuid(Num(123)) == Throw(ErrorObject("Invalid UUID format"))
    ensures ValidateUuid(Bool(true)) == Throw(ErrorObject("Invalid UUID format"))
    ensures ValidateUuid(Object) == Throw(ErrorObject("Invalid UUID format"))
    ensures ValidateUuid(Array) == Throw(ErrorObject("Invalid UUID format"))
    ensures ValidateUuid(Function) == Throw(ErrorObject("Invalid UUID format"))
    ensures ValidateUuid(Null) == Throw(ErrorObject("Invalid UUID format"))
    ensures ValidateUuid(Undefined) == Throw(ErrorObject("Invalid UUID format"))
  {
  }
}
