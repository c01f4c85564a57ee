# larascript-utils core, modelled in Dafny

This project models four small pieces of the larascript-utils TypeScript utility library:

- **UUID v4 recognition** (`isUuid`). A value is accepted only if it is a string in the 8-4-4-4-12 hexadecimal form of section 4 of RFC 9562. The version digit must be `4` (section 5.4 of RFC 9562). The variant digit must be one of `8 9 a b` (the RFC variant of section 4.1). Letter case does not matter.
- **UUID validation** (`validateUuid`). It throws an `Error("Invalid UUID format")` for every value `isUuid` rejects, and otherwise returns nothing.
- **`returnOrThrow`**. It makes a three-way decision: throw the supplied error, return the supplied value, or throw `Error("Invalid properties")`.
- **`BaseFormatter`**. It is the holder of a formatter's options. It has one mutable field, a setter that replaces the field and returns the formatter, and a getter.

## Layout

- `js_values.dfy` (module `JsValues`) holds the shared types. `JsValue` is a dynamically typed JavaScript value: undefined, null, boolean, number, string, object, array, function, or an `Error` with its message. `Completion` says how a call ends: `Normal(value)` when it returns and `Throw(thrown)` when it throws. `Truthy` is JavaScript's ToBoolean. `Option` stands for a property that may be undefined.
- `uuid.dfy` (module `Uuid`) models `isUuid`. `UUID_V4_REGEX` is written out as an anchored, fixed-width pattern, one atom per character: a literal character, or a bracket class of character ranges. The pattern is built from counted terms such as `[0-9a-f]{8}`, and it is matched under the ignore-case flag as ECMAScript defines it. Beside it, `IsUuidV4Text` gives an independent positional definition: 36 characters, hyphens at indices 8, 13 and 18 and 23, `4` at index 14, a variant digit at index 19, and hexadecimal digits everywhere else. The two definitions are proved equal.
- `validate_uuid.dfy` (module `UuidValidation`) models `validateUuid` as a function that returns a `Completion`.
- `uuid_examples.dfy` (module `UuidExamples`) gives the outcome of every value used in the validation tests.
- `return_or_throw.dfy` (module `ReturnOrThrowUtil`) models `returnOrThrow` over the `TReturnOrThrow` record.
- `base_formatter.dfy` (module `Formatters`) models `BaseFormatter` as a Dafny class. Its field `formatterOptions` is updated in place by the setter, and its methods carry frame conditions.

Modelling decisions:

- **Regex case-insensitivity.** ECMAScript's ignore-case matching compares upper-cased forms. It never maps a non-ASCII character to an ASCII one, and the pattern contains only ASCII characters. So for this pattern, upper-casing only ASCII letters gives exactly the same matches.
- **`returnOrThrow` condition.** The source tests `shouldThrow && throwable`, and it checks that `returns !== undefined`. So `throwable` is a `JsValue` tested for truthiness, and `returns` is a `JsValue` that is `Undefined` when the property is missing. `null` is a separate value from `Undefined` and is returned.
- **Field name.** `returns` is a Dafny keyword, so the record field is called `returnValue`.
- **Formatter options.** `None` is the undefined options value.

## Model

| member | source | states |
|---|---|---|
| `Uuid.IsUuid` | src/utils/isUuid.ts:10-20 | accepts a value exactly when it is a string of the positional v4 form; undefined, null and non-strings are rejected |
| `Uuid.RegexTestIsPositional` | src/utils/isUuid.ts:2-3 | the anchored, ignore-case pattern matches a string exactly when the string has length 36, hyphens at 8/13/18/23, `4` at 14, a variant digit at 19 and hex digits elsewhere |
| `Uuid.MatchesAnchoredPointwise` | src/utils/isUuid.ts:3 | an anchored (`^…$`) fixed-width match holds exactly when lengths are equal and every character matches its atom |
| `Uuid.UuidV4PatternShape` | src/utils/isUuid.ts:3 | the expanded pattern is the 8-4-4-4-12 sequence of hex atoms and hyphens, with literal `4` and the variant class in their places |
| `Uuid.PatternAtomAt` | src/utils/isUuid.ts:3 | the pattern has 36 atoms, and atom `i` accepts exactly the characters allowed at index `i` |
| `Uuid.HexClassMatches` | src/utils/isUuid.ts:3 | under ignore-case, `[0-9a-f]` accepts exactly the hex digits of either case |
| `Uuid.VariantClassMatches` | src/utils/isUuid.ts:3 | under ignore-case, `[89ab]` accepts exactly 8, 9, a, b, A, B |
| `Uuid.FromGroups` | src/utils/isUuid.ts:2-3 | completeness: any five hex groups of 8/4/4/4/12 joined by hyphens, with `4` opening the third group and a variant digit opening the fourth, are accepted |
| `Uuid.AcceptedLayout` | src/utils/isUuid.ts:2-3 | every accepted value is a 36-character string with `-` at indices 8, 13, 18 and 23 |
| `Uuid.AcceptedVersionAndVariant` | src/utils/isUuid.ts:3 | every accepted string has `4` at index 14 and one of 8 9 a b A B at index 19 |
| `Uuid.RejectsNonStrings` | src/utils/isUuid.ts:11-17 | undefined, null and every non-string value are rejected |
| `Uuid.MatchesIgnoringCase` | src/utils/isUuid.ts:3 | with the `i` flag, whether a pattern matches depends only on the case-folded characters |
| `Uuid.AtomMatchesIgnoringCase` | src/utils/isUuid.ts:3 | with the `i` flag, one atom gives the same answer for two characters that differ only in case |
| `Uuid.IsUuidIgnoresCase` | src/utils/isUuid.ts:3 | two strings equal up to letter case are accepted or rejected together |
| `Uuid.ChangingOneLetterCase` | src/utils/isUuid.ts:3 | upper- or lower-casing the character at any one index leaves acceptance unchanged |
| `UuidValidation.ValidateUuid` | src/utils/validateUuid.ts:8-12 | completes normally, returning undefined, exactly when `isUuid` holds; otherwise it throws an `Error` whose message is exactly "Invalid UUID format" |
| `UuidValidation.ValidateUuidAcceptsExactly` | src/utils/validateUuid.ts:9-11 | validation completes exactly for strings of the positional v4 form |
| `UuidValidation.RejectionsAreIndistinguishable` | src/utils/validateUuid.ts:9-11 | any two rejected values give the identical outcome, so no rejection reason can be told apart |
| `UuidValidation.ValidateUuidRejects` | src/tests/utils/validateUuid.test.ts:29-57 | a non-string, a wrong length, a misplaced hyphen, a wrong version digit or a wrong variant digit each give the one "Invalid UUID format" error |
| `UuidExamples.AcceptsLowerCaseExample` | src/tests/utils/validateUuid.test.ts:7-9 | `123e4567-e89b-42d3-a456-556642440000` is accepted |
| `UuidExamples.AcceptsSecondLowerCaseExample` | src/tests/utils/validateUuid.test.ts:10-12 | `550e8400-e29b-41d4-a716-446655440000` is accepted |
| `UuidExamples.AcceptsUpperCaseExample` | src/tests/utils/validateUuid.test.ts:15-19 | the upper-case form is accepted |
| `UuidExamples.AcceptsMixedCaseExample` | src/tests/utils/validateUuid.test.ts:21-25 | the mixed-case form is accepted |
| `UuidExamples.RejectsWrongVersionExample` | src/tests/utils/validateUuid.test.ts:31-33 | a version-1 string throws "Invalid UUID format" |
| `UuidExamples.RejectsWrongVariantExample` | src/tests/utils/validateUuid.test.ts:34-36 | a string with variant digit `c` throws "Invalid UUID format" |
| `UuidExamples.RejectsMalformedExamples` | src/tests/utils/validateUuid.test.ts:29-69 | the hyphen-less form, the empty string, "not-a-uuid" and "invalid-uuid" throw "Invalid UUID format" |
| `UuidExamples.RejectsNonStringExamples` | src/tests/utils/validateUuid.test.ts:42-53 | a number, a boolean, an object, an array, a function, null and undefined throw "Invalid UUID format" |
| `ReturnOrThrowUtil.ReturnOrThrow` | src/utils/returnOrThrow.ts:19-31 | returns normally exactly when no supplied error is thrown and `returns` is defined, and then it yields `returns` unchanged, never undefined; with `shouldThrow` and a truthy throwable it throws that throwable; every other failure is "Invalid properties" |
| `ReturnOrThrowUtil.ThrowWins` | src/utils/returnOrThrow.ts:24-26 | with `shouldThrow` true and an `Error` supplied, that exact error is thrown even when `returns` is defined |
| `ReturnOrThrowUtil.NoThrowIgnoresThrowable` | src/utils/returnOrThrow.ts:24-30 | with `shouldThrow` false the outcome does not depend on the throwable, and any failure is "Invalid properties" |
| `ReturnOrThrowUtil.FalsyThrowableIsSkipped` | src/utils/returnOrThrow.ts:24-30 | a falsy throwable is never thrown, even when `shouldThrow` is true |
| `ReturnOrThrowUtil.FalsyValuesAreReturned` | src/utils/returnOrThrow.ts:27-29 | null, false, 0 and "" in `returns` are returned unchanged |
| `ReturnOrThrowUtil.MissingReturnsIsInvalid` | src/utils/returnOrThrow.ts:27-30 | with no supplied error to throw and `returns` undefined, the call throws "Invalid properties" |
| `Formatters.BaseFormatter.constructor` | src/baseFormatter/index.ts:15 | a new formatter holds undefined options |
| `Formatters.BaseFormatter.SetFormatterOptions` | src/baseFormatter/index.ts:24-27 | the stored options become exactly the argument, with no merging (`None` clears them), and the formatter itself is returned |
| `Formatters.BaseFormatter.GetFormatterOptions` | src/baseFormatter/index.ts:33-35 | returns the stored options and modifies nothing |
| `Formatters.SetThenGet` | src/baseFormatter/index.ts:24-35 | after two chained writes, reading back gives the second: the last write wins, and the returned formatter is the one written |

## Left out

- `BaseFormatter.format` is abstract and has no body. The `IFormatter` interface only declares types. Neither is modelled.
- The timing helpers in `src/utils/minExecTime.ts` are not modelled. They depend on async execution, the wall clock and timers.
- `captureError` in `src/utils/captureError.ts` is not modelled. It forwards exceptions from foreign async code to callbacks.
- The mixin and cast helpers are not modelled: `src/compose.ts`, `src/casts/HasCastableConcern.ts`, `src/casts/BaseCastable.ts` and `src/casts/castObject.ts`. They are thin wrappers that hand everything to a casting library, and that library is not part of this model.
- `MoveObjectToProperty`, `PrefixedPropertyGrouper`, `deepClone`, `replaceEnvValue`, `forceString` and `parseBooleanFromString` are not modelled. Only their tests are present; their implementation files are not part of this model.
- Numbers are integers here. Floating point, `NaN` (which is falsy) and `-0` are not modelled. Among numbers, only the falsiness of `0` matters to `returnOrThrow`.
- Errors are compared by message. Error object identity, stack traces and `instanceof` are not modelled.
- `shouldThrow` is typed `boolean` in the source and is modelled as one. A caller passing a non-boolean through an untyped path is not modelled.
- A general regular-expression engine is not modelled. The model covers only fixed-width anchored patterns of literal characters and bracket classes, which is all `UUID_V4_REGEX` uses.
- Purity of `validateUuid` is not stated as a lemma. It holds because the model is a Dafny function: it has no state, and the same input always gives the same outcome.
