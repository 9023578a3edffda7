# vue-form-ease validators and `useForm`, in Dafny

This project models the validation core of vue-form-ease. That core has two parts:

- **Validator chains.** `string(v)`, `number(v)`, `boolean(v)`, `date(v)`, `array(v)` and `object(v)` each wrap a value in a `Validator`. Each check (`required`, `email`, `range`, ...) may record its error message. The message of the last failing check is the one `validate()` returns. Every check except `required` ignores an absent value.
- **`useForm`.** It keeps `formData`, `errors`, `valid` and `loading` for a form. It runs a field → validator mapping over the data, either in full or one field at a time. The batch helpers `execValidators` and `execAsyncValidators` run the same mapping over arbitrary data.

How the modules are laid out:

- Each validator kind is a `class Validator` with the wrapped `value` and a mutable `message`.
- Each check is a method that `modifies this`message`. It is proved against a per-kind `Check` datatype and its `Fails` predicate.
- Module `Chain` folds a sequence of checks. It proves that the last failure wins and that no message is ever cleared.
- Module `Patterns` gives each fixed regular expression of the string chain as an ASCII character-class predicate, with characterisation lemmas.
- Module `JsValues` models the JavaScript values the object validator and the form see: truthiness, property reads that throw on null/undefined, and own keys.
- Module `UseForm` has `ExecValidators` and `ExecAsyncValidators` as loops. They are proved equal to reference error maps (`SyncErrors`, `AsyncErrors`). The `Form` class holds the four pieces of state. Its methods state the whole new state.

Default messages are Dafny default parameter values; those that interpolate an integer (string `length`/`min`/`max`, array `minLength`) are built with its decimal rendering. The messages that interpolate a number, a date or an element (number `range`/`min`/`max`, the date comparisons, array `contains`) have no default; the caller passes the message.

## Model

| member | source | states |
|---|---|---|
| Chain.RunNeverClears | src/lib/validators/string.validators.ts:26-41 | Once a message is recorded, later checks never clear it; they only ever assign. |
| Chain.AllPassedKeeps | src/lib/validators/string.validators.ts:26-41 | If every check passes, the message stays what it was. |
| Chain.LastFailureWins | src/lib/validators/string.validators.ts:26-41 | The chain's message is the message of the last failing check. |
| Chain.NoMessageIffAllPassed | src/lib/validators/string.validators.ts:17-19 | A fresh chain's `validate()` is undefined exactly when no check failed. |
| Chain.LastFailing | src/lib/validators/string.validators.ts:26-41 | If any check fails, there is a last failing one; every check after it passes. |
| Patterns.PatternInclusions | src/lib/validators/string.validators.ts:58-156 | alphabetic ⊆ alphanumeric ⊆ username, integer ⊆ alphanumeric, alphabetic ⊆ name. |
| Patterns.NumericCharacterization | src/lib/validators/string.validators.ts:85 | `^[-+]?\d*\.?\d+$` holds iff the string is an optional sign, then a non-empty run of digits and at most one dot that ends in a digit. |
| Patterns.IntegerIsNumeric | src/lib/validators/string.validators.ts:57-86 | Every string matching `^\d+$` matches the numeric pattern. |
| Patterns.NumericExamples | src/lib/validators/string.validators.ts:85 | "123", "123.34" and "-.5" are numeric; "123A", "123.4.3", "5." and "+" are not. |
| Patterns.EmailStructure | src/lib/validators/string.validators.ts:49 | An accepted email has exactly one `@`, not at the start. After the last dot come only letters, at least two of them. |
| Patterns.EmailAccepted | src/lib/validators/string.validators.ts:49 | "joe.doe@mail.example.com" is accepted. |
| Patterns.EmailRejected | src/lib/validators/string.validators.ts:49 | "invalid.email" (no `@`) and "joe@mail.c" (one-letter top-level part) are rejected. |
| Patterns.UuidCharacterization | src/lib/validators/string.validators.ts:164 | The UUID pattern holds iff the string has 36 characters, dashes at 8, 13, 18 and 23, and hex digits everywhere else. |
| Patterns.UuidAccepted | src/lib/validators/string.validators.ts:164 | "123e4567-e89b-12d3-a456-426655440000" is accepted. |
| Patterns.UuidRejected | src/lib/validators/string.validators.ts:164 | "invalid-uuid" is rejected. |
| Patterns.LowercaseCharacterization | src/lib/validators/string.validators.ts:174 | A string equals its lower-casing iff it holds no upper-case letter. |
| Patterns.UppercaseCharacterization | src/lib/validators/string.validators.ts:185 | A string equals its upper-casing iff it holds no lower-case letter. |
| StringValidators.Validator.FromValue | src/lib/validators/string.validators.ts:7-11 | Wraps the value with no message. |
| StringValidators.Validator.Validate | src/lib/validators/string.validators.ts:17-19 | Returns the recorded message and changes nothing. |
| StringValidators.Validator.Required | src/lib/validators/string.validators.ts:26-29 | Records the message iff the value is undefined, null or "". |
| StringValidators.Validator.Match | src/lib/validators/string.validators.ts:37-41 | On a non-blank value, records the message iff the regex test fails. |
| StringValidators.Validator.Email | src/lib/validators/string.validators.ts:48-50 | On a non-blank value, records the message iff the email pattern fails. |
| StringValidators.Validator.Integer | src/lib/validators/string.validators.ts:57-59 | On a non-blank value, records the message iff it is not all digits. |
| StringValidators.Validator.Alphabetic | src/lib/validators/string.validators.ts:66-68 | On a non-blank value, records the message iff it is not all ASCII letters. |
| StringValidators.Validator.Alphanumeric | src/lib/validators/string.validators.ts:75-77 | On a non-blank value, records the message iff it is not all ASCII letters and digits. |
| StringValidators.Validator.Numeric | src/lib/validators/string.validators.ts:84-86 | On a non-blank value, records the message iff the numeric pattern fails. |
| StringValidators.Validator.Url | src/lib/validators/string.validators.ts:93-101 | On a non-blank value, records the message iff the URL does not parse. |
| Common.Utf16Length | src/lib/validators/string.validators.ts:111 | `.length` counts UTF-16 code units: between one and two per character, and exactly one per character when none lies outside the Basic Multilingual Plane. |
| StringValidators.Validator.Length | src/lib/validators/string.validators.ts:109-114 | On a non-blank value, records the message iff its length in UTF-16 code units differs from n. |
| StringValidators.Validator.Min | src/lib/validators/string.validators.ts:122-126 | On a non-blank value, records the message iff it has fewer than n UTF-16 code units. |
| StringValidators.Validator.Max | src/lib/validators/string.validators.ts:134-138 | On a non-blank value, records the message iff it has more than n UTF-16 code units. |
| StringValidators.Validator.Username | src/lib/validators/string.validators.ts:145-147 | On a non-blank value, records the message iff it is not all letters, digits and `_`. |
| StringValidators.Validator.Name | src/lib/validators/string.validators.ts:154-156 | On a non-blank value, records the message iff it is not all letters and whitespace. |
| StringValidators.Validator.Uuid | src/lib/validators/string.validators.ts:163-165 | On a non-blank value, records the message iff the UUID pattern fails. |
| StringValidators.Validator.Lowercase | src/lib/validators/string.validators.ts:172-176 | On a non-blank value, records the message iff lower-casing changes it. |
| StringValidators.Validator.Uppercase | src/lib/validators/string.validators.ts:183-187 | On a non-blank value, records the message iff upper-casing changes it. |
| StringValidators.RequiredIffBlank | src/lib/validators/string.validators.ts:26-29 | `required` fails exactly on undefined, null and "". |
| StringValidators.AbsentIsIgnored | src/lib/validators/string.validators.ts:37-187 | Every check other than `required` passes on a blank value. |
| StringValidators.LengthCountsUtf16Units | src/lib/validators/string.validators.ts:109-138 | An emoji is two code units: it fails `length(1)` and passes `length(2)`, and four of them pass `min(8)` and fail `max(7)`. |
| StringValidators.LengthIsMinAndMax | src/lib/validators/string.validators.ts:109-138 | `length(n)` fails iff `min(n)` or `max(n)` fails; a length of exactly n passes both. |
| StringValidators.CharacterClassChecks | src/lib/validators/string.validators.ts:57-147 | integer, alphabetic, alphanumeric and username pass a non-empty string iff every character is in their class. |
| StringValidators.UuidCheck | src/lib/validators/string.validators.ts:163-165 | `uuid` passes iff the string is in 8-4-4-4-12 hex form. |
| StringValidators.LowercaseCheck | src/lib/validators/string.validators.ts:172-176 | `lowercase` fails iff the string holds an upper-case letter. |
| StringValidators.UppercaseCheck | src/lib/validators/string.validators.ts:183-187 | `uppercase` fails iff the string holds a lower-case letter. |
| StringValidators.IntegerPassesNumeric | src/lib/validators/string.validators.ts:57-86 | A value that passes `integer` passes `numeric`. |
| NumberValidators.Validator.FromValue | src/lib/validators/number.validators.ts:7-11 | Wraps the value with no message. |
| NumberValidators.Validator.Validate | src/lib/validators/number.validators.ts:17-19 | Returns the recorded message and changes nothing. |
| NumberValidators.Validator.Required | src/lib/validators/number.validators.ts:26-29 | Records the message iff the value is null or undefined. |
| NumberValidators.Validator.Integer | src/lib/validators/number.validators.ts:36-40 | On a present number, records the message iff it is NaN or not whole. |
| NumberValidators.Validator.Decimal | src/lib/validators/number.validators.ts:47-51 | On a present number, records the message iff it is NaN or whole. |
| NumberValidators.Validator.Positive | src/lib/validators/number.validators.ts:58-62 | On a present number, records the message iff it is below 0. |
| NumberValidators.Validator.Negative | src/lib/validators/number.validators.ts:69-73 | On a present number, records the message iff it is at least 0. |
| NumberValidators.Validator.Range | src/lib/validators/number.validators.ts:82-86 | On a present number, records the message iff it is below min or above max. |
| NumberValidators.Validator.Min | src/lib/validators/number.validators.ts:94-98 | On a present number, records the message iff it is below min. |
| NumberValidators.Validator.Max | src/lib/validators/number.validators.ts:106-110 | On a present number, records the message iff it is above max. |
| NumberValidators.RequiredOnlyOnNullish | src/lib/validators/number.validators.ts:26-29 | `required` fails exactly on null and undefined; 0 passes. |
| NumberValidators.AbsentIsIgnored | src/lib/validators/number.validators.ts:36-110 | Every check other than `required` passes on null and undefined. |
| NumberValidators.IntegerXorDecimal | src/lib/validators/number.validators.ts:36-51 | On a finite number exactly one of integer/decimal fails; NaN fails both. |
| NumberValidators.PositiveXorNegative | src/lib/validators/number.validators.ts:58-73 | On a finite number exactly one of positive/negative fails; 0 counts as positive; NaN fails neither. |
| NumberValidators.RangeIsMinAndMax | src/lib/validators/number.validators.ts:82-110 | `range(min, max)` fails iff `min(min)` or `max(max)` fails; both ends are inclusive. |
| NumberValidators.Examples | src/lib/validators/number.validators.ts:36-110 | 120 is integral and 125.5 is not; range(1, 10) rejects 0 and 11; min(10) accepts 10 and rejects 9. |
| BooleanValidators.Validator.FromValue | src/lib/validators/boolean.validators.ts:7-11 | Wraps the value with no message. |
| BooleanValidators.Validator.Validate | src/lib/validators/boolean.validators.ts:17-19 | Returns the recorded message and changes nothing. |
| BooleanValidators.Validator.Required | src/lib/validators/boolean.validators.ts:26-29 | Records the message iff the value is null or undefined. |
| BooleanValidators.Validator.IsTrue | src/lib/validators/boolean.validators.ts:36-40 | On a present value, records the message iff it is false. |
| BooleanValidators.Validator.IsFalse | src/lib/validators/boolean.validators.ts:47-51 | On a present value, records the message iff it is true. |
| BooleanValidators.RequiredOnlyOnNullish | src/lib/validators/boolean.validators.ts:26-29 | `required` fails exactly on null and undefined; false passes. |
| BooleanValidators.IsTrueXorIsFalse | src/lib/validators/boolean.validators.ts:36-51 | On a present value exactly one of isTrue/isFalse fails; on an absent one neither does. |
| DateValidators.Validator.FromValue | src/lib/validators/date.validators.ts:7-13 | A truthy string or a Date becomes a parsed Date; null and undefined are kept; "" leaves the value undefined. |
| DateValidators.Validator.Validate | src/lib/validators/date.validators.ts:19-21 | Returns the recorded message and changes nothing. |
| DateValidators.Validator.Required | src/lib/validators/date.validators.ts:28-31 | Records the message iff there is no date. |
| DateValidators.Validator.IsValid | src/lib/validators/date.validators.ts:38-42 | On a date, records the message iff it is an Invalid Date. |
| DateValidators.Validator.LeapYear | src/lib/validators/date.validators.ts:49-54 | On a date, records the message iff its year is not a leap year; an Invalid Date fails. |
| DateValidators.Validator.GreaterThan | src/lib/validators/date.validators.ts:62-66 | On a date, records the message iff it is not after the comparison date. |
| DateValidators.Validator.LessThan | src/lib/validators/date.validators.ts:74-78 | On a date, records the message iff it is not before the comparison date. |
| DateValidators.Validator.Range | src/lib/validators/date.validators.ts:87-91 | On a date, records the message iff it is before the start or after the end. |
| DateValidators.RequiredOnlyOnAbsent | src/lib/validators/date.validators.ts:28-31 | `required` fails exactly on null and undefined; an Invalid Date passes. |
| DateValidators.AbsentIsIgnored | src/lib/validators/date.validators.ts:38-91 | Every check other than `required` passes on null and undefined. |
| DateValidators.LeapYearExamples | src/lib/validators/date.validators.ts:52-53 | 2000, 2020 and 2024 are leap years; 1900, 2022 and 2100 are not. |
| DateValidators.ComparisonsAreStrict | src/lib/validators/date.validators.ts:62-78 | greaterThan and lessThan are strict: an equal date fails both, and a different date fails exactly one. |
| DateValidators.RangeIsInclusive | src/lib/validators/date.validators.ts:87-91 | `range` fails iff the date is strictly before the start or strictly after the end. |
| DateValidators.InvalidDateSlipsThroughComparisons | src/lib/validators/date.validators.ts:38-91 | An Invalid Date passes greaterThan, lessThan and range, since NaN comparisons are false; it fails isValid and leapYear. |
| ArrayValidators.Validator.FromValue | src/lib/validators/array.validators.ts:7-11 | Wraps the value with no message. |
| ArrayValidators.Validator.Validate | src/lib/validators/array.validators.ts:16-18 | Returns the recorded message and changes nothing. |
| ArrayValidators.Validator.Required | src/lib/validators/array.validators.ts:25-28 | Records the message iff the value is null or undefined. |
| ArrayValidators.Validator.NotEmpty | src/lib/validators/array.validators.ts:36-40 | On an array, records the message iff it is empty. |
| ArrayValidators.Validator.HasNoDuplicates | src/lib/validators/array.validators.ts:48-53 | On an array, records the message iff its Set is smaller than it. |
| ArrayValidators.Validator.MinLength | src/lib/validators/array.validators.ts:62-66 | On an array, records the message iff it is shorter than n. |
| ArrayValidators.Validator.Contains | src/lib/validators/array.validators.ts:75-79 | On an array, records the message iff the element is missing. |
| ArrayValidators.Validator.AllMatch | src/lib/validators/array.validators.ts:89-93 | On an array, records the message iff some element fails the predicate. |
| ArrayValidators.ElementsBounded | src/lib/validators/array.validators.ts:50 | A Set of an array has at most as many elements as the array. |
| ArrayValidators.SetSizeDetectsDuplicates | src/lib/validators/array.validators.ts:50-51 | The Set has as many elements as the array iff no element repeats. |
| ArrayValidators.HasNoDuplicatesIffRepeat | src/lib/validators/array.validators.ts:48-53 | `hasNoDuplicates` fails iff two positions hold equal elements. |
| ArrayValidators.RequiredOnlyOnNullish | src/lib/validators/array.validators.ts:25-28 | `required` fails exactly on null and undefined; [] passes. |
| ArrayValidators.AbsentIsIgnored | src/lib/validators/array.validators.ts:36-93 | Every check other than `required` passes on null and undefined. |
| ArrayValidators.AllMatchIffNoCounterexample | src/lib/validators/array.validators.ts:89-93 | `allMatch` fails iff some element falsifies the predicate; [] passes. |
| ArrayValidators.Examples | src/lib/validators/array.validators.ts:48-79 | [1,2,3,1] has duplicates and [1,2,3] does not; minLength and contains on [1,2,3]. |
| JsValues.Get | src/lib/validators/object.validators.ts:80-83 | Reading a property throws exactly when the object is null or undefined. |
| JsValues.OwnKeysEmpty | src/lib/validators/object.validators.ts:38 | `Object.keys` (a string has one key per UTF-16 code unit) is empty exactly for {}, [] and "", and for other primitives. |
| ObjectValidators.Split | src/lib/validators/object.validators.ts:78 | `split('.')` always yields at least one piece (its round trips with join are the lemmas below). |
| ObjectValidators.SplitPartsDotFree | src/lib/validators/object.validators.ts:78 | No piece of `split('.')` holds a dot. |
| ObjectValidators.SplitDotted | src/lib/validators/object.validators.ts:77-78 | A name holding a dot splits into at least two pieces. |
| ObjectValidators.JoinSplit | src/lib/validators/object.validators.ts:78 | Joining the pieces of `split('.')` with "." gives the name back. |
| ObjectValidators.SplitAfterDotFree | src/lib/validators/object.validators.ts:78 | Splitting `a.b` with a dot-free `a` yields `a` followed by the pieces of `b`. |
| ObjectValidators.SplitDotFree | src/lib/validators/object.validators.ts:78 | A dot-free name splits into itself alone. |
| ObjectValidators.SplitJoin | src/lib/validators/object.validators.ts:78 | Splitting a join of dot-free pieces gives the pieces back. |
| ObjectValidators.HaveProperties | src/lib/validators/object.validators.ts:75-88 | The helper as written: true on no names; any name read on null or undefined throws; a true result means every undotted name reads truthy. |
| ObjectValidators.NoPropertiesHold | src/lib/validators/object.validators.ts:75-88 | With no names, haveProperties is true, even on null or undefined. |
| ObjectValidators.NullishThrows | src/lib/validators/object.validators.ts:80-83 | On null or undefined, any name makes haveProperties throw. |
| ObjectValidators.UndottedIsConjunction | src/lib/validators/object.validators.ts:75-88 | Over dot-free names, haveProperties is true iff every named property is truthy. |
| ObjectValidators.DottedNameChecksSiblings | src/lib/validators/object.validators.ts:77-81 | As written, "p0.p1...pn" checks `o[p0][pi]` for each later piece separately, and throws if `o[p0]` is null or undefined. |
| ObjectValidators.SplitAB | src/lib/validators/object.validators.ts:78 | "a.b" splits into "a" and "b". |
| ObjectValidators.SplitABC | src/lib/validators/object.validators.ts:78 | "a.b.c" splits into "a", "b" and "c". |
| ObjectValidators.PlainNameExamples | src/lib/validators/object.validators.ts:82-84 | `{hello: 'world'}` has "hello"; `{}` lacks it; a property holding 0 counts as missing. |
| ObjectValidators.DottedNameExamples | src/lib/validators/object.validators.ts:77-81 | `{a:{b:1}}` has "a.b", `{a:{}}` lacks it, and `{}` makes "a.b" throw. |
| ObjectValidators.EarlyFalseStopsBeforeThrow | src/lib/validators/object.validators.ts:76-84 | The walk stops at the first missing name, so `["x", "a.b"]` on `{}` is false rather than a throw. |
| ObjectValidators.TailPathShorter | src/lib/validators/object.validators.ts:78-81 | The path after the first segment is shorter than the name, so the corrected recursion terminates. |
| ObjectValidators.SinglePathFollowed | src/lib/validators/object.validators.ts:77-81 | On one name, the corrected helper is true iff the value at the end of its whole dotted path is truthy. |
| ObjectValidators.HeadThenRest | src/lib/validators/object.validators.ts:76-85 | The corrected helper checks its names one at a time: the first, then the rest. |
| ObjectValidators.HavePropertiesFixed | src/lib/validators/object.validators.ts:75-88 | The corrected helper: true on no names; false, without throwing, on null or undefined; a true result means every undotted name reads truthy. |
| ObjectValidators.HavePropertiesFixedFollowsPaths | src/lib/validators/object.validators.ts:75-88 | The corrected helper is true iff the value at the end of every listed path is truthy. |
| ObjectValidators.UndottedNamesAgree | src/lib/validators/object.validators.ts:82-84 | Without dotted names, the corrected and written helpers answer alike. |
| ObjectValidators.NestedPathRejectedAsWritten | src/lib/validators/object.validators.ts:77-81 | On `{a:{b:{c:1}}}`, "a.b.c" is rejected as written but present by path. |
| ObjectValidators.SiblingPathsAcceptedAsWritten | src/lib/validators/object.validators.ts:77-81 | On `{a:{b:1,c:1}}`, "a.b.c" is accepted as written but missing by path. |
| ObjectValidators.Validator.FromValue | src/lib/validators/object.validators.ts:7-11 | Wraps the value with no message. |
| ObjectValidators.Validator.Validate | src/lib/validators/object.validators.ts:17-19 | Returns the recorded message and changes nothing. |
| ObjectValidators.Validator.Required | src/lib/validators/object.validators.ts:26-29 | Records the message iff the value is falsy. |
| ObjectValidators.Validator.NotEmpty | src/lib/validators/object.validators.ts:36-40 | On a truthy value, records the message iff it has no own keys. |
| ObjectValidators.Validator.HasRequiredProperties | src/lib/validators/object.validators.ts:48-52 | On a truthy value, records the message iff some listed path does not lead to a truthy value. |
| ObjectValidators.Validator.HasOnlyAllowedProperties | src/lib/validators/object.validators.ts:60-68 | On a truthy value, the loop over keys records the message iff some own key is not allowed. |
| ObjectValidators.RequiredIffFalsy | src/lib/validators/object.validators.ts:26-29 | `required` fails iff the value is falsy; every object and array passes. |
| ObjectValidators.FalsyIsIgnored | src/lib/validators/object.validators.ts:36-68 | Every check other than `required` passes on a falsy value. |
| ObjectValidators.NotEmptyOnObjects | src/lib/validators/object.validators.ts:36-40 | On an object, `notEmpty` fails iff it has no properties. |
| ObjectValidators.AllowedPropertiesTopLevelOnly | src/lib/validators/object.validators.ts:60-68 | `hasOnlyAllowedProperties` depends only on the top-level key set; an allow-list covering every key passes. |
| ObjectValidators.RequiredPropertiesExamples | src/lib/validators/object.validators.ts:48-52 | An empty name list on undefined passes; `{hello}` passes "hello"; `{}` fails it. |
| ObjectValidators.NestedRequiredPropertyExamples | src/lib/validators/object.validators.ts:48-52 | Under the corrected path reading (see Findings), "a.b" passes on `{a:{b:1}}` and fails on `{}`; the helper as written throws a TypeError on `{}`. |
| UseForm.ExceptionMessage | src/lib/composables/useForm.ts:172-174 | The exception message is non-empty and holds the key between its brackets. |
| UseForm.AsyncMessage | src/lib/composables/useForm.ts:58-67 | What an async field records is never empty. |
| UseForm.SyncErrorsStep | src/lib/composables/useForm.ts:137-145 | One more field adds its failure message, if any, to the sync error map. |
| UseForm.AsyncErrorsStep | src/lib/composables/useForm.ts:164-176 | One more field adds its failure or exception message to the async error map. |
| UseForm.AnyThrowsStep | src/lib/composables/useForm.ts:137-140 | With one more field, the pass throws iff it threw before or that field's validator throws. |
| UseForm.ThrowsWithin | src/lib/composables/useForm.ts:137-140 | A throw on any field is a throw of the whole synchronous pass. |
| UseForm.MergeWellFormed | src/lib/composables/useForm.ts:71 | Merging two well-formed error maps (`Object.assign`) gives a well-formed map. |
| UseForm.ExecValidators | src/lib/composables/useForm.ts:128-152 | Throws iff some validator throws; otherwise errors are exactly the failing fields with their messages, valid iff errors is empty, and data is returned unchanged; an empty mapping gives `{errors: {}, valid: true}`. |
| UseForm.ExecAsyncValidators | src/lib/composables/useForm.ts:154-185 | Errors are exactly the failing or throwing fields; a throw records the exception message; valid iff errors is empty; data unchanged. |
| UseForm.ErrorsWellFormed | src/lib/composables/useForm.ts:137-176 | Both passes record only non-empty messages, and only for fields that have a validator. |
| UseForm.AsyncAgreesWithSync | src/lib/composables/useForm.ts:134-176 | When no validator throws, the async pass records exactly what the sync pass does. |
| UseForm.ThrowingFieldRecorded | src/lib/composables/useForm.ts:172-174 | A throwing async validator's field is recorded with the exception message. |
| UseForm.IncorrectObjectExample | src/lib/composables/useForm.ts:128-152 | For `{name, age}` checked on name, lastName, age and sex, the errors are exactly lastName and sex. |
| UseForm.Form.constructor | src/lib/composables/useForm.ts:14-19 | The form starts with formData = data, no errors, valid and not loading. |
| UseForm.Form.ResetForm | src/lib/composables/useForm.ts:21-26 | formData becomes old formData overwritten by data, so every initial field holds its initial value again and, when no field was added, formData is exactly the initial data; errors are cleared; valid is true and loading false. |
| UseForm.Form.ValidateForm | src/lib/composables/useForm.ts:28-47 | With no validations, true and nothing changes. Otherwise errors are replaced by this pass's failures, and valid and the result say whether there are none. A throw changes nothing. |
| UseForm.Form.ValidateFormAsync | src/lib/composables/useForm.ts:49-76 | With no async validations, true and nothing changes. Otherwise this pass's errors are merged into the old ones, valid and the result say whether this pass failed nothing, and loading ends false. |
| UseForm.Form.ValidateInput | src/lib/composables/useForm.ts:78-93 | No validator: true, no change. Failure: records errors[field] and clears valid. Pass: true, and nothing changes, so a stale error stays. |
| UseForm.Form.ValidateInputAsync | src/lib/composables/useForm.ts:95-113 | No validator: true. Failure or throw: records errors[field]. valid is never touched. |

## Left out

- Fluent chaining: each check returns `this`, which is the same object the model mutates in place, so the return value is not modelled.
- The `string()`, `number()`, `boolean()`, `date()`, `array()` and `object()` factory functions only call `fromValue`, which is modelled as each class's `FromValue` constructor.
- Vue reactivity (`ref`, `reactive`): the form's state is plain mutable fields.
- `Promise.all` concurrency: an async validator is given as its settled outcome. A pass folds the fields in an unspecified key order. Every field writes only its own key, so the order cannot change the result.
- Object key order (`Object.keys`): error maps are Dafny maps, so insertion order is not modelled.
- IEEE-754 doubles: a number is a real or NaN; infinities, -0 and rounding are not modelled.
- The JavaScript regular-expression engine: each fixed pattern is a hand-written predicate over ASCII character classes. `match` takes its test as a function, so the `lastIndex` state of a global-flag regex is not modelled.
- Unicode case mapping: `toLowerCase`/`toUpperCase` are modelled on ASCII letters only.
- The WHATWG URL parser behind `url()` is a parameter `parses`.
- Date parsing (`new Date(string)`) and time zones are a parameter, `parse`, and the year a Date carries.
- Property reads see own properties of plain objects only: the prototype chain and properties of strings and arrays (`length`, indices) are read as undefined.
- `resetForm` copies the initial data shallowly in the source, so nested objects are shared with `data`; the model's values cannot alias.
- Default messages that interpolate a JavaScript number, a Date or an element (number `range`/`min`/`max`, every date comparison, array `contains`) have no default; the caller passes the message.
- `validations`/`asyncValidations` left undefined are modelled as an empty mapping, which the source treats the same way.
- `execValidators` accepts `unknown` data; the model takes an object's properties as a map, so reading from null or undefined data is not modelled.
- ArrayValidators.Validator.Contains: uses Dafny equality, not SameValueZero, so `includes(NaN)` and object identity are not modelled.
- ArrayValidators.Validator.HasNoDuplicates: uses Dafny equality for Set membership, not SameValueZero.
- ObjectValidators.Validator.HasRequiredProperties: follows the corrected path reading (see Findings). The as-written helper, `ObjectValidators.HaveProperties`, is modelled separately, including its throws.

## Findings

| source | as written | input that shows it | evidently intended | confidence | as-written member | corrected member |
|---|---|---|---|---|---|---|
| src/lib/validators/object.validators.ts:77-81 | A dotted name "p0.p1.p2" recurses on `o[p0]` with the separate names `[p1, p2]`, so it checks the siblings `o.p0.p1` and `o.p0.p2`. A missing `o[p0]` throws a TypeError. | `{a: {b: {c: 1}}}` with "a.b.c" gives false; `{a: {b: 1, c: 1}}` with "a.b.c" gives true; `{}` with "a.b" throws | Follow the whole path `o.p0.p1.p2`; a missing step means the property is missing (false) | high, not executed | ObjectValidators.NestedPathRejectedAsWritten | ObjectValidators.HavePropertiesFixedFollowsPaths |
