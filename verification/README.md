# go-env populate, modelled in Dafny

This project models the functional core of the go-env package, `populate.go`. The
package fills a caller-owned record from string key/value sources. Each field of the
record carries an `env` annotation, `key,required|optional` or, on a nested record,
`key,required|optional,discriminator`. The model covers five pieces:

- `getRestrictTo`: the optional allow-list of keys, which refuses a repeated key
  (`RestrictTo`).
- `readDecoders`: the override map merged from an ordered list of decoders, where the
  last writer wins and the first failure aborts (`Decoders`).
- `getEnvTag`: annotation parsing (`Tags`, with the literal reading in
  `TagsAsWritten`). Comma splitting is in `Strings`.
- `parseField`: coercion of text to a scalar (`Coerce`, over `Decimal`).
- `populate`: the recursive walk (`Populator`).

The walk takes fields in declaration order. For each field it resolves the key from
the override map first and the environment second. It then applies the
required/optional policy and either coerces the text or, for a nested record, descends
only when the text equals the discriminator. It stops at the first error.

Reflection is replaced by an explicit schema (`Schema.Kind`, `Schema.Field`) and a
parallel value tree (`Schema.Value`). A walk returns the updated record together with
the error that stopped it, if any. So "fields before the failure keep their
assignments, fields after it are untouched" can be stated and proved
(`Properties`).

`Scenarios` restates the `testEnv` fixture of `populate_test.go` and its six tests as
lemmas about the model. Because of the defect under "## Findings", those lemmas are
about the corrected annotation rule. Read literally, `populate.go` refuses the
fixture's nested-record annotation. Every test whose walk reaches that field would
therefore report InvalidTag: TestBasic, TestParsingBool and TestOptionalStruct.

## Model

| member | source | states |
|---|---|---|
| Strings.Split | populate.go:117 | strings.Split on ",": at least one piece, no piece contains a comma, and joining the pieces with commas gives back the input |
| Strings.SplitJoin | populate.go:117 | Split is the inverse of Join on comma-free pieces |
| RestrictTo.GetRestrictTo | populate.go:75-87 | no keys means no restriction; the result is an error exactly when some key repeats, and it names the first repeated key; otherwise the allow-list is exactly the set of given keys |
| RestrictTo.Collect | populate.go:79-86 | the loop from position i, with the keys seen so far as an invariant: it fails exactly on a duplicate, names the first repeat, and otherwise collects every key |
| Decoders.ReadDecoders | populate.go:89-104 | no decoders gives the empty map; the result is an error exactly when some decoder failed, and then it is the first failure's error; otherwise each key maps to the value of the last decoder that supplies it, and only supplied keys are present |
| Decoders.Merge | populate.go:94-102 | the merge loop from decoder i, given a map that merges the decoders before i: same failure and last-writer-wins guarantees |
| Decoders.MergeStep | populate.go:99-101 | laying decoder i's overlay over the merge of decoders 0..i-1 gives the merge of 0..i |
| Tags.ParseHead | populate.go:113-135 | an empty tag is EnvTagNotSet; an accepted head's key is in the allow-list when there is one; every refusal is EnvTagNotSet, InvalidTag or InvalidTagRestrictTo |
| Tags.ParseHeadShape | populate.go:117-135 | an accepted head splits the tag into two or three comma-free components that join back to it, the key first and the policy word naming whether it is required second |
| Tags.GetEnvTag | populate.go:112-153 | an empty tag, and only an empty tag, is EnvTagNotSet; an accepted tag is exactly the text of its parsed form, its key is in the allow-list when there is one, and a scalar's discriminator is ""; every refusal is one of EnvTagNotSet, InvalidTag or InvalidTagRestrictTo |
| Tags.GetEnvTagByComponents | populate.go:117-147 | the checks in source order: a component count other than 2 or 3 is InvalidTag; then a key outside the allow-list is InvalidTagRestrictTo, before the policy word is examined; then a policy word other than required/optional is InvalidTag; then a nested record needs exactly 3 components and a scalar exactly 2, and the discriminator is the third component |
| Tags.TagRoundTrip | populate.go:112-153 | formatting an annotation and parsing it back gives the same annotation, whenever key and discriminator contain no comma and the key is allowed |
| TagsAsWritten.GetEnvTagAsWritten | populate.go:136-147 | the literal reading accepts no nested-record field at all, and treats scalar fields exactly as the intended rule does |
| TagsAsWritten.TwoPartStructTagPanics | populate.go:139-142 | a two-component annotation with an allowed key on a nested record reaches the out-of-range index split[2] |
| TagsAsWritten.ThreePartStructTagRejectedAsWritten | populate.go:139-140 | a well-formed three-component nested-record annotation is InvalidTag as written, while the intended rule reads it back unchanged |
| Decimal.ParseDigits | populate.go:161 | a text has a decimal value exactly when it is a non-empty run of digits, and then the value is the number the digits denote by positional notation, leading zeros included |
| Decimal.NumeralValueAppend | populate.go:161 | appending a digit to a digit string shifts its positional value one place and adds the digit |
| Decimal.FormatNat | populate.go:161 | the canonical numeral of n is a numeral that reads back as n and has no leading zero, so it starts with '0' only for n = 0 |
| Coerce.ParseInt | populate.go:160-190 | strconv.ParseInt base 10: the text is accepted exactly when it is a numeral after one optional '+' or '-' and the signed number it denotes fits the width, and then it yields that number |
| Coerce.ParseUint | populate.go:191-221 | strconv.ParseUint base 10: the text is accepted exactly when it is a numeral without sign whose number fits the width, and then it yields that number |
| Coerce.NonCanonicalNumerals | populate.go:160-221 | "007" and "+007" read as 7 and "-0" as 0 in the signed parser; "007" reads as 7 and "+7" is refused in the unsigned one |
| Coerce.ParseIntRoundTrip | populate.go:160-190 | an integer's decimal text parses back to that integer exactly when it fits the width, and is refused otherwise |
| Coerce.ParseUintRoundTrip | populate.go:191-221 | a natural number's decimal text parses back to it exactly when it fits the width |
| Coerce.SignAcceptedOnlyWhenSigned | populate.go:161-192 | an explicit '+' is accepted by the signed parser and refused by the unsigned one; '-' is refused by the unsigned one |
| Coerce.ParseField | populate.go:155-239 | a coerced value has the field's kind; Bool is false exactly for "" and "false"; Str passes the text through; Int and Uint succeed exactly when the width's parser succeeds, and give its value; Float succeeds exactly when the supplied float parser does, and gives its bit pattern; nested records and unsupported kinds are FieldTypeNotAllowed; every failure of a supported kind is CannotParse naming the text |
| Coerce.BoolCoercionExamples | populate.go:158-159 | "" and "false" are false; "0", "1" and "FALSE" are true |
| Populator.Getenv | populate.go:49 | os.Getenv: an unset variable reads as "", a set one as its value, so a non-empty read comes from a set variable |
| Populator.Resolve | populate.go:47-56 | a key with an override entry resolves to that entry, even when empty; otherwise the key is unset exactly when its variable is missing or empty, and resolves to the variable's non-empty value when it is not |
| Populator.Step | populate.go:42-70 | one field stays of its kind after its step |
| Populator.Walk | populate.go:41-71 | every field stays of its kind, and fields before the starting position are untouched |
| Populator.Populate | populate.go:23-72 | the allow-list is checked first and the decoders second, then the target must be a pointer and then a record; each refusal returns the target unchanged with that error; only a pointer to a record can succeed, and for one the outcome is the walk over its fields with the merged decoder overlays as overrides, the given environment and the allow-list |
| Properties.WalkFailFast | populate.go:41-71 | a successful walk is every field stepped cleanly from its original content; a failed walk stopped at one field, with the fields before it stepped cleanly, the failing field's own outcome, and every later field untouched |
| Properties.WalkFromCleanSteps | populate.go:41-72 | the converse for success: if every field steps cleanly to its content in `out`, the walk yields `out` without error |
| Properties.WalkFromStop | populate.go:41-71 | the converse for failure: a walk that would stop at field k with outcome o does yield o |
| Properties.TagRefusal | populate.go:43-46 | a field whose tag is refused keeps its content and stops the walk with the tag's error, whatever the environment holds |
| Properties.OverrideWinsForAnyEnvironment | populate.go:47-48 | a key with an override entry resolves to that entry under every environment, so the entry alone decides the policy, the coercion and the discriminator gate |
| Properties.LastDecoderWins | populate.go:27-48 | under the sources the top-level call builds, a key some decoder supplies resolves to the value of the last decoder supplying it, whatever the environment holds |
| Properties.UnsuppliedKeyReadsEnvironment | populate.go:47-56 | under those sources, a key no decoder supplies resolves to its variable's value when that is non-empty, and is unset otherwise |
| Properties.UnsetPolicy | populate.go:47-55 | a key that resolves to nothing fails a required field, naming the key, and leaves an optional field exactly as it was |
| Properties.OverrideShadowsEnvironment | populate.go:47-48 | a scalar field whose key has an override entry does not depend on the environment |
| Properties.EmptyOverrideSkipsPolicy | populate.go:47-56 | an override of "" skips the required/optional check: the empty text goes to the coercer, and a required field never reports its key as unset |
| Properties.ScalarAssignment | populate.go:64-69 | a scalar with a resolved text is assigned exactly when the text coerces, and then holds the coerced value; otherwise it keeps its content and the step reports the coercer's own error |
| Properties.DiscriminatorGate | populate.go:57-63 | a nested record is walked exactly when its resolved text equals the discriminator; any other text leaves it unchanged |
| Properties.NestedChangesOnlyThroughGate | populate.go:57-63 | a nested record that changed had a valid tag and a key that resolved to its discriminator |
| Properties.StepIdempotent | populate.go:41-71 | populating a field twice from the same sources gives the same outcome as populating it once |
| Properties.WalkIdempotent | populate.go:41-71 | populating a record twice from the same sources gives the same values and the same error as populating it once |
| Properties.StepReadsThroughGetenv | populate.go:49 | a field sees the environment only through os.Getenv |
| Properties.WalkReadsThroughGetenv | populate.go:49 | a record sees the environment only through os.Getenv |
| Properties.EmptyVariableIsUnset | populate.go:49-50 | a variable set to "" and an unset variable give the same walk |
| Properties.RequiredKeysResolvedOnSuccess | populate.go:43-53 | after a successful walk, every field's tag was valid and every required key resolved to a value |
| Properties.FirstMissingRequiredReported | populate.go:41-53 | when the first failing field is a required one whose key is unset, the walk reports EnvKeyNotSetWhenRequired naming that key |
| Scenarios.AllKeysAllowList | populate_test.go:11-18 | the test allow-list has no duplicates and becomes the set of its six keys |
| Scenarios.KeysWithoutOptionalBoolAllowList | populate_test.go:19-25 | the shorter allow-list becomes the set of its five keys, which leaves out OPTIONAL_BOOL |
| Scenarios.RequiredStringTag | populate_test.go:29 | the annotation parses to key REQUIRED_STRING, required |
| Scenarios.OptionalStringTag | populate_test.go:30 | the annotation parses to key OPTIONAL_STRING, optional |
| Scenarios.OptionalIntTag | populate_test.go:31 | the annotation parses to key OPTIONAL_INT, optional |
| Scenarios.OptionalBoolTag | populate_test.go:32 | the annotation parses to key OPTIONAL_BOOL, optional, and is InvalidTagRestrictTo under an allow-list without that key |
| Scenarios.OptionalStructTag | populate_test.go:35 | the nested record's annotation parses to key OPTIONAL_STRUCT, optional, discriminator FOO |
| Scenarios.StructOptionalIntTag | populate_test.go:34 | the inner annotation parses to key STRUCT_OPTIONAL_INT, optional |
| Scenarios.ZeroFits | populate_test.go:157 | the zero `testEnv` record fits the fixture's kinds |
| Scenarios.TestEnvIsFixture | populate_test.go:28-36 | `testEnv` has the fixture's kinds and annotations under every allow-list that admits its keys |
| Scenarios.Parse1234 | populate_test.go:46 | "1234" reads as the integer 1234 |
| Scenarios.ParseAbc | populate_test.go:78 | "abc" is not an integer |
| Scenarios.InnerWalk | populate_test.go:109-115 | the nested record's walk turns its zero int into 1234 when STRUCT_OPTIONAL_INT is 1234 |
| Scenarios.NestedEntered | populate_test.go:109-115 | the nested record behind FOO, with STRUCT_OPTIONAL_INT=1234, steps to a record holding 1234 |
| Scenarios.PopulateIsWalk | populate_test.go:156-167 | populating a zero `testEnv` with the test allow-list and no decoders is the walk over its fields |
| Scenarios.BasicSteps | populate_test.go:43-47 | what each field does under TestBasic's variables |
| Scenarios.TestBasic | populate_test.go:40-52 | REQUIRED_STRING=foo, OPTIONAL_STRING="" and OPTIONAL_INT=1234 populate to "foo", "" and 1234, without error |
| Scenarios.MissingSteps | populate_test.go:57-59 | the required string field with an empty variable fails naming REQUIRED_STRING |
| Scenarios.TestMissing | populate_test.go:54-61 | REQUIRED_STRING="" is EnvKeyNotSetWhenRequired, and the record is unchanged |
| Scenarios.OutsideOfRestrictToSteps | populate_test.go:64-69 | the first three fields step cleanly and the boolean field's key is refused by the allow-list |
| Scenarios.TestOutsideOfRestrictToRange | populate_test.go:63-71 | without OPTIONAL_BOOL in the allow-list the walk stops at that field with InvalidTagRestrictTo, keeping REQUIRED_STRING=foo |
| Scenarios.CannotParseSteps | populate_test.go:76-79 | the integer field's text "abc" is refused with CannotParse |
| Scenarios.TestCannotParse | populate_test.go:73-81 | OPTIONAL_INT=abc is CannotParse("abc"), and the earlier fields keep their assignments |
| Scenarios.ParsingBoolSteps | populate_test.go:86-101 | the boolean field is true unless its variable is empty (the optional skip) or "false" |
| Scenarios.TestParsingBool | populate_test.go:83-104 | OPTIONAL_BOOL is false exactly when it is "" or "false", so "1" gives true and "" and "false" give false |
| Scenarios.OptionalStructSteps | populate_test.go:109-127 | the nested record is entered only behind FOO; empty and other texts leave it zero |
| Scenarios.TestOptionalStruct | populate_test.go:106-130 | with STRUCT_OPTIONAL_INT=1234 the inner field is 1234 when OPTIONAL_STRUCT is FOO, and 0 when it is "" or anything else, BAR included |

## Left out

- Reflection (`reflect.Value`, `Field(i).Set`, `Tag.Get`) is replaced by the `Schema` datatypes. A Go value that does not fit its field's type cannot arise, so the model requires `Conforms`.
- Reflection panics are not modelled, since the schema has no way to express what causes them. There are three:
  - a nil pointer target passes the pointer check at populate.go:32-33, and then `Type()` on the zero value at line 37 panics;
  - `Field(i).Set` at populate.go:69 panics on an unexported field;
  - the same call panics on a field of a named scalar type such as `type Port int`, because parseField returns the plain `int`, `uint` or `float` type.

  A `Target` cannot be a nil pointer, and in the other two cases the model assigns successfully.
- `os.Getenv` is a `map<string, string>` parameter in which an absent key reads as "".
- The Go tests' mutation of the process environment (`testState`, `testSetenv`, populate_test.go:132-154) is left out. Each scenario lemma is stated for exactly the variables its test sets, every other key unset.
- `Decoder.Decode` is a foreign call. Each decoder is represented by what it returned (`Decoders.DecodeResult`). `Populate` and `PopulateOptions` are defined in files that are not part of this model.
- `populate` rebuilds the allow-list and the override map at every nesting level (populate.go:24-31, re-entered at line 60). The model builds them once and hands the same sources down. This is the same thing when decoders are deterministic, which the model assumes.
- Float parsing (populate.go:222-233) is a parameter of type `Coerce.FloatParser`. Nothing is proved about float values.
- Error messages keep only the error kind and the key, tag or text they name. The `%v` rendering of types, fields and maps is left out. A decoder's error is `DecoderFailed` carrying the decoder's message.
- The platform width of `int` and `uint` (bitSize 0) is taken to be 64 bits.
- Populator.Step: its own contract states only that the field keeps its kind. What a step computes is stated by Properties.TagRefusal, Properties.UnsetPolicy, Properties.ScalarAssignment and Properties.DiscriminatorGate.
- Populator.Walk: its own contract states only that kinds are kept and the fields before the start are untouched. What the walk computes is stated by Properties.WalkFailFast, Properties.WalkFromCleanSteps and Properties.WalkFromStop.
- Scenarios.TestBasic: proved for the corrected annotation rule. As written, the test ends with InvalidTag at the nested-record field (see "## Findings").
- Scenarios.TestParsingBool: proved for the corrected annotation rule, for the same reason.
- Scenarios.TestOptionalStruct: proved for the corrected annotation rule, for the same reason.

## Findings

| source | as written | input that shows it | evidently intended | confidence | as-written member | corrected member |
|---|---|---|---|---|---|---|
| populate.go:139-140 | the nested-record branch refuses a tag with 3 components | the fixture annotation `OPTIONAL_STRUCT,optional,FOO` (populate_test.go:35) is InvalidTag, so TestBasic, TestParsingBool and TestOptionalStruct fail | a nested record must carry exactly 3 components (`len(split) != 3` is the error) | high; not executed | TagsAsWritten.ThreePartStructTagRejectedAsWritten | Tags.TagRoundTrip |
| populate.go:139-142 | a nested-record tag with 2 components passes the check and then reads `split[2]` | `OPTIONAL_STRUCT,optional` on a nested record indexes past the end of the split, which panics in Go | a two-component tag on a nested record is InvalidTag | high; not executed | TagsAsWritten.TwoPartStructTagPanics | Tags.GetEnvTagByComponents |
