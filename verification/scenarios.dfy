/** The `testEnv` fixture of populate_test.go:10-36 and its scenarios, each run
    against exactly the variables the scenario sets (every other key unset). */
module Scenarios {
  import opened Common
  import opened Strings
  import opened Schema
  import opened Tags
  import opened Coerce
  import opened Decimal
  import opened RestrictTo
  import opened Decoders
  import opened Populator
  import opened Properties

  const InnerFields: seq<Field> := [
    Field("StructOptionalInt", Int(WordSize), "STRUCT_OPTIONAL_INT,optional")
  ]

  const TestEnvFields: seq<Field> := [
    Field("RequiredString", Str, "REQUIRED_STRING,required"),
    Field("OptionalString", Str, "OPTIONAL_STRING,optional"),
    Field("OptionalInt", Int(WordSize), "OPTIONAL_INT,optional"),
    Field("OptionalBool", Bool, "OPTIONAL_BOOL,optional"),
    Field("OptionalStruct", Struct(InnerFields), "OPTIONAL_STRUCT,optional,FOO")
  ]

  const AllKeys: seq<string> := [
    "REQUIRED_STRING", "OPTIONAL_STRING", "OPTIONAL_INT",
    "OPTIONAL_BOOL", "STRUCT_OPTIONAL_INT", "OPTIONAL_STRUCT"
  ]

  const KeysWithoutOptionalBool: seq<string> := [
    "OPTIONAL_STRING", "OPTIONAL_INT", "REQUIRED_STRING",
    "STRUCT_OPTIONAL_INT", "OPTIONAL_STRUCT"
  ]

  /** The zero `testEnv` record, `&testEnv{}`. */
  const ZeroTestEnv: Value :=
    RecordV([StrV(""), StrV(""), IntV(0), BoolV(false), RecordV([IntV(0)])])

  /** The fixture has no float fields; no float text is ever parsed. */
  const NoFloats: FloatParser := (w, text) => None

  /** populateTestEnv and populateTestEnvExpectErrorLong (populate_test.go:156-187):
      a pointer to a zero `testEnv`, the given allow-list, no decoders. */
  function PopulateTestEnv(environment: map<string, string>, restrictTo: seq<string>): Outcome<Value> {
    Populate(Target(true, Struct(TestEnvFields), ZeroTestEnv), Options(restrictTo, []), environment, NoFloats)
  }

  lemma AllKeysAllowList()
    ensures GetRestrictTo(AllKeys) == Ok(Some(set k | k in AllKeys))
  {
    assert !HasDuplicate(AllKeys);
  }

  lemma KeysWithoutOptionalBoolAllowList()
    ensures GetRestrictTo(KeysWithoutOptionalBool) == Ok(Some(set k | k in KeysWithoutOptionalBool))
    ensures "OPTIONAL_BOOL" !in (set k | k in KeysWithoutOptionalBool)
  {
    assert !HasDuplicate(KeysWithoutOptionalBool);
  }

  // The tag of each fixture field, when the allow-list admits its key.

  lemma RequiredStringTag(r: Option<set<string>>)
    requires r.Some? ==> "REQUIRED_STRING" in r.value
    ensures GetEnvTag(TestEnvFields[0], r) == Ok(EnvTag("REQUIRED_STRING", true, ""))
  {
    TagRoundTrip(TestEnvFields[0], EnvTag("REQUIRED_STRING", true, ""), r);
  }

  lemma OptionalStringTag(r: Option<set<string>>)
    requires r.Some? ==> "OPTIONAL_STRING" in r.value
    ensures GetEnvTag(TestEnvFields[1], r) == Ok(EnvTag("OPTIONAL_STRING", false, ""))
  {
    TagRoundTrip(TestEnvFields[1], EnvTag("OPTIONAL_STRING", false, ""), r);
  }

  lemma OptionalIntTag(r: Option<set<string>>)
    requires r.Some? ==> "OPTIONAL_INT" in r.value
    ensures GetEnvTag(TestEnvFields[2], r) == Ok(EnvTag("OPTIONAL_INT", false, ""))
  {
    TagRoundTrip(TestEnvFields[2], EnvTag("OPTIONAL_INT", false, ""), r);
  }

  lemma OptionalBoolTag(r: Option<set<string>>)
    ensures r.Some? && "OPTIONAL_BOOL" !in r.value ==>
      GetEnvTag(TestEnvFields[3], r) == Err(InvalidTagRestrictTo("OPTIONAL_BOOL,optional"))
    ensures (r.Some? ==> "OPTIONAL_BOOL" in r.value) ==>
      GetEnvTag(TestEnvFields[3], r) == Ok(EnvTag("OPTIONAL_BOOL", false, ""))
  {
    var parts := ["OPTIONAL_BOOL", "optional"];
    assert forall p :: p in parts ==> ',' !in p;
    assert Join(parts) == TestEnvFields[3].tag;
    GetEnvTagByComponents(TestEnvFields[3], parts, r);
  }

  lemma OptionalStructTag(r: Option<set<string>>)
    requires r.Some? ==> "OPTIONAL_STRUCT" in r.value
    ensures GetEnvTag(TestEnvFields[4], r) == Ok(EnvTag("OPTIONAL_STRUCT", false, "FOO"))
  {
    TagRoundTrip(TestEnvFields[4], EnvTag("OPTIONAL_STRUCT", false, "FOO"), r);
  }

  lemma StructOptionalIntTag(r: Option<set<string>>)
    requires r.Some? ==> "STRUCT_OPTIONAL_INT" in r.value
    ensures GetEnvTag(InnerFields[0], r) == Ok(EnvTag("STRUCT_OPTIONAL_INT", false, ""))
  {
    TagRoundTrip(InnerFields[0], EnvTag("STRUCT_OPTIONAL_INT", false, ""), r);
  }

  /** The kinds of the fixture's fields: two strings, an int, a bool, and a nested
      record holding one int. */
  predicate FixtureKinds(fields: seq<Field>) {
    && |fields| == 5
    && fields[0].kind == Str && fields[1].kind == Str && fields[2].kind == Int(WordSize) && fields[3].kind == Bool
    && fields[4].kind.Struct? && |fields[4].kind.fields| == 1 && fields[4].kind.fields[0].kind == Int(WordSize)
  }

  /** The zero record fits every record with the fixture's kinds. */
  lemma ZeroFits(fields: seq<Field>)
    requires FixtureKinds(fields)
    ensures ConformsAll(ZeroTestEnv.values, fields)
  {
    assert ConformsAll([IntV(0)], fields[4].kind.fields);
  }

  /** The fixture as the walk sees it under the allow-list `r`: the kind of each
      field, which the zero record fits, and what its tag parses to. The boolean
      field's tag is refused when `r` leaves its key out. */
  predicate Fixture(fields: seq<Field>, r: Option<set<string>>) {
    && FixtureKinds(fields)
    && ConformsAll(ZeroTestEnv.values, fields)
    && GetEnvTag(fields[0], r) == Ok(EnvTag("REQUIRED_STRING", true, ""))
    && GetEnvTag(fields[1], r) == Ok(EnvTag("OPTIONAL_STRING", false, ""))
    && GetEnvTag(fields[2], r) == Ok(EnvTag("OPTIONAL_INT", false, ""))
    && GetEnvTag(fields[3], r) ==
         (if r.Some? && "OPTIONAL_BOOL" !in r.value then Err(InvalidTagRestrictTo("OPTIONAL_BOOL,optional"))
          else Ok(EnvTag("OPTIONAL_BOOL", false, "")))
    && GetEnvTag(fields[4], r) == Ok(EnvTag("OPTIONAL_STRUCT", false, "FOO"))
    && GetEnvTag(fields[4].kind.fields[0], r) == Ok(EnvTag("STRUCT_OPTIONAL_INT", false, ""))
  }

  /** `testEnv` is such a fixture under every allow-list that admits its keys,
      OPTIONAL_BOOL aside. */
  lemma TestEnvIsFixture(r: Option<set<string>>)
    requires r.Some? ==> "REQUIRED_STRING" in r.value && "OPTIONAL_STRING" in r.value && "OPTIONAL_INT" in r.value
    requires r.Some? ==> "OPTIONAL_STRUCT" in r.value && "STRUCT_OPTIONAL_INT" in r.value
    ensures Fixture(TestEnvFields, r)
  {
    ZeroFits(TestEnvFields);
    RequiredStringTag(r);
    OptionalStringTag(r);
    OptionalIntTag(r);
    OptionalBoolTag(r);
    OptionalStructTag(r);
    StructOptionalIntTag(r);
  }

  /** A walk over five fields each of which steps cleanly. */
  lemma CleanWalk(fields: seq<Field>, rec: seq<Value>, src: Sources, out: seq<Value>)
    requires |fields| == 5 && |out| == 5 && ConformsAll(rec, fields)
    requires Step(fields[0], rec[0], src) == Outcome(out[0], None)
    requires Step(fields[1], rec[1], src) == Outcome(out[1], None)
    requires Step(fields[2], rec[2], src) == Outcome(out[2], None)
    requires Step(fields[3], rec[3], src) == Outcome(out[3], None)
    requires Step(fields[4], rec[4], src) == Outcome(out[4], None)
    ensures Walk(fields, rec, 0, src) == Outcome(out, None)
  {
    forall j | 0 <= j < 5
      ensures Step(fields[j], rec[j], src) == Outcome(out[j], None)
    {
      assert j in {0, 1, 2, 3, 4};
    }
    WalkFromCleanSteps(fields, rec, 0, src, out);
  }

  /** The first `k` of five fields step cleanly, as a single quantified fact. */
  lemma CleanPrefix(fields: seq<Field>, rec: seq<Value>, src: Sources, out: seq<Value>, k: nat)
    requires |fields| == 5 && |out| == 5 && ConformsAll(rec, fields) && k < 5
    requires 0 < k ==> Step(fields[0], rec[0], src) == Outcome(out[0], None)
    requires 1 < k ==> Step(fields[1], rec[1], src) == Outcome(out[1], None)
    requires 2 < k ==> Step(fields[2], rec[2], src) == Outcome(out[2], None)
    requires 3 < k ==> Step(fields[3], rec[3], src) == Outcome(out[3], None)
    ensures forall j :: 0 <= j < k ==> Step(fields[j], rec[j], src) == Outcome(out[j], None)
  {
    forall j | 0 <= j < k
      ensures Step(fields[j], rec[j], src) == Outcome(out[j], None)
    {
      assert j in {0, 1, 2, 3};
    }
  }

  /** A walk over five fields the first `k` of which step cleanly and the next fails. */
  lemma FailingWalk(fields: seq<Field>, rec: seq<Value>, src: Sources, out: seq<Value>, k: nat, e: Error)
    requires |fields| == 5 && |out| == 5 && ConformsAll(rec, fields) && k < 5
    requires 0 < k ==> Step(fields[0], rec[0], src) == Outcome(out[0], None)
    requires 1 < k ==> Step(fields[1], rec[1], src) == Outcome(out[1], None)
    requires 2 < k ==> Step(fields[2], rec[2], src) == Outcome(out[2], None)
    requires 3 < k ==> Step(fields[3], rec[3], src) == Outcome(out[3], None)
    requires Step(fields[k], rec[k], src) == Outcome(out[k], Some(e))
    requires forall j :: k < j < 5 ==> out[j] == rec[j]
    ensures Walk(fields, rec, 0, src) == Outcome(out, Some(e))
  {
    CleanPrefix(fields, rec, src, out, k);
    var o := Outcome(out, Some(e));
    assert StoppedAt(fields, rec, src, 0, o, k);
    WalkFromStop(fields, rec, 0, src, o, k);
  }

  /** "1234" is read as the integer 1234. */
  lemma Parse1234()
    ensures ParseInt("1234", WordSize) == Some(1234)
  {
    assert ParseDigits("1234") == Some(1234) by {
      assert "1234"[..3] == "123" && "123"[..2] == "12" && "12"[..1] == "1";
    }
  }

  /** "abc" is not a number. */
  lemma ParseAbc()
    ensures ParseInt("abc", WordSize) == None
  {
    assert !IsNumeral("abc") by {
      assert !IsDigit("abc"[0]);
    }
  }

  /** The nested record of a fixture whose key resolves to FOO, with
      STRUCT_OPTIONAL_INT at 1234, steps to a record holding 1234. */
  lemma NestedEntered(fields: seq<Field>, src: Sources)
    requires Fixture(fields, src.restrictTo)
    requires Resolve("OPTIONAL_STRUCT", src) == Resolved("FOO")
    requires Resolve("STRUCT_OPTIONAL_INT", src) == Resolved("1234")
    ensures Step(fields[4], RecordV([IntV(0)]), src) == Outcome(RecordV([IntV(1234)]), None)
  {
    var inner := fields[4].kind.fields;
    assert Conforms(RecordV([IntV(0)]), fields[4].kind) by {
      assert ConformsAll([IntV(0)], inner);
    }
    DiscriminatorGate(fields[4], RecordV([IntV(0)]), src, "FOO");
    InnerWalk(inner, src);
  }

  /** The nested record's walk: its one optional int field takes 1234. */
  lemma InnerWalk(inner: seq<Field>, src: Sources)
    requires |inner| == 1 && inner[0].kind == Int(WordSize)
    requires GetEnvTag(inner[0], src.restrictTo) == Ok(EnvTag("STRUCT_OPTIONAL_INT", false, ""))
    requires Resolve("STRUCT_OPTIONAL_INT", src) == Resolved("1234")
    ensures Walk(inner, [IntV(0)], 0, src) == Outcome([IntV(1234)], None)
  {
    Parse1234();
    ScalarAssignment(inner[0], IntV(0), src, "1234");
    WalkFromCleanSteps(inner, [IntV(0)], 0, src, [IntV(1234)]);
  }

  /** Populating the fixture is the walk over its fields, wrapped back into a record. */
  lemma PopulateIsWalk(environment: map<string, string>, restrictTo: seq<string>, allowed: set<string>)
    requires GetRestrictTo(restrictTo) == Ok(Some(allowed))
    ensures var w := Walk(TestEnvFields, ZeroTestEnv.values, 0, Sources(map[], environment, Some(allowed), NoFloats));
      PopulateTestEnv(environment, restrictTo) == Outcome(RecordV(w.value), w.err)
  {
    assert ReadDecoders([]) == Ok(map[]);
  }

  /** The sources of one scenario: no overrides, the given variables, the allow-list as a set. */
  function EnvSources(environment: map<string, string>, allowed: set<string>): Sources {
    Sources(map[], environment, Some(allowed), NoFloats)
  }


  /** The full allow-list admits every key the fixture reads. */
  lemma AllKeysAdmitted()
    ensures var allowed := set k | k in AllKeys;
      && "REQUIRED_STRING" in allowed && "OPTIONAL_STRING" in allowed && "OPTIONAL_INT" in allowed
      && "OPTIONAL_BOOL" in allowed && "OPTIONAL_STRUCT" in allowed && "STRUCT_OPTIONAL_INT" in allowed
  {
    var allowed := set k | k in AllKeys;
    assert AllKeys[0] in allowed && AllKeys[1] in allowed && AllKeys[2] in allowed;
    assert AllKeys[3] in allowed && AllKeys[4] in allowed && AllKeys[5] in allowed;
  }

  /** The allow-list without OPTIONAL_BOOL admits the other keys and refuses that one. */
  lemma WithoutOptionalBoolAdmitted()
    ensures var allowed := set k | k in KeysWithoutOptionalBool;
      && "REQUIRED_STRING" in allowed && "OPTIONAL_STRING" in allowed && "OPTIONAL_INT" in allowed
      && "OPTIONAL_BOOL" !in allowed && "OPTIONAL_STRUCT" in allowed && "STRUCT_OPTIONAL_INT" in allowed
  {
    var allowed := set k | k in KeysWithoutOptionalBool;
    assert KeysWithoutOptionalBool[0] in allowed && KeysWithoutOptionalBool[1] in allowed;
    assert KeysWithoutOptionalBool[2] in allowed && KeysWithoutOptionalBool[3] in allowed;
    assert KeysWithoutOptionalBool[4] in allowed;
    KeysWithoutOptionalBoolAllowList();
  }

  /** What each field of TestBasic does: a required string, an empty optional
      string, an integer, and nothing else set. */
  lemma BasicSteps(fields: seq<Field>, src: Sources)
    requires Fixture(fields, src.restrictTo)
    requires src.restrictTo.Some? ==> "OPTIONAL_BOOL" in src.restrictTo.value
    requires Resolve("REQUIRED_STRING", src) == Resolved("foo")
    requires Resolve("OPTIONAL_STRING", src) == Unset
    requires Resolve("OPTIONAL_INT", src) == Resolved("1234")
    requires Resolve("OPTIONAL_BOOL", src) == Unset
    requires Resolve("OPTIONAL_STRUCT", src) == Unset
    ensures Step(fields[0], StrV(""), src) == Outcome(StrV("foo"), None)
    ensures Step(fields[1], StrV(""), src) == Outcome(StrV(""), None)
    ensures Step(fields[2], IntV(0), src) == Outcome(IntV(1234), None)
    ensures Step(fields[3], BoolV(false), src) == Outcome(BoolV(false), None)
    ensures Step(fields[4], RecordV([IntV(0)]), src) == Outcome(RecordV([IntV(0)]), None)
  {
    var rec := ZeroTestEnv.values;
    ScalarAssignment(fields[0], rec[0], src, "foo");
    UnsetPolicy(fields[1], rec[1], src);
    Parse1234();
    ScalarAssignment(fields[2], rec[2], src, "1234");
    UnsetPolicy(fields[3], rec[3], src);
    UnsetPolicy(fields[4], rec[4], src);
  }

  /** The walk of TestBasic from its steps. */
  lemma BasicWalk(fields: seq<Field>, src: Sources)
    requires FixtureKinds(fields) && ConformsAll(ZeroTestEnv.values, fields)
    requires Step(fields[0], StrV(""), src) == Outcome(StrV("foo"), None)
    requires Step(fields[1], StrV(""), src) == Outcome(StrV(""), None)
    requires Step(fields[2], IntV(0), src) == Outcome(IntV(1234), None)
    requires Step(fields[3], BoolV(false), src) == Outcome(BoolV(false), None)
    requires Step(fields[4], RecordV([IntV(0)]), src) == Outcome(RecordV([IntV(0)]), None)
    ensures Walk(fields, ZeroTestEnv.values, 0, src)
         == Outcome([StrV("foo"), StrV(""), IntV(1234), BoolV(false), RecordV([IntV(0)])], None)
  {
    CleanWalk(fields, ZeroTestEnv.values, src, [StrV("foo"), StrV(""), IntV(1234), BoolV(false), RecordV([IntV(0)])]);
  }

  /** The variables of TestBasic as the walk resolves them. */
  lemma BasicEnvironment(env: map<string, string>, allowed: set<string>)
    requires env == map["REQUIRED_STRING" := "foo", "OPTIONAL_STRING" := "", "OPTIONAL_INT" := "1234"]
    ensures var src := EnvSources(env, allowed);
      && Resolve("REQUIRED_STRING", src) == Resolved("foo")
      && Resolve("OPTIONAL_STRING", src) == Unset
      && Resolve("OPTIONAL_INT", src) == Resolved("1234")
      && Resolve("OPTIONAL_BOOL", src) == Unset
      && Resolve("OPTIONAL_STRUCT", src) == Unset
  {
  }

  /** TestBasic (populate_test.go:40-52): REQUIRED_STRING=foo, OPTIONAL_STRING
      empty and OPTIONAL_INT=1234 populate to "foo", "" and 1234. */
  lemma TestBasic(env: map<string, string>)
    requires env == map["REQUIRED_STRING" := "foo", "OPTIONAL_STRING" := "", "OPTIONAL_INT" := "1234"]
    ensures PopulateTestEnv(env, AllKeys)
         == Outcome(RecordV([StrV("foo"), StrV(""), IntV(1234), BoolV(false), RecordV([IntV(0)])]), None)
  {
    var allowed := set k | k in AllKeys;
    AllKeysAdmitted();
    TestEnvIsFixture(Some(allowed));
    BasicEnvironment(env, allowed);
    BasicSteps(TestEnvFields, EnvSources(env, allowed));
    BasicWalk(TestEnvFields, EnvSources(env, allowed));
    AllKeysAllowList();
    PopulateIsWalk(env, AllKeys, allowed);
  }

  /** What the first field of TestMissing does: its required key is unset. */
  lemma MissingSteps(fields: seq<Field>, src: Sources)
    requires Fixture(fields, src.restrictTo)
    requires Resolve("REQUIRED_STRING", src) == Unset
    ensures Step(fields[0], StrV(""), src) == Outcome(StrV(""), Some(EnvKeyNotSetWhenRequired("REQUIRED_STRING")))
  {
    UnsetPolicy(fields[0], StrV(""), src);
  }

  /** The walk of TestMissing stops at the first field and changes nothing. */
  lemma MissingWalk(fields: seq<Field>, src: Sources)
    requires FixtureKinds(fields) && ConformsAll(ZeroTestEnv.values, fields)
    requires Step(fields[0], StrV(""), src) == Outcome(StrV(""), Some(EnvKeyNotSetWhenRequired("REQUIRED_STRING")))
    ensures Walk(fields, ZeroTestEnv.values, 0, src)
         == Outcome(ZeroTestEnv.values, Some(EnvKeyNotSetWhenRequired("REQUIRED_STRING")))
  {
    FailingWalk(fields, ZeroTestEnv.values, src, ZeroTestEnv.values, 0, EnvKeyNotSetWhenRequired("REQUIRED_STRING"));
  }

  /** The variables of TestMissing as the walk resolves them. */
  lemma MissingEnvironment(env: map<string, string>, allowed: set<string>)
    requires env == map["REQUIRED_STRING" := ""]
    ensures var src := EnvSources(env, allowed);
      && Resolve("REQUIRED_STRING", src) == Unset
  {
  }

  /** TestMissing (populate_test.go:54-61): REQUIRED_STRING set to the empty string
      is an EnvKeyNotSetWhenRequired error naming it. */
  lemma TestMissing(env: map<string, string>)
    requires env == map["REQUIRED_STRING" := ""]
    ensures PopulateTestEnv(env, AllKeys)
         == Outcome(ZeroTestEnv, Some(EnvKeyNotSetWhenRequired("REQUIRED_STRING")))
  {
    var allowed := set k | k in AllKeys;
    AllKeysAdmitted();
    TestEnvIsFixture(Some(allowed));
    MissingEnvironment(env, allowed);
    MissingSteps(TestEnvFields, EnvSources(env, allowed));
    MissingWalk(TestEnvFields, EnvSources(env, allowed));
    AllKeysAllowList();
    PopulateIsWalk(env, AllKeys, allowed);
  }

  /** What the fields of TestOutsideOfRestrictToRange do: the first three are
      assigned or skipped and the boolean field's key is refused by the allow-list. */
  lemma OutsideOfRestrictToSteps(fields: seq<Field>, src: Sources)
    requires Fixture(fields, src.restrictTo)
    requires src.restrictTo.Some? && "OPTIONAL_BOOL" !in src.restrictTo.value
    requires Resolve("REQUIRED_STRING", src) == Resolved("foo")
    requires Resolve("OPTIONAL_STRING", src) == Unset
    requires Resolve("OPTIONAL_INT", src) == Unset
    ensures Step(fields[0], StrV(""), src) == Outcome(StrV("foo"), None)
    ensures Step(fields[1], StrV(""), src) == Outcome(StrV(""), None)
    ensures Step(fields[2], IntV(0), src) == Outcome(IntV(0), None)
    ensures Step(fields[3], BoolV(false), src) == Outcome(BoolV(false), Some(InvalidTagRestrictTo("OPTIONAL_BOOL,optional")))
  {
    var rec := ZeroTestEnv.values;
    ScalarAssignment(fields[0], rec[0], src, "foo");
    UnsetPolicy(fields[1], rec[1], src);
    UnsetPolicy(fields[2], rec[2], src);
  }

  /** The walk of TestOutsideOfRestrictToRange stops at the boolean field. */
  lemma OutsideOfRestrictToWalk(fields: seq<Field>, src: Sources)
    requires FixtureKinds(fields) && ConformsAll(ZeroTestEnv.values, fields)
    requires Step(fields[0], StrV(""), src) == Outcome(StrV("foo"), None)
    requires Step(fields[1], StrV(""), src) == Outcome(StrV(""), None)
    requires Step(fields[2], IntV(0), src) == Outcome(IntV(0), None)
    requires Step(fields[3], BoolV(false), src) == Outcome(BoolV(false), Some(InvalidTagRestrictTo("OPTIONAL_BOOL,optional")))
    ensures Walk(fields, ZeroTestEnv.values, 0, src)
         == Outcome([StrV("foo"), StrV(""), IntV(0), BoolV(false), RecordV([IntV(0)])],
                    Some(InvalidTagRestrictTo("OPTIONAL_BOOL,optional")))
  {
    FailingWalk(fields, ZeroTestEnv.values, src, [StrV("foo"), StrV(""), IntV(0), BoolV(false), RecordV([IntV(0)])],
                3, InvalidTagRestrictTo("OPTIONAL_BOOL,optional"));
  }

  /** The variables of TestOutsideOfRestrictToRange as the walk resolves them. */
  lemma OutsideOfRestrictToEnvironment(env: map<string, string>, allowed: set<string>)
    requires env == map["REQUIRED_STRING" := "foo", "OPTIONAL_BOOL" := "1"]
    ensures var src := EnvSources(env, allowed);
      && Resolve("REQUIRED_STRING", src) == Resolved("foo")
      && Resolve("OPTIONAL_STRING", src) == Unset
      && Resolve("OPTIONAL_INT", src) == Unset
  {
  }

  /** TestOutsideOfRestrictToRange (populate_test.go:63-71): with OPTIONAL_BOOL
      missing from the allow-list, its field's tag is an InvalidTagRestrictTo error. */
  lemma TestOutsideOfRestrictToRange(env: map<string, string>)
    requires env == map["REQUIRED_STRING" := "foo", "OPTIONAL_BOOL" := "1"]
    ensures PopulateTestEnv(env, KeysWithoutOptionalBool)
         == Outcome(RecordV([StrV("foo"), StrV(""), IntV(0), BoolV(false), RecordV([IntV(0)])]),
                    Some(InvalidTagRestrictTo("OPTIONAL_BOOL,optional")))
  {
    var allowed := set k | k in KeysWithoutOptionalBool;
    WithoutOptionalBoolAdmitted();
    TestEnvIsFixture(Some(allowed));
    OutsideOfRestrictToEnvironment(env, allowed);
    OutsideOfRestrictToSteps(TestEnvFields, EnvSources(env, allowed));
    OutsideOfRestrictToWalk(TestEnvFields, EnvSources(env, allowed));
    KeysWithoutOptionalBoolAllowList();
    PopulateIsWalk(env, KeysWithoutOptionalBool, allowed);
  }

  /** What the fields of TestCannotParse do: the integer field's text is not a number. */
  lemma CannotParseSteps(fields: seq<Field>, src: Sources)
    requires Fixture(fields, src.restrictTo)
    requires Resolve("REQUIRED_STRING", src) == Resolved("foo")
    requires Resolve("OPTIONAL_STRING", src) == Unset
    requires Resolve("OPTIONAL_INT", src) == Resolved("abc")
    ensures Step(fields[0], StrV(""), src) == Outcome(StrV("foo"), None)
    ensures Step(fields[1], StrV(""), src) == Outcome(StrV(""), None)
    ensures Step(fields[2], IntV(0), src) == Outcome(IntV(0), Some(CannotParse("abc")))
  {
    var rec := ZeroTestEnv.values;
    ScalarAssignment(fields[0], rec[0], src, "foo");
    UnsetPolicy(fields[1], rec[1], src);
    ParseAbc();
    ScalarAssignment(fields[2], rec[2], src, "abc");
  }

  /** The walk of TestCannotParse stops at the integer field. */
  lemma CannotParseWalk(fields: seq<Field>, src: Sources)
    requires FixtureKinds(fields) && ConformsAll(ZeroTestEnv.values, fields)
    requires Step(fields[0], StrV(""), src) == Outcome(StrV("foo"), None)
    requires Step(fields[1], StrV(""), src) == Outcome(StrV(""), None)
    requires Step(fields[2], IntV(0), src) == Outcome(IntV(0), Some(CannotParse("abc")))
    ensures Walk(fields, ZeroTestEnv.values, 0, src)
         == Outcome([StrV("foo"), StrV(""), IntV(0), BoolV(false), RecordV([IntV(0)])], Some(CannotParse("abc")))
  {
    FailingWalk(fields, ZeroTestEnv.values, src, [StrV("foo"), StrV(""), IntV(0), BoolV(false), RecordV([IntV(0)])],
                2, CannotParse("abc"));
  }

  /** The variables of TestCannotParse as the walk resolves them. */
  lemma CannotParseEnvironment(env: map<string, string>, allowed: set<string>)
    requires env == map["REQUIRED_STRING" := "foo", "OPTIONAL_INT" := "abc"]
    ensures var src := EnvSources(env, allowed);
      && Resolve("REQUIRED_STRING", src) == Resolved("foo")
      && Resolve("OPTIONAL_STRING", src) == Unset
      && Resolve("OPTIONAL_INT", src) == Resolved("abc")
  {
  }

  /** TestCannotParse (populate_test.go:73-81): OPTIONAL_INT=abc is a CannotParse error. */
  lemma TestCannotParse(env: map<string, string>)
    requires env == map["REQUIRED_STRING" := "foo", "OPTIONAL_INT" := "abc"]
    ensures PopulateTestEnv(env, AllKeys)
         == Outcome(RecordV([StrV("foo"), StrV(""), IntV(0), BoolV(false), RecordV([IntV(0)])]), Some(CannotParse("abc")))
  {
    var allowed := set k | k in AllKeys;
    AllKeysAdmitted();
    TestEnvIsFixture(Some(allowed));
    CannotParseEnvironment(env, allowed);
    CannotParseSteps(TestEnvFields, EnvSources(env, allowed));
    CannotParseWalk(TestEnvFields, EnvSources(env, allowed));
    AllKeysAllowList();
    PopulateIsWalk(env, AllKeys, allowed);
  }

  /** What the fields of TestParsingBool do with OPTIONAL_BOOL set to `text`. */
  lemma ParsingBoolSteps(fields: seq<Field>, src: Sources, text: string)
    requires Fixture(fields, src.restrictTo)
    requires src.restrictTo.Some? ==> "OPTIONAL_BOOL" in src.restrictTo.value
    requires Resolve("REQUIRED_STRING", src) == Resolved("foo")
    requires Resolve("OPTIONAL_STRING", src) == Unset
    requires Resolve("OPTIONAL_INT", src) == Unset
    requires Resolve("OPTIONAL_BOOL", src) == if text == "" then Unset else Resolved(text)
    requires Resolve("OPTIONAL_STRUCT", src) == Unset
    ensures Step(fields[0], StrV(""), src) == Outcome(StrV("foo"), None)
    ensures Step(fields[1], StrV(""), src) == Outcome(StrV(""), None)
    ensures Step(fields[2], IntV(0), src) == Outcome(IntV(0), None)
    ensures Step(fields[3], BoolV(false), src) == Outcome(BoolV(text != "" && text != "false"), None)
    ensures Step(fields[4], RecordV([IntV(0)]), src) == Outcome(RecordV([IntV(0)]), None)
  {
    var rec := ZeroTestEnv.values;
    ScalarAssignment(fields[0], rec[0], src, "foo");
    UnsetPolicy(fields[1], rec[1], src);
    UnsetPolicy(fields[2], rec[2], src);
    if text == "" {
      UnsetPolicy(fields[3], rec[3], src);
    } else {
      ScalarAssignment(fields[3], rec[3], src, text);
    }
    UnsetPolicy(fields[4], rec[4], src);
  }

  /** The walk of TestParsingBool from its steps. */
  lemma ParsingBoolWalk(fields: seq<Field>, src: Sources, b: bool)
    requires FixtureKinds(fields) && ConformsAll(ZeroTestEnv.values, fields)
    requires Step(fields[0], StrV(""), src) == Outcome(StrV("foo"), None)
    requires Step(fields[1], StrV(""), src) == Outcome(StrV(""), None)
    requires Step(fields[2], IntV(0), src) == Outcome(IntV(0), None)
    requires Step(fields[3], BoolV(false), src) == Outcome(BoolV(b), None)
    requires Step(fields[4], RecordV([IntV(0)]), src) == Outcome(RecordV([IntV(0)]), None)
    ensures Walk(fields, ZeroTestEnv.values, 0, src)
         == Outcome([StrV("foo"), StrV(""), IntV(0), BoolV(b), RecordV([IntV(0)])], None)
  {
    CleanWalk(fields, ZeroTestEnv.values, src, [StrV("foo"), StrV(""), IntV(0), BoolV(b), RecordV([IntV(0)])]);
  }

  /** The variables of TestParsingBool as the walk resolves them. */
  lemma ParsingBoolEnvironment(env: map<string, string>, allowed: set<string>, text: string)
    requires env == map["REQUIRED_STRING" := "foo", "OPTIONAL_BOOL" := text]
    ensures var src := EnvSources(env, allowed);
      && Resolve("REQUIRED_STRING", src) == Resolved("foo")
      && Resolve("OPTIONAL_STRING", src) == Unset
      && Resolve("OPTIONAL_INT", src) == Unset
      && Resolve("OPTIONAL_BOOL", src) == (if text == "" then Unset else Resolved(text))
      && Resolve("OPTIONAL_STRUCT", src) == Unset
  {
  }

  /** TestParsingBool (populate_test.go:83-104): OPTIONAL_BOOL is false exactly when
      it is empty or "false"; so "1" is true, and "" and "false" are false. */
  lemma TestParsingBool(env: map<string, string>, text: string)
    requires env == map["REQUIRED_STRING" := "foo", "OPTIONAL_BOOL" := text]
    ensures PopulateTestEnv(env, AllKeys)
         == Outcome(RecordV([StrV("foo"), StrV(""), IntV(0), BoolV(text != "" && text != "false"), RecordV([IntV(0)])]), None)
  {
    var allowed := set k | k in AllKeys;
    AllKeysAdmitted();
    TestEnvIsFixture(Some(allowed));
    ParsingBoolEnvironment(env, allowed, text);
    ParsingBoolSteps(TestEnvFields, EnvSources(env, allowed), text);
    ParsingBoolWalk(TestEnvFields, EnvSources(env, allowed), text != "" && text != "false");
    AllKeysAllowList();
    PopulateIsWalk(env, AllKeys, allowed);
  }

  /** What the fields of TestOptionalStruct do with OPTIONAL_STRUCT set to `text`
      (empty meaning unset) and STRUCT_OPTIONAL_INT to 1234: the nested field is
      read only behind FOO. */
  lemma OptionalStructSteps(fields: seq<Field>, src: Sources, text: string)
    requires Fixture(fields, src.restrictTo)
    requires src.restrictTo.Some? ==> "OPTIONAL_BOOL" in src.restrictTo.value
    requires Resolve("REQUIRED_STRING", src) == Resolved("foo")
    requires Resolve("OPTIONAL_STRING", src) == Unset
    requires Resolve("OPTIONAL_INT", src) == Unset
    requires Resolve("OPTIONAL_BOOL", src) == Unset
    requires Resolve("OPTIONAL_STRUCT", src) == if text == "" then Unset else Resolved(text)
    requires Resolve("STRUCT_OPTIONAL_INT", src) == Resolved("1234")
    ensures Step(fields[0], StrV(""), src) == Outcome(StrV("foo"), None)
    ensures Step(fields[1], StrV(""), src) == Outcome(StrV(""), None)
    ensures Step(fields[2], IntV(0), src) == Outcome(IntV(0), None)
    ensures Step(fields[3], BoolV(false), src) == Outcome(BoolV(false), None)
    ensures Step(fields[4], RecordV([IntV(0)]), src) == Outcome(RecordV([IntV(if text == "FOO" then 1234 else 0)]), None)
  {
    var rec := ZeroTestEnv.values;
    ScalarAssignment(fields[0], rec[0], src, "foo");
    UnsetPolicy(fields[1], rec[1], src);
    UnsetPolicy(fields[2], rec[2], src);
    UnsetPolicy(fields[3], rec[3], src);
    if text == "" {
      UnsetPolicy(fields[4], rec[4], src);
    } else if text == "FOO" {
      NestedEntered(fields, src);
    } else {
      DiscriminatorGate(fields[4], rec[4], src, text);
    }
  }

  /** The walk of TestOptionalStruct from its steps. */
  lemma OptionalStructWalk(fields: seq<Field>, src: Sources, n: int)
    requires FixtureKinds(fields) && ConformsAll(ZeroTestEnv.values, fields)
    requires Step(fields[0], StrV(""), src) == Outcome(StrV("foo"), None)
    requires Step(fields[1], StrV(""), src) == Outcome(StrV(""), None)
    requires Step(fields[2], IntV(0), src) == Outcome(IntV(0), None)
    requires Step(fields[3], BoolV(false), src) == Outcome(BoolV(false), None)
    requires Step(fields[4], RecordV([IntV(0)]), src) == Outcome(RecordV([IntV(n)]), None)
    ensures Walk(fields, ZeroTestEnv.values, 0, src)
         == Outcome([StrV("foo"), StrV(""), IntV(0), BoolV(false), RecordV([IntV(n)])], None)
  {
    CleanWalk(fields, ZeroTestEnv.values, src, [StrV("foo"), StrV(""), IntV(0), BoolV(false), RecordV([IntV(n)])]);
  }

  /** The variables of TestOptionalStruct as the walk resolves them. */
  lemma OptionalStructEnvironment(env: map<string, string>, allowed: set<string>, text: string)
    requires env == map["REQUIRED_STRING" := "foo", "OPTIONAL_STRUCT" := text, "STRUCT_OPTIONAL_INT" := "1234"]
    ensures var src := EnvSources(env, allowed);
      && Resolve("REQUIRED_STRING", src) == Resolved("foo")
      && Resolve("OPTIONAL_STRING", src) == Unset
      && Resolve("OPTIONAL_INT", src) == Unset
      && Resolve("OPTIONAL_BOOL", src) == Unset
      && Resolve("OPTIONAL_STRUCT", src) == (if text == "" then Unset else Resolved(text))
      && Resolve("STRUCT_OPTIONAL_INT", src) == Resolved("1234")
  {
  }

  /** TestOptionalStruct (populate_test.go:106-130): the nested record is filled
      when OPTIONAL_STRUCT is FOO, and left zero when it is empty or BAR. */
  lemma TestOptionalStruct(env: map<string, string>, text: string)
    requires env == map["REQUIRED_STRING" := "foo", "OPTIONAL_STRUCT" := text, "STRUCT_OPTIONAL_INT" := "1234"]
    ensures PopulateTestEnv(env, AllKeys)
         == Outcome(RecordV([StrV("foo"), StrV(""), IntV(0), BoolV(false),
                             RecordV([IntV(if text == "FOO" then 1234 else 0)])]), None)
  {
    var allowed := set k | k in AllKeys;
    AllKeysAdmitted();
    TestEnvIsFixture(Some(allowed));
    OptionalStructEnvironment(env, allowed, text);
    OptionalStructSteps(TestEnvFields, EnvSources(env, allowed), text);
    OptionalStructWalk(TestEnvFields, EnvSources(env, allowed), if text == "FOO" then 1234 else 0);
    AllKeysAllowList();
    PopulateIsWalk(env, AllKeys, allowed);
  }
}
