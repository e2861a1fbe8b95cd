/** What the walk of populate.go:23-73 promises: fail-fast order, the
    required/optional policy, override precedence, the discriminator gate, and
    that populating twice changes nothing more than populating once. */
module Properties {
  import opened Common
  import opened Schema
  import opened Tags
  import opened Coerce
  import opened Decoders
  import opened Populator

  /** A walk from `i` that produced `o` stopped at field `k`: every field from `i`
      up to `k` stepped cleanly from its original content to its content in `o`,
      field `k` failed with the walk's error (keeping what it had assigned), and
      every field after `k` is as it was. */
  ghost predicate StoppedAt(fields: seq<Field>, rec: seq<Value>, src: Sources, i: nat,
                            o: Outcome<seq<Value>>, k: int)
    requires ConformsAll(rec, fields) && |o.value| == |fields|
  {
    && i <= k < |fields|
    && (forall j :: i <= j < k ==> Step(fields[j], rec[j], src) == Outcome(o.value[j], None))
    && Step(fields[k], rec[k], src) == Outcome(o.value[k], o.err)
    && (forall j :: k < j < |fields| ==> o.value[j] == rec[j])
  }

  /** Fail-fast (populate.go:41-71): a successful walk is every field stepped
      cleanly from its original content; a failed walk stopped at one field, with
      the fields before it assigned and the fields after it untouched. */
  lemma {:induction false} WalkFailFast(fields: seq<Field>, rec: seq<Value>, i: nat, src: Sources)
    requires i <= |fields| && ConformsAll(rec, fields)
    ensures var o := Walk(fields, rec, i, src);
      && (o.err.None? ==> forall j :: i <= j < |fields| ==> Step(fields[j], rec[j], src) == Outcome(o.value[j], None))
      && (o.err.Some? ==> exists k :: StoppedAt(fields, rec, src, i, o, k))
    decreases |fields| - i
  {
    if i < |fields| {
      var s := Step(fields[i], rec[i], src);
      var o := Walk(fields, rec, i, src);
      if s.err.Some? {
        assert StoppedAt(fields, rec, src, i, o, i);
      } else {
        var rec' := rec[i := s.value];
        WalkFailFast(fields, rec', i + 1, src);
        assert o.value[i] == rec'[i];
        if o.err.Some? {
          var k :| StoppedAt(fields, rec', src, i + 1, o, k);
          assert StoppedAt(fields, rec, src, i, o, k);
        }
      }
    }
  }

  /** The converse of WalkFailFast for a successful walk: when every field from `i`
      on steps cleanly from its original content to its content in `out`, the walk
      produces `out` without error. */
  lemma {:induction false} WalkFromCleanSteps(fields: seq<Field>, rec: seq<Value>, i: nat, src: Sources, out: seq<Value>)
    requires i <= |fields| && ConformsAll(rec, fields) && |out| == |fields|
    requires forall j :: 0 <= j < i ==> out[j] == rec[j]
    requires forall j :: i <= j < |fields| ==> Step(fields[j], rec[j], src) == Outcome(out[j], None)
    ensures Walk(fields, rec, i, src) == Outcome(out, None)
    decreases |fields| - i
  {
    if i == |fields| {
      assert out == rec;
    } else {
      WalkFromCleanSteps(fields, rec[i := out[i]], i + 1, src, out);
    }
  }

  /** The converse of WalkFailFast for a failed walk: when the walk from `i` would
      stop at field `k` with outcome `o`, it does produce `o`. */
  lemma {:induction false} WalkFromStop(fields: seq<Field>, rec: seq<Value>, i: nat, src: Sources,
                                        o: Outcome<seq<Value>>, k: nat)
    requires i <= |fields| && ConformsAll(rec, fields) && |o.value| == |fields|
    requires forall j :: 0 <= j < i ==> o.value[j] == rec[j]
    requires o.err.Some? && StoppedAt(fields, rec, src, i, o, k)
    ensures Walk(fields, rec, i, src) == o
    decreases |fields| - i
  {
    var rec' := rec[i := o.value[i]];
    if k == i {
      assert rec' == o.value;
    } else {
      assert StoppedAt(fields, rec', src, i + 1, o, k);
      WalkFromStop(fields, rec', i + 1, src, o, k);
    }
  }

  /** populate.go:43-46: a field whose tag is refused keeps its content, its key is
      never read, and the walk stops with the tag error. */
  lemma TagRefusal(f: Field, v: Value, src: Sources)
    requires Conforms(v, f.kind)
    requires GetEnvTag(f, src.restrictTo).Err?
    ensures Step(f, v, src) == Outcome(v, Some(GetEnvTag(f, src.restrictTo).error))
    ensures forall e :: Step(f, v, src.(environment := e)) == Step(f, v, src)
  {
  }

  /** populate.go:47-48: a key with an override entry resolves to that entry
      whatever the environment holds, so the entry, not the environment, decides
      the required/optional policy, the coercion and the discriminator gate. */
  lemma OverrideWinsForAnyEnvironment(key: string, src: Sources, environment: map<string, string>)
    requires key in src.overrides
    ensures Resolve(key, src.(environment := environment)) == Resolved(src.overrides[key])
    ensures Resolve(key, src.(environment := environment)) == Resolve(key, src)
  {
  }

  /** populate.go:36-39 with populate.go:94-102: under the sources the top-level
      call builds, a key that some decoder supplies resolves to the value of the
      last decoder supplying it, whatever the environment holds. */
  lemma LastDecoderWins(ds: seq<DecodeResult>, i: int, k: string, environment: map<string, string>,
                        restrictTo: Option<set<string>>, parseFloat: FloatParser)
    requires ReadDecoders(ds).Ok?
    requires LastSupplier(ds, |ds|, i, k)
    ensures Resolve(k, Sources(ReadDecoders(ds).value, environment, restrictTo, parseFloat)) == Resolved(ds[i].env[k])
  {
  }

  /** populate.go:47-56 with populate.go:94-102: a key that no decoder supplies is
      read from the environment, and is unset when it reads as "". */
  lemma UnsuppliedKeyReadsEnvironment(ds: seq<DecodeResult>, k: string, environment: map<string, string>,
                                      restrictTo: Option<set<string>>, parseFloat: FloatParser)
    requires ReadDecoders(ds).Ok?
    requires forall i :: 0 <= i < |ds| ==> !Supplies(ds, i, k)
    ensures Resolve(k, Sources(ReadDecoders(ds).value, environment, restrictTo, parseFloat)) ==
              if k in environment && environment[k] != "" then Resolved(environment[k]) else Unset
  {
  }

  /** populate.go:50-54: a key that resolves to nothing fails a required field
      naming the key, and leaves an optional field exactly as it was. */
  lemma UnsetPolicy(f: Field, v: Value, src: Sources)
    requires Conforms(v, f.kind)
    requires GetEnvTag(f, src.restrictTo).Ok?
    requires Resolve(GetEnvTag(f, src.restrictTo).value.key, src) == Unset
    ensures var t := GetEnvTag(f, src.restrictTo).value;
      Step(f, v, src) == Outcome(v, if t.required then Some(EnvKeyNotSetWhenRequired(t.key)) else None)
  {
  }

  /** populate.go:47-48: a scalar field whose key has an override entry does not
      depend on the environment at all. */
  lemma OverrideShadowsEnvironment(f: Field, v: Value, src: Sources, environment: map<string, string>)
    requires Conforms(v, f.kind) && !f.kind.Struct?
    requires GetEnvTag(f, src.restrictTo).Ok? && GetEnvTag(f, src.restrictTo).value.key in src.overrides
    ensures Step(f, v, src.(environment := environment)) == Step(f, v, src)
  {
  }

  /** An override entry that is the empty string is still a value: the
      required/optional check of populate.go:50 is skipped and the empty text goes
      to the coercer, so a required field never reports its key as unset. */
  lemma EmptyOverrideSkipsPolicy(f: Field, v: Value, src: Sources)
    requires Conforms(v, f.kind) && !f.kind.Struct?
    requires GetEnvTag(f, src.restrictTo).Ok?
    requires var t := GetEnvTag(f, src.restrictTo).value; t.key in src.overrides && src.overrides[t.key] == ""
    ensures ParseField(f.kind, "", src.parseFloat).Ok? ==>
              Step(f, v, src) == Outcome(ParseField(f.kind, "", src.parseFloat).value, None)
    ensures ParseField(f.kind, "", src.parseFloat).Err? ==>
              Step(f, v, src) == Outcome(v, Some(ParseField(f.kind, "", src.parseFloat).error))
    ensures Step(f, v, src).err.Some? ==> !Step(f, v, src).err.value.EnvKeyNotSetWhenRequired?
  {
  }

  /** populate.go:64-69: a scalar field with a resolved text is assigned exactly
      when the text coerces, and then holds the coerced value; otherwise it keeps its
      content and the coercion error is reported. */
  lemma ScalarAssignment(f: Field, v: Value, src: Sources, text: string)
    requires Conforms(v, f.kind) && !f.kind.Struct?
    requires GetEnvTag(f, src.restrictTo).Ok?
    requires Resolve(GetEnvTag(f, src.restrictTo).value.key, src) == Resolved(text)
    ensures Step(f, v, src).err.None? <==> ParseField(f.kind, text, src.parseFloat).Ok?
    ensures Step(f, v, src).err.None? ==> Step(f, v, src).value == ParseField(f.kind, text, src.parseFloat).value
    ensures Step(f, v, src).err.Some? ==> Step(f, v, src).value == v
    ensures Step(f, v, src).err.Some? ==> Step(f, v, src).err == Some(ParseField(f.kind, text, src.parseFloat).error)
  {
  }

  /** populate.go:57-63: a nested record is visited exactly when its key resolves
      to the discriminator; any other resolved value, the empty discriminator
      included, leaves every nested field as it was. */
  lemma DiscriminatorGate(f: Field, v: Value, src: Sources, text: string)
    requires Conforms(v, f.kind) && f.kind.Struct?
    requires GetEnvTag(f, src.restrictTo).Ok?
    requires Resolve(GetEnvTag(f, src.restrictTo).value.key, src) == Resolved(text)
    ensures text != GetEnvTag(f, src.restrictTo).value.discriminator ==> Step(f, v, src) == Outcome(v, None)
    ensures text == GetEnvTag(f, src.restrictTo).value.discriminator ==>
              var w := Walk(f.kind.fields, v.values, 0, src);
              Step(f, v, src) == Outcome(RecordV(w.value), w.err)
  {
  }

  /** A nested record changes only when its own tag is valid and its key resolves
      to its discriminator. */
  lemma {:induction false} NestedChangesOnlyThroughGate(f: Field, v: Value, src: Sources)
    requires Conforms(v, f.kind) && f.kind.Struct?
    requires Step(f, v, src).value != v
    ensures GetEnvTag(f, src.restrictTo).Ok?
    ensures Resolve(GetEnvTag(f, src.restrictTo).value.key, src) == Resolved(GetEnvTag(f, src.restrictTo).value.discriminator)
  {
  }

  /** Populating a field a second time from the same sources gives the same outcome. */
  lemma {:induction false} StepIdempotent(f: Field, v: Value, src: Sources)
    requires Conforms(v, f.kind)
    ensures Step(f, Step(f, v, src).value, src) == Step(f, v, src)
    decreases f.kind, if f.kind.Struct? then |f.kind.fields| + 1 else 0
  {
    match GetEnvTag(f, src.restrictTo)
    case Err(_) =>
    case Ok(t) =>
      match Resolve(t.key, src)
      case Unset =>
      case Resolved(text) =>
        if f.kind.Struct? && text == t.discriminator {
          WalkIdempotent(f.kind.fields, v.values, 0, src);
        }
  }

  /** Populating a record a second time from the same sources gives the same
      outcome: the same values and the same error, if any. */
  lemma {:induction false} WalkIdempotent(fields: seq<Field>, rec: seq<Value>, i: nat, src: Sources)
    requires i <= |fields| && ConformsAll(rec, fields)
    ensures Walk(fields, Walk(fields, rec, i, src).value, i, src) == Walk(fields, rec, i, src)
    decreases Struct(fields), |fields| - i
  {
    if i < |fields| {
      var s := Step(fields[i], rec[i], src);
      var o := Walk(fields, rec, i, src);
      StepIdempotent(fields[i], rec[i], src);
      if s.err.None? {
        var rec' := rec[i := s.value];
        WalkIdempotent(fields, rec', i + 1, src);
        assert o == Walk(fields, rec', i + 1, src);
        assert o.value[i] == s.value;
        assert o.value[i := s.value] == o.value;
        assert Step(fields[i], o.value[i], src) == s;
        assert Walk(fields, o.value, i, src) == Walk(fields, o.value, i + 1, src);
      } else {
        assert o.value == rec[i := s.value];
        assert Step(fields[i], o.value[i], src) == s;
        assert o.value[i := s.value] == o.value;
      }
    }
  }

  /** Two environments that read alike under os.Getenv. */
  ghost predicate ReadAlike(e1: map<string, string>, e2: map<string, string>) {
    forall k :: Getenv(e1, k) == Getenv(e2, k)
  }

  /** A field sees the environment only through os.Getenv. */
  lemma {:induction false} StepReadsThroughGetenv(f: Field, v: Value, src: Sources, environment: map<string, string>)
    requires Conforms(v, f.kind) && ReadAlike(src.environment, environment)
    ensures Step(f, v, src.(environment := environment)) == Step(f, v, src)
    decreases f.kind, if f.kind.Struct? then |f.kind.fields| + 1 else 0
  {
    if f.kind.Struct? {
      WalkReadsThroughGetenv(f.kind.fields, v.values, 0, src, environment);
    }
  }

  /** A record sees the environment only through os.Getenv. */
  lemma {:induction false} WalkReadsThroughGetenv(fields: seq<Field>, rec: seq<Value>, i: nat, src: Sources,
                                                 environment: map<string, string>)
    requires i <= |fields| && ConformsAll(rec, fields) && ReadAlike(src.environment, environment)
    ensures Walk(fields, rec, i, src.(environment := environment)) == Walk(fields, rec, i, src)
    decreases Struct(fields), |fields| - i
  {
    if i < |fields| {
      StepReadsThroughGetenv(fields[i], rec[i], src, environment);
      var s := Step(fields[i], rec[i], src);
      if s.err.None? {
        WalkReadsThroughGetenv(fields, rec[i := s.value], i + 1, src, environment);
      }
    }
  }

  /** A variable set to the empty string and an unset variable are the same to
      the whole walk. */
  lemma EmptyVariableIsUnset(fields: seq<Field>, rec: seq<Value>, src: Sources, key: string)
    requires ConformsAll(rec, fields)
    ensures Walk(fields, rec, 0, src.(environment := src.environment[key := ""]))
         == Walk(fields, rec, 0, src.(environment := src.environment - {key}))
  {
    var cleared := src.(environment := src.environment - {key});
    assert ReadAlike(cleared.environment, src.environment[key := ""]);
    WalkReadsThroughGetenv(fields, rec, 0, cleared, src.environment[key := ""]);
  }

  /** After a successful walk every field's tag was valid and every required key
      resolved to a value. */
  lemma RequiredKeysResolvedOnSuccess(fields: seq<Field>, rec: seq<Value>, src: Sources)
    requires ConformsAll(rec, fields) && Walk(fields, rec, 0, src).err.None?
    ensures forall j :: 0 <= j < |fields| ==> GetEnvTag(fields[j], src.restrictTo).Ok?
    ensures forall j :: (0 <= j < |fields| && GetEnvTag(fields[j], src.restrictTo).Ok?
                         && GetEnvTag(fields[j], src.restrictTo).value.required) ==>
              Resolve(GetEnvTag(fields[j], src.restrictTo).value.key, src).Resolved?
  {
    WalkFailFast(fields, rec, 0, src);
  }

  /** When the first failing field is a required one whose key resolves to
      nothing, the walk reports EnvKeyNotSetWhenRequired naming that key, and not a
      coercion or structural error. */
  lemma FirstMissingRequiredReported(fields: seq<Field>, rec: seq<Value>, src: Sources, k: nat)
    requires ConformsAll(rec, fields) && k < |fields|
    requires forall j :: 0 <= j < k ==> Step(fields[j], rec[j], src).err.None?
    requires GetEnvTag(fields[k], src.restrictTo).Ok?
    requires GetEnvTag(fields[k], src.restrictTo).value.required
    requires Resolve(GetEnvTag(fields[k], src.restrictTo).value.key, src) == Unset
    ensures Walk(fields, rec, 0, src).err == Some(EnvKeyNotSetWhenRequired(GetEnvTag(fields[k], src.restrictTo).value.key))
  {
    WalkFailFast(fields, rec, 0, src);
    var o := Walk(fields, rec, 0, src);
    var failed := Step(fields[k], rec[k], src);
    assert failed.err == Some(EnvKeyNotSetWhenRequired(GetEnvTag(fields[k], src.restrictTo).value.key));
    if o.err.Some? {
      var k' :| StoppedAt(fields, rec, src, 0, o, k');
      assert k' <= k;
      assert Step(fields[k'], rec[k'], src).err.Some?;
    }
  }
}
