/** The recursive walk of populate (populate.go:23-73). The source mutates a
    caller-owned record in place; here the walk takes the record's field values and
    returns them updated, together with the error that stopped it, if any. */
module Populator {
  import opened Common
  import opened Schema
  import opened Tags
  import opened Coerce
  import opened RestrictTo
  import opened Decoders

  /** Everything a walk reads besides the record itself. The Go code rebuilds the
      allow-list and the override map at every nesting level from the same options;
      they are built once here, which is the same thing when decoders are
      deterministic. */
  datatype Sources = Sources(
    overrides: map<string, string>,
    environment: map<string, string>,
    restrictTo: Option<set<string>>,
    parseFloat: FloatParser)

  /** The record after a walk and the error that stopped it, if any. */
  datatype Outcome<T> = Outcome(value: T, err: Option<Error>)

  /** os.Getenv: an unset variable reads as the empty string. */
  function Getenv(environment: map<string, string>, key: string): (r: string)
    ensures key !in environment ==> r == ""
    ensures key in environment ==> r == environment[key]
    ensures r != "" ==> key in environment
  {
    if key in environment then environment[key] else ""
  }

  /** The value a key resolves to, or Unset. */
  datatype Resolution = Resolved(text: string) | Unset

  /** populate.go:47-56: an override entry is taken as it is, even when empty; only
      a key read from the environment counts as unset when it reads as "". */
  function Resolve(key: string, src: Sources): (r: Resolution)
    ensures key in src.overrides ==> r == Resolved(src.overrides[key])
    ensures key !in src.overrides ==>
              (r.Unset? <==> key !in src.environment || src.environment[key] == "")
    ensures key !in src.overrides && r.Resolved? ==>
              key in src.environment && r.text == src.environment[key] && r.text != ""
  {
    if key in src.overrides then Resolved(src.overrides[key])
    else if Getenv(src.environment, key) == "" then Unset
    else Resolved(Getenv(src.environment, key))
  }

  /** One iteration of the loop of populate.go:41-71 on field `f` holding `v`: parse
      the tag, resolve the key, apply the required/optional policy, then either
      descend into a nested record whose resolved value equals the discriminator or
      coerce the text into a scalar. The field's content stays of its kind. */
  function Step(f: Field, v: Value, src: Sources): (o: Outcome<Value>)
    requires Conforms(v, f.kind)
    ensures Conforms(o.value, f.kind)
    decreases f.kind, if f.kind.Struct? then |f.kind.fields| + 1 else 0
  {
    match GetEnvTag(f, src.restrictTo)
    case Err(e) => Outcome(v, Some(e))
    case Ok(t) =>
      match Resolve(t.key, src)
      case Unset =>
        if t.required then Outcome(v, Some(EnvKeyNotSetWhenRequired(t.key)))
        else Outcome(v, None)
      case Resolved(text) =>
        if f.kind.Struct? then
          if text == t.discriminator then
            var w := Walk(f.kind.fields, v.values, 0, src);
            Outcome(RecordV(w.value), w.err)
          else Outcome(v, None)
        else
          match ParseField(f.kind, text, src.parseFloat)
          case Err(e) => Outcome(v, Some(e))
          case Ok(x) => Outcome(x, None)
  }

  /** The fields from position `i` on, in declaration order, stopping at the first
      error. Fields before `i` are not touched and every field stays of its kind. */
  function Walk(fields: seq<Field>, rec: seq<Value>, i: nat, src: Sources): (o: Outcome<seq<Value>>)
    requires i <= |fields|
    requires ConformsAll(rec, fields)
    ensures ConformsAll(o.value, fields)
    ensures forall j :: 0 <= j < i ==> o.value[j] == rec[j]
    decreases Struct(fields), |fields| - i
  {
    if i == |fields| then Outcome(rec, None)
    else
      var s := Step(fields[i], rec[i], src);
      if s.err.Some? then Outcome(rec[i := s.value], s.err)
      else Walk(fields, rec[i := s.value], i + 1, src)
  }

  /** The value handed to the top-level call: a pointer to a value of `kind`, or
      the value itself. */
  datatype Target = Target(isPointer: bool, kind: Kind, value: Value)

  /** PopulateOptions: the allow-list keys and the decoders' results, in order. */
  datatype Options = Options(restrictTo: seq<string>, decoders: seq<DecodeResult>)

  /** The top-level call. The allow-list is built first and the override map second,
      then the target must be a pointer, then it must point to a record; only then
      are the fields walked. Every refusal before the walk leaves the target as it was. */
  function Populate(target: Target, options: Options, environment: map<string, string>, parseFloat: FloatParser): (o: Outcome<Value>)
    requires Conforms(target.value, target.kind)
    ensures Conforms(o.value, target.kind)
    ensures GetRestrictTo(options.restrictTo).Err? ==>
              o == Outcome(target.value, Some(GetRestrictTo(options.restrictTo).error))
    ensures GetRestrictTo(options.restrictTo).Ok? && ReadDecoders(options.decoders).Err? ==>
              o == Outcome(target.value, Some(ReadDecoders(options.decoders).error))
    ensures !target.isPointer && GetRestrictTo(options.restrictTo).Ok? && ReadDecoders(options.decoders).Ok? ==>
              o == Outcome(target.value, Some(ExpectedPointer))
    ensures target.isPointer && !target.kind.Struct? && GetRestrictTo(options.restrictTo).Ok? && ReadDecoders(options.decoders).Ok? ==>
              o == Outcome(target.value, Some(ExpectedStruct))
    ensures o.err.None? ==> target.isPointer && target.kind.Struct?
    ensures target.isPointer && target.kind.Struct? && GetRestrictTo(options.restrictTo).Ok? && ReadDecoders(options.decoders).Ok? ==>
              var src := Sources(ReadDecoders(options.decoders).value, environment, GetRestrictTo(options.restrictTo).value, parseFloat);
              var w := Walk(target.kind.fields, target.value.values, 0, src);
              o == Outcome(RecordV(w.value), w.err)
  {
    match GetRestrictTo(options.restrictTo)
    case Err(e) => Outcome(target.value, Some(e))
    case Ok(restrictTo) =>
      match ReadDecoders(options.decoders)
      case Err(e) => Outcome(target.value, Some(e))
      case Ok(overrides) =>
        if !target.isPointer then Outcome(target.value, Some(ExpectedPointer))
        else if !target.kind.Struct? then Outcome(target.value, Some(ExpectedStruct))
        else
          var w := Walk(target.kind.fields, target.value.values, 0,
                        Sources(overrides, environment, restrictTo, parseFloat));
          Outcome(RecordV(w.value), w.err)
  }
}
