/** getEnvTag read literally. The nested-record branch of populate.go:138-142
    rejects a tag with three components and then indexes the third component of a
    tag that has only two, so no nested-record field can ever be annotated. */
module TagsAsWritten {
  import opened Common
  import opened Strings
  import opened Schema
  import opened Tags

  /** Besides a tag or an error, the literal code can index past the end of the
      split, which panics in Go. */
  datatype LiteralOutcome = Parsed(tag: EnvTag) | Failed(error: Error) | IndexOutOfRange

  /** populate.go:112-153 as written. No nested-record field is ever accepted, while
      a scalar field is treated exactly as GetEnvTag treats it. */
  function GetEnvTagAsWritten(f: Field, restrictTo: Option<set<string>>): (r: LiteralOutcome)
    ensures f.kind.Struct? ==> !r.Parsed?
    ensures !f.kind.Struct? ==>
              r == match GetEnvTag(f, restrictTo) case Ok(t) => Parsed(t) case Err(e) => Failed(e)
  {
    match ParseHead(f, restrictTo)
    case Err(e) => Failed(e)
    case Ok(h) =>
      if f.kind.Struct? then
        if |h.parts| == 3 then Failed(InvalidTag(f.tag))
        else IndexOutOfRange
      else if |h.parts| == 3 then Failed(InvalidTag(f.tag))
      else Parsed(EnvTag(h.key, h.required, ""))
  }

  /** A two-component tag on a nested-record field, `key,required` or
      `key,optional` with an allowed key, reaches the out-of-range index `split[2]`. */
  lemma {:induction false} TwoPartStructTagPanics(f: Field, key: string, required: bool, restrictTo: Option<set<string>>)
    requires f.kind.Struct?
    requires ',' !in key
    requires f.tag == key + "," + PolicyWord(required)
    requires restrictTo.Some? ==> key in restrictTo.value
    ensures GetEnvTagAsWritten(f, restrictTo) == IndexOutOfRange
  {
    var parts := [key, PolicyWord(required)];
    assert forall p :: p in parts ==> ',' !in p;
    assert Join(parts) == f.tag;
    SplitJoin(parts);
  }

  /** A well-formed three-component tag on a nested-record field, such as the
      fixture's `OPTIONAL_STRUCT,optional,FOO`, is an InvalidTag error as written,
      while the intended rule reads it back as the annotation it was written from. */
  lemma {:induction false} ThreePartStructTagRejectedAsWritten(f: Field, t: EnvTag, restrictTo: Option<set<string>>)
    requires f.kind.Struct? && f.tag == FormatTag(t, true)
    requires ',' !in t.key && ',' !in t.discriminator
    requires restrictTo.Some? ==> t.key in restrictTo.value
    ensures GetEnvTagAsWritten(f, restrictTo) == Failed(InvalidTag(f.tag))
    ensures GetEnvTag(f, restrictTo) == Ok(t)
  {
    TagRoundTrip(f, t, restrictTo);
    var word := PolicyWord(t.required);
    assert ',' !in word;
    assert f.tag == t.key + "," + word + "," + t.discriminator;
    SplitThree(t.key, word, t.discriminator);
  }
}
