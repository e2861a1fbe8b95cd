/** The `env` field annotation (envTag and getEnvTag, populate.go:106-153). Its
    shape is `key,required|optional` on a scalar field and
    `key,required|optional,discriminator` on a nested-record field. */
module Tags {
  import opened Common
  import opened Strings
  import opened Schema

  /** A parsed annotation. The discriminator is "" on scalar fields. */
  datatype EnvTag = EnvTag(key: string, required: bool, discriminator: string)

  function PolicyWord(required: bool): string {
    if required then "required" else "optional"
  }

  /** The annotation text that carries `t` on a field that is (or is not) a nested record. */
  function FormatTag(t: EnvTag, nested: bool): string {
    t.key + "," + PolicyWord(t.required) + (if nested then "," + t.discriminator else "")
  }

  /** What the kind-independent checks of populate.go:113-135 extract. */
  datatype Head = Head(key: string, required: bool, parts: seq<string>)

  /** The tag must be present, have 2 or 3 components, carry an allowed key, and
      name a policy; the allow-list is consulted before the policy word. */
  function ParseHead(f: Field, restrictTo: Option<set<string>>): (r: Result<Head>)
    ensures f.tag == "" ==> r == Err(EnvTagNotSet(f.name))
    ensures r.Ok? && restrictTo.Some? ==> r.value.key in restrictTo.value
    ensures r.Err? ==> r.error in {EnvTagNotSet(f.name), InvalidTag(f.tag), InvalidTagRestrictTo(f.tag)}
  {
    if f.tag == "" then Err(EnvTagNotSet(f.name))
    else
      var parts := Split(f.tag);
      if |parts| != 2 && |parts| != 3 then Err(InvalidTag(f.tag))
      else if restrictTo.Some? && parts[0] !in restrictTo.value then Err(InvalidTagRestrictTo(f.tag))
      else if parts[1] != "required" && parts[1] != "optional" then Err(InvalidTag(f.tag))
      else Ok(Head(parts[0], parts[1] == "required", parts))
  }

  /** An accepted head splits the tag into two or three comma-free components
      that join back to it: the key first, then the policy word. */
  lemma ParseHeadShape(f: Field, restrictTo: Option<set<string>>)
    ensures var r := ParseHead(f, restrictTo);
      r.Ok? ==>
        && 2 <= |r.value.parts| <= 3
        && Join(r.value.parts) == f.tag
        && (forall p :: p in r.value.parts ==> ',' !in p)
        && r.value.key == r.value.parts[0]
        && r.value.parts[1] == PolicyWord(r.value.required)
  {
  }

  /** The annotation of field `f`. An accepted tag is exactly the text of its parsed
      form, its key lies in the allow-list when there is one, and a scalar carries no
      discriminator. */
  function GetEnvTag(f: Field, restrictTo: Option<set<string>>): (r: Result<EnvTag>)
    ensures f.tag == "" <==> r == Err(EnvTagNotSet(f.name))
    ensures r.Ok? ==> FormatTag(r.value, f.kind.Struct?) == f.tag
    ensures r.Ok? && restrictTo.Some? ==> r.value.key in restrictTo.value
    ensures r.Ok? && !f.kind.Struct? ==> r.value.discriminator == ""
    ensures r.Err? ==> r.error in {EnvTagNotSet(f.name), InvalidTag(f.tag), InvalidTagRestrictTo(f.tag)}
  {
    match ParseHead(f, restrictTo)
    case Err(e) => Err(e)
    case Ok(h) =>
      var parts := h.parts;
      assert f.tag == Join(parts);
      assert Join(parts[1..]) == parts[1] + (if |parts| == 3 then "," + parts[2] else "");
      if f.kind.Struct? then
        // populate.go:139 tests `len(split) == 3`, which refuses every well-formed
        // nested-record tag; a nested record must carry exactly three components.
        if |parts| != 3 then Err(InvalidTag(f.tag))
        else Ok(EnvTag(h.key, h.required, parts[2]))
      else if |parts| == 3 then Err(InvalidTag(f.tag))
      else
        assert f.tag == parts[0] + "," + parts[1];
        Ok(EnvTag(h.key, h.required, ""))
  }

  /** GetEnvTag in terms of the comma-separated components of the tag: the
      component count is checked first, then the allow-list, then the policy word,
      and last the discriminator, which nested records need and scalars must not have. */
  lemma {:induction false} GetEnvTagByComponents(f: Field, parts: seq<string>, restrictTo: Option<set<string>>)
    requires |parts| >= 1
    requires forall p :: p in parts ==> ',' !in p
    requires f.tag == Join(parts)
    ensures f.tag != "" && |parts| != 2 && |parts| != 3 ==>
              GetEnvTag(f, restrictTo) == Err(InvalidTag(f.tag))
    ensures 2 <= |parts| <= 3 && restrictTo.Some? && parts[0] !in restrictTo.value ==>
              GetEnvTag(f, restrictTo) == Err(InvalidTagRestrictTo(f.tag))
    ensures 2 <= |parts| <= 3 && (restrictTo.Some? ==> parts[0] in restrictTo.value) ==>
              (parts[1] != "required" && parts[1] != "optional" ==> GetEnvTag(f, restrictTo) == Err(InvalidTag(f.tag)))
              && (parts[1] == "required" || parts[1] == "optional" ==>
                  GetEnvTag(f, restrictTo) ==
                    if f.kind.Struct? != (|parts| == 3) then Err(InvalidTag(f.tag))
                    else Ok(EnvTag(parts[0], parts[1] == "required", if |parts| == 3 then parts[2] else "")))
  {
    SplitJoin(parts);
  }

  /** A well-formed tag reads back as the annotation it was written from. */
  lemma {:induction false} TagRoundTrip(f: Field, t: EnvTag, restrictTo: Option<set<string>>)
    requires f.tag == FormatTag(t, f.kind.Struct?)
    requires ',' !in t.key && ',' !in t.discriminator
    requires !f.kind.Struct? ==> t.discriminator == ""
    requires restrictTo.Some? ==> t.key in restrictTo.value
    ensures GetEnvTag(f, restrictTo) == Ok(t)
  {
    var word := PolicyWord(t.required);
    var parts := if f.kind.Struct? then [t.key, word, t.discriminator] else [t.key, word];
    assert ',' !in word;
    assert forall p :: p in parts ==> ',' !in p;
    if f.kind.Struct? {
      assert Join(parts[2..]) == t.discriminator;
      assert Join(parts[1..]) == word + "," + t.discriminator;
    } else {
      assert Join(parts[1..]) == word;
      assert f.tag == t.key + "," + word;
    }
    assert f.tag == Join(parts);
    GetEnvTagByComponents(f, parts, restrictTo);
  }
}
