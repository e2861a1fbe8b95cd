/** Text-to-scalar coercion (parseField, populate.go:155-239). */
module Coerce {
  import opened Common
  import opened Decimal
  import opened Schema

  /** strconv.ParseFloat, which this model does not describe: it is supplied from
      outside and yields the bit pattern of the parsed value, or None when the text
      is malformed or out of range. */
  type FloatParser = (FloatWidth, string) -> Option<nat>

  /** The digits of a signed numeral: the text after one optional leading sign. */
  function SignedDigits(text: string): string
    requires |text| > 0
  {
    if text[0] == '+' || text[0] == '-' then text[1..] else text
  }

  /** The number a signed numeral denotes: negative exactly when it starts with '-'. */
  function SignedValue(text: string): int
    requires |text| > 0 && IsNumeral(SignedDigits(text))
  {
    var m: int := NumeralValue(SignedDigits(text));
    if text[0] == '-' then -m else m
  }

  /** strconv.ParseInt(text, 10, bits): one optional '+' or '-', then a numeral.
      Exactly the signed numerals whose value fits the width are accepted, each
      yielding the number it denotes. */
  function ParseInt(text: string, w: Width): (r: Option<int>)
    ensures r.Some? ==> InSignedRange(r.value, w)
    ensures r == if |text| > 0 && IsNumeral(SignedDigits(text)) && InSignedRange(SignedValue(text), w)
                 then Some(SignedValue(text)) else None
  {
    if |text| == 0 then None
    else
      var digits := if text[0] == '+' || text[0] == '-' then text[1..] else text;
      match ParseDigits(digits)
      case None => None
      case Some(m) =>
        var v: int := if text[0] == '-' then -(m as int) else m;
        if InSignedRange(v, w) then Some(v) else None
  }

  /** strconv.ParseUint(text, 10, bits): a numeral without sign. Exactly the
      numerals whose value fits the width are accepted, each yielding the number
      it denotes. */
  function ParseUint(text: string, w: Width): (r: Option<nat>)
    ensures r.Some? ==> InUnsignedRange(r.value, w)
    ensures r == if IsNumeral(text) && InUnsignedRange(NumeralValue(text), w)
                 then Some(NumeralValue(text)) else None
  {
    match ParseDigits(text)
    case None => None
    case Some(m) => if InUnsignedRange(m, w) then Some(m) else None
  }

  /** Leading zeros and a sign on zero are accepted, as strconv accepts them. */
  lemma NonCanonicalNumerals()
    ensures ParseInt("007", Bits8) == Some(7)
    ensures ParseInt("+007", Bits8) == Some(7)
    ensures ParseInt("-0", Bits8) == Some(0)
    ensures ParseUint("007", Bits8) == Some(7)
    ensures ParseUint("+7", Bits8) == None
  {
  }

  /** The canonical decimal text of an integer. */
  function FormatInt(n: int): string {
    if n < 0 then "-" + FormatNat(-n) else FormatNat(n)
  }

  /** Every integer's decimal text parses back to it exactly when it fits the width. */
  lemma ParseIntRoundTrip(n: int, w: Width)
    ensures ParseInt(FormatInt(n), w) == if InSignedRange(n, w) then Some(n) else None
  {
    var text := FormatInt(n);
    if n < 0 {
      assert text[1..] == FormatNat(-n);
    } else {
      assert IsDigit(text[0]);
    }
  }

  /** An explicit '+' sign is accepted by the signed parser and refused by the
      unsigned one, and '-' is refused by the unsigned one too. */
  lemma SignAcceptedOnlyWhenSigned(n: nat, w: Width)
    ensures ParseInt("+" + FormatNat(n), w) == if InSignedRange(n, w) then Some(n) else None
    ensures ParseUint("+" + FormatNat(n), w) == None
    ensures ParseUint("-" + FormatNat(n), w) == None
  {
    assert ("+" + FormatNat(n))[1..] == FormatNat(n);
    assert !IsNumeral("+" + FormatNat(n)) by { assert !IsDigit(("+" + FormatNat(n))[0]); }
    assert !IsNumeral("-" + FormatNat(n)) by { assert !IsDigit(("-" + FormatNat(n))[0]); }
  }

  /** Every natural number's decimal text parses back to it exactly when it fits the width. */
  lemma ParseUintRoundTrip(n: nat, w: Width)
    ensures ParseUint(FormatNat(n), w) == if InUnsignedRange(n, w) then Some(n) else None
  {
  }

  /** How Go prints the kinds parseField refuses. */
  function KindName(kind: Kind): string {
    match kind
    case Struct(_) => "struct"
    case Other(name) => name
    case _ => ""
  }

  /** Coerce `text` to a value of `kind`. Booleans are false only for "" and
      "false"; strings pass through unchanged; integers follow ParseInt/ParseUint;
      every failure is CannotParse naming the text, except that a kind outside the
      supported set is FieldTypeNotAllowed. */
  function ParseField(kind: Kind, text: string, parseFloat: FloatParser): (r: Result<Value>)
    ensures r.Ok? ==> Conforms(r.value, kind)
    ensures r.Err? ==> r.error == CannotParse(text) || r.error == FieldTypeNotAllowed(KindName(kind))
    ensures kind == Bool ==> r.Ok? && (r.value == BoolV(false) <==> text == "" || text == "false")
    ensures kind == Str ==> r == Ok(StrV(text))
    ensures kind.Int? ==> (r.Ok? <==> ParseInt(text, kind.width).Some?)
    ensures kind.Int? && r.Ok? ==> r.value == IntV(ParseInt(text, kind.width).value)
    ensures kind.Uint? ==> (r.Ok? <==> ParseUint(text, kind.uwidth).Some?)
    ensures kind.Uint? && r.Ok? ==> r.value == UintV(ParseUint(text, kind.uwidth).value)
    ensures kind.Float? ==> (r.Ok? <==> parseFloat(kind.fwidth, text).Some?)
    ensures kind.Float? && r.Ok? ==> r.value == FloatV(parseFloat(kind.fwidth, text).value)
    ensures kind.Struct? || kind.Other? ==> r == Err(FieldTypeNotAllowed(KindName(kind)))
    ensures !(kind.Struct? || kind.Other?) && r.Err? ==> r.error == CannotParse(text)
  {
    match kind
    case Bool => Ok(BoolV(text != "" && text != "false"))
    case Int(w) =>
      (match ParseInt(text, w)
       case Some(v) => Ok(IntV(v))
       case None => Err(CannotParse(text)))
    case Uint(w) =>
      (match ParseUint(text, w)
       case Some(v) => Ok(UintV(v))
       case None => Err(CannotParse(text)))
    case Float(w) =>
      (match parseFloat(w, text)
       case Some(bits) => Ok(FloatV(bits))
       case None => Err(CannotParse(text)))
    case Str => Ok(StrV(text))
    case _ => Err(FieldTypeNotAllowed(KindName(kind)))
  }

  /** The permissive boolean reading: "0", "1" and any other non-empty text other
      than "false" give true. */
  lemma BoolCoercionExamples(parseFloat: FloatParser)
    ensures ParseField(Bool, "", parseFloat) == Ok(BoolV(false))
    ensures ParseField(Bool, "false", parseFloat) == Ok(BoolV(false))
    ensures ParseField(Bool, "0", parseFloat) == Ok(BoolV(true))
    ensures ParseField(Bool, "1", parseFloat) == Ok(BoolV(true))
    ensures ParseField(Bool, "FALSE", parseFloat) == Ok(BoolV(true))
  {
  }
}
