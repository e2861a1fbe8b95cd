/** The record shapes the populator walks. The source discovers them by reflection;
    here a record type is described by an explicit list of fields, each with its
    declared kind and its `env` annotation. */
module Schema {

  /** Bit width of a sized integer kind. WordSize is Go's `int`/`uint`
      (bitSize 0 in strconv), taken to be 64 bits. */
  datatype Width = WordSize | Bits8 | Bits16 | Bits32 | Bits64

  datatype FloatWidth = Float32 | Float64

  /** The kind of a field, as populate.go:57 and parseField distinguish them.
      Other stands for every kind the coercer refuses (slices, maps, pointers, ...). */
  datatype Kind =
    | Bool
    | Int(width: Width)
    | Uint(uwidth: Width)
    | Float(fwidth: FloatWidth)
    | Str
    | Struct(fields: seq<Field>)
    | Other(name: string)

  /** A declared field: its name, its kind and the text of its `env` tag. */
  datatype Field = Field(name: string, kind: Kind, tag: string)

  /** The current content of a field. FloatV holds the bit pattern the float parser
      produced; OpaqueV is the content of an unsupported field, never written. */
  datatype Value =
    | BoolV(b: bool)
    | IntV(i: int)
    | UintV(n: nat)
    | FloatV(bits: nat)
    | StrV(s: string)
    | RecordV(values: seq<Value>)
    | OpaqueV

  /** 2 to the power of the width's bit count. */
  function Modulus(w: Width): nat {
    match w
    case Bits8 => 0x100
    case Bits16 => 0x1_0000
    case Bits32 => 0x1_0000_0000
    case Bits64 => 0x1_0000_0000_0000_0000
    case WordSize => 0x1_0000_0000_0000_0000
  }

  predicate InSignedRange(v: int, w: Width) {
    -(Modulus(w) / 2) <= v < Modulus(w) / 2
  }

  predicate InUnsignedRange(v: int, w: Width) {
    0 <= v < Modulus(w)
  }

  /** `v` is a value the Go type system would let a field of kind `k` hold. */
  predicate Conforms(v: Value, k: Kind)
    decreases k, 1
  {
    match k
    case Bool => v.BoolV?
    case Int(w) => v.IntV? && InSignedRange(v.i, w)
    case Uint(w) => v.UintV? && InUnsignedRange(v.n, w)
    case Float(_) => v.FloatV?
    case Str => v.StrV?
    case Struct(fs) => v.RecordV? && ConformsAll(v.values, fs)
    case Other(_) => v.OpaqueV?
  }

  /** One value per field, each conforming to its field's kind. */
  predicate ConformsAll(vs: seq<Value>, fs: seq<Field>)
    decreases Struct(fs), 0
  {
    |vs| == |fs| && forall j :: 0 <= j < |fs| ==> Conforms(vs[j], fs[j].kind)
  }

  /** The zero value Go gives a freshly declared field of kind `k`. */
  function Zero(k: Kind): (v: Value)
    ensures Conforms(v, k)
    decreases k, 1
  {
    match k
    case Bool => BoolV(false)
    case Int(_) => IntV(0)
    case Uint(_) => UintV(0)
    case Float(_) => FloatV(0)
    case Str => StrV("")
    case Struct(fs) => RecordV(Zeros(fs))
    case Other(_) => OpaqueV
  }

  function Zeros(fs: seq<Field>): (vs: seq<Value>)
    ensures ConformsAll(vs, fs)
    decreases Struct(fs), 0
  {
    seq(|fs|, j requires 0 <= j < |fs| => Zero(fs[j].kind))
  }
}
