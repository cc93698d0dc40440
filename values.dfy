/** What a context stores: Go `interface{}` values restricted to the types
    the typed getters ask for, plus the panics its accessors raise. */
module Values {
  import opened Strconv

  /** Go's signed integer types; `GoInt` is the platform `int` (64 bits). */
  datatype IntWidth = GoInt | Int8 | Int16 | Int32 | Int64

  datatype FloatWidth = Float32 | Float64

  /** A dynamically typed value. A float is kept as its IEEE bit pattern
      (no floating-point operation is modelled); `Other` stands for any
      type outside the nine the getters know. */
  datatype Value =
    | Str(s: string)
    | Integer(width: IntWidth, n: int)
    | Float(fwidth: FloatWidth, bits: nat)
    | Boolean(b: bool)
    | Other(typeName: string)

  /** The dynamic type a typed getter asserts. */
  datatype Kind = StringKind | IntKind(width: IntWidth) | FloatKind(fwidth: FloatWidth) | BoolKind

  /** Go's type assertion `v.(T)`: the dynamic type must be exactly `T`. */
  predicate HasKind(v: Value, k: Kind) {
    match k
    case StringKind => v.Str?
    case IntKind(w) => v.Integer? && v.width == w
    case FloatKind(w) => v.Float? && v.fwidth == w
    case BoolKind => v.Boolean?
  }

  /** The panics of the context accessors, as error values. */
  datatype Panic =
    | KeyNotFound                 // "the key ... does not exist"
    | TypeMismatch(expected: Kind) // "the expected value is not ..."
    | TooManyDefaults(count: nat)  // "allowed to pass only 1 default value ..."
    | ParamNotFound(index: int)    // "the param with index ... does not exist"
    | IndexOutOfRange(index: int)  // the runtime panic of params[i] for i < 0
    | NumberError(err: NumError)   // panic(err) with the strconv error
    | NotABool                     // "cannot convert to bool"

  newtype byte = x: int | 0 <= x < 256

  /** Go's `string(b)`: a byte-for-byte copy. */
  function BytesToString(b: seq<byte>): (s: string)
    ensures |s| == |b|
    ensures forall i :: 0 <= i < |b| ==> s[i] as int == b[i] as int
  {
    seq(|b|, i requires 0 <= i < |b| => (b[i] as int) as char)
  }

  predicate IsByteString(s: string) {
    forall i :: 0 <= i < |s| ==> s[i] as int < 256
  }

  /** Go's `[]byte(s)`. */
  function StringToBytes(s: string): (b: seq<byte>)
    requires IsByteString(s)
    ensures BytesToString(b) == s
  {
    seq(|s|, i requires 0 <= i < |s| => s[i] as int as byte)
  }
}
