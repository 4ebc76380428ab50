/** The loosely typed value tree exchanged with typed values, the coding-path
    segments that locate a node in it, the integer widths and float classes of
    the primitive targets, and the type names that errors carry. */
module Values {

  /** Bit width of a Swift integer type; `Word` is the platform word (`Int`, `UInt`),
      64 bits on the platforms the library targets. */
  datatype Width = W8 | W16 | W32 | W64 | Word

  function Bits(w: Width): nat
  {
    match w
    case W8 => 8
    case W16 => 16
    case W32 => 32
    case W64 => 64
    case Word => 64
  }

  /** 2 to the number of bits of the width. */
  function Modulus(w: Width): (m: int)
    ensures m > 1 && m % 2 == 0
  {
    match w
    case W8 => 0x100
    case W16 => 0x1_0000
    case W32 => 0x1_0000_0000
    case W64 => 0x1_0000_0000_0000_0000
    case Word => 0x1_0000_0000_0000_0000
  }

  /** One of `Int`, `Int8` … `Int64`, `UInt`, `UInt8` … `UInt64`. */
  datatype IntType = IntType(signed: bool, width: Width) {

    function Min(): int
    {
      if signed then -(Modulus(width) / 2) else 0
    }

    function Max(): int
    {
      if signed then Modulus(width) / 2 - 1 else Modulus(width) - 1
    }

    predicate Contains(i: int)
    {
      Min() <= i <= Max()
    }

    /** The two's-complement truncation a fixed-width conversion performs:
        the unique value of the type congruent to `i`. */
    function Wrap(i: int): (r: int)
      ensures Contains(r)
      ensures Contains(i) ==> r == i
    {
      var m := Modulus(width);
      if signed then (i + m / 2) % m - m / 2 else i % m
    }
  }

  /** `UInt8`, the element type `Data` is coded as. */
  const UInt8: IntType := IntType(false, W8)

  /** A Swift `Float`/`Double` (or `Decimal`) reduced to its class: a finite
      value, the two infinities, or NaN. Rounding is not modelled. */
  datatype FloatVal = Finite(r: real) | PosInf | NegInf | NaN

  /** `Float.greatestFiniteMagnitude`, (2 - 2^-23) * 2^127. */
  const FloatMax: real := 340282346638528859811704183484516925440.0

  /** Conversion of a real to an integer, rounding toward zero as Swift's
      integer initialisers from floating point do. */
  function Trunc(r: real): (i: int)
    ensures Integral(r) ==> i as real == r
    ensures 0.0 <= r ==> i as real <= r < i as real + 1.0
    ensures r < 0.0 ==> i as real - 1.0 < r <= i as real
  {
    if Integral(r) || r >= 0.0 then r.Floor else r.Floor + 1
  }

  predicate Integral(r: real)
  {
    r.Floor as real == r
  }

  /** A node of the value tree. `Bool` is the boolean-tagged number
      (`kCFBooleanTrue`/`kCFBooleanFalse`); `Integer`, `Floating` and
      `DecimalNum` are the other `NSNumber`s; `Url` and `Uuid` are Foundation
      values stored directly in the tree. */
  datatype Value =
    | Null
    | Bool(b: bool)
    | Integer(i: int)
    | Floating(f: FloatVal)
    | DecimalNum(d: FloatVal)
    | Str(s: string)
    | Url(absolute: string)
    | Uuid(text: string)
    | Array(elems: seq<Value>)
    | Dict(entries: map<string, Value>)
  {
    /** An `NSNumber` that is not one of the two boolean singletons. */
    predicate IsPlainNumber()
    {
      Integer? || Floating? || DecimalNum?
    }

    /** Anything `value as? NSNumber` accepts. */
    predicate IsNumber()
    {
      Bool? || IsPlainNumber()
    }

    /** `doubleValue` of a plain number. */
    function DoubleValue(): FloatVal
      requires IsPlainNumber()
    {
      match this
      case Integer(i) => Finite(i as real)
      case Floating(f) => f
      case DecimalNum(d) => d
    }
  }

  /** A coding-path segment: a string key, an array index, or the reserved
      key used for superclass coding. */
  datatype CodingKey = NamedKey(name: string) | IndexKey(index: nat) | SuperKey

  /** The `stringValue` of the reserved super key. */
  const SuperKeyName: string := "super"

  /** The metatypes (`Any.Type`) that errors and reasons carry. */
  datatype TypeTag =
    | BoolType
    | IntegerType(t: IntType)
    | FloatType
    | DoubleType
    | StringType
    | UuidType
    | UrlType
    | DecimalType
    | DateType
    | DataType
    | NamedType(name: string)
    | ArrayType(element: TypeTag)
    | CodingKeysType(owner: string)
    | KeyedContainerType(keys: string)
    | UnkeyedContainerType
    | DecoderType
    | DictionaryType
    | AnyArrayType
    | OptionalAnyType
}
