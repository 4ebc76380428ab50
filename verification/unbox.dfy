/** The coercion rules: whether a tree node can stand for a requested
    primitive, and what it converts to. Every rule maps `Null` to absent
    (`None`), never to an error or a zero value. The coding path is the
    decoder's path at the moment of the call; errors carry it. */
module Coercions {
  import opened Wrappers
  import opened Values
  import opened Errors
  import opened Options
  import opened Targets

  type Unboxed<T> = Result<Option<T>, DecodingError>

  /** `DecodingError._typeMismatch(at:expectation:reality:)`. */
  function Mismatch(ty: TypeTag, path: seq<CodingKey>): DecodingError
  {
    TypeMismatchError(ty, PathContext(path, "Expected a different type of value."))
  }

  /** `buildDataCorruptedError(value:type:debugDescription:)`: the current path and a
      `dataCorrupted(value, type)` reason. */
  function Corrupted(value: Value, ty: TypeTag, path: seq<CodingKey>): (e: DecodingError)
    ensures e.DataCorruptedError? && e.context.codingPath == path
    ensures e.context.underlyingError == Reason(DataCorrupted(value, ty))
    ensures e.context.Type() == Some(ty)
  {
    DataCorruptedError(ReasonContext(path, "Parsed number does not fit.", DataCorrupted(value, ty)))
  }

  predicate IsMismatch(r: Unboxed, ty: TypeTag, path: seq<CodingKey>)
  {
    r.Failure? && r.error.TypeMismatchError? && r.error.ty == ty && r.error.context.codingPath == path
  }

  predicate IsCorrupted(r: Unboxed, value: Value, ty: TypeTag, path: seq<CodingKey>)
  {
    r.Failure? && r.error.DataCorruptedError? && r.error.context.codingPath == path
    && r.error.context.underlyingError == Reason(DataCorrupted(value, ty))
  }

  // ---------------------------------------------------------------- Bool

  /** A number that compares unequal to zero (NaN included). */
  predicate NonZero(f: FloatVal)
  {
    f != Finite(0.0)
  }

  /** Booleans give their flag; any other number gives `n != 0`; anything else
      is a type mismatch. */
  function UnboxBool(v: Value, path: seq<CodingKey>): (r: Unboxed<bool>)
    ensures v.Null? <==> r == Success(None)
    ensures v.Bool? ==> r == Success(Some(v.b))
    ensures v.IsPlainNumber() ==> r == Success(Some(NonZero(v.DoubleValue())))
    ensures !v.Null? && !v.IsNumber() ==> IsMismatch(r, BoolType, path)
  {
    if v.Null? then Success(None)
    else if v.Bool? then Success(Some(v.b))
    else if v.IsPlainNumber() then Success(Some(v.DoubleValue() != Finite(0.0)))
    else Failure(Mismatch(BoolType, path))
  }

  // ---------------------------------------------------------------- integers

  /** `number.intNValue` followed by the `NSNumber(value:) == number` check: the
      narrowed value if it compares equal to the original. */
  function Narrow(t: IntType, f: FloatVal): (r: Option<int>)
    ensures r.Some? ==> f.Finite? && r.value as real == f.r && t.Contains(r.value)
    ensures f.Finite? && Integral(f.r) && t.Contains(f.r.Floor) ==> r == Some(f.r.Floor)
  {
    if f.Finite? && (t.Wrap(Trunc(f.r)) as real) == f.r then Some(t.Wrap(Trunc(f.r))) else None
  }

  /** Narrowing succeeds exactly for integral values in the type's range, and
      then it gives that value unchanged. */
  lemma NarrowExact(t: IntType, f: FloatVal)
    ensures Narrow(t, f).Some? <==> f.Finite? && Integral(f.r) && t.Contains(f.r.Floor)
    ensures Narrow(t, f).Some? ==> Narrow(t, f).value as real == f.r
  {
    if f.Finite? {
      var n := t.Wrap(Trunc(f.r));
      if n as real == f.r {
        assert f.r.Floor == n;
      }
      if Integral(f.r) && t.Contains(f.r.Floor) {
        assert Trunc(f.r) == f.r.Floor;
      }
    }
  }

  /** Every integer overload: booleans and non-numbers are a type mismatch;
      a number the target cannot hold exactly is `dataCorrupted` carrying the
      node and the type. */
  function UnboxInt(v: Value, t: IntType, path: seq<CodingKey>): (r: Unboxed<int>)
    ensures v.Null? <==> r == Success(None)
    ensures !v.Null? && !v.IsPlainNumber() ==> IsMismatch(r, IntegerType(t), path)
    ensures v.IsPlainNumber() ==>
      var f := v.DoubleValue();
      if f.Finite? && Integral(f.r) && t.Contains(f.r.Floor) then r == Success(Some(f.r.Floor))
      else IsCorrupted(r, v, IntegerType(t), path)
  {
    if v.Null? then Success(None)
    else if !v.IsPlainNumber() then Failure(Mismatch(IntegerType(t), path))
    else
      NarrowExact(t, v.DoubleValue());
      match Narrow(t, v.DoubleValue())
      case Some(n) => Success(Some(n))
      case None => Failure(Corrupted(v, IntegerType(t), path))
  }

  /** Through the typed overload: an integer target yields `n` exactly when the
      node is a plain number equal to `n` and `n` is in the type's range. */
  lemma IntOverloadExact(v: Value, t: IntType, n: int, strategy: NonConformingFloatDecodingStrategy, path: seq<CodingKey>)
    ensures UnboxPrim(v, PInt(t), strategy, path) == Success(Some(IntV(t, n))) <==>
      v.IsPlainNumber() && v.DoubleValue() == Finite(n as real) && t.Contains(n)
  {
    if v.IsPlainNumber() && v.DoubleValue() == Finite(n as real) && t.Contains(n) {
      assert (n as real).Floor == n;
    }
  }

  // ---------------------------------------------------------------- floating point

  /** `abs(double) <= Double(Float.greatestFiniteMagnitude)`; false for NaN. */
  predicate FitsFloat(f: FloatVal)
  {
    f.Finite? && -FloatMax <= f.r <= FloatMax
  }

  /** The sentinel-string reading shared by the Float and Double overloads. */
  function FromSentinel(s: string, strategy: NonConformingFloatDecodingStrategy): (r: Option<FloatVal>)
    ensures strategy.ThrowOnNonConforming? ==> r.None?
    ensures strategy.ConvertFromString? ==>
      && (s == strategy.positiveInfinity ==> r == Some(PosInf))
      && (s != strategy.positiveInfinity && s == strategy.negativeInfinity ==> r == Some(NegInf))
      && (s != strategy.positiveInfinity && s != strategy.negativeInfinity && s == strategy.nan ==> r == Some(NaN))
      && (s !in {strategy.positiveInfinity, strategy.negativeInfinity, strategy.nan} ==> r.None?)
  {
    match strategy
    case ThrowOnNonConforming => None
    case ConvertFromString(pos, neg, nan) =>
      if s == pos then Some(PosInf)
      else if s == neg then Some(NegInf)
      else if s == nan then Some(NaN)
      else None
  }

  /** A plain number within Float's range converts (precision loss is not
      modelled); one outside it is `dataCorrupted`. Strings are read through the
      sentinels under `convertFromString`; everything else is a type mismatch. */
  function UnboxFloat(v: Value, strategy: NonConformingFloatDecodingStrategy, path: seq<CodingKey>): (r: Unboxed<FloatVal>)
    ensures v.Null? <==> r == Success(None)
    ensures v.IsPlainNumber() && FitsFloat(v.DoubleValue()) ==> r == Success(Some(v.DoubleValue()))
    ensures v.IsPlainNumber() && !FitsFloat(v.DoubleValue()) ==> IsCorrupted(r, v, FloatType, path)
    ensures v.Str? && FromSentinel(v.s, strategy).Some? ==> r == Success(FromSentinel(v.s, strategy))
    ensures v.Str? && FromSentinel(v.s, strategy).None? ==> IsMismatch(r, FloatType, path)
    ensures !v.Null? && !v.IsPlainNumber() && !v.Str? ==> IsMismatch(r, FloatType, path)
  {
    if v.Null? then Success(None)
    else if v.IsPlainNumber() then
      var d := v.DoubleValue();
      if FitsFloat(d) then Success(Some(d)) else Failure(Corrupted(v, FloatType, path))
    else if v.Str? && FromSentinel(v.s, strategy).Some? then Success(FromSentinel(v.s, strategy))
    else Failure(Mismatch(FloatType, path))
  }

  /** Every plain number is accepted as a Double; strings as for Float. */
  function UnboxDouble(v: Value, strategy: NonConformingFloatDecodingStrategy, path: seq<CodingKey>): (r: Unboxed<FloatVal>)
    ensures v.Null? <==> r == Success(None)
    ensures v.IsPlainNumber() ==> r == Success(Some(v.DoubleValue()))
    ensures v.Str? ==> (FromSentinel(v.s, strategy).Some? ==> r == Success(FromSentinel(v.s, strategy)))
    ensures v.Str? && FromSentinel(v.s, strategy).None? ==> IsMismatch(r, DoubleType, path)
    ensures !v.Null? && !v.IsPlainNumber() && !v.Str? ==> IsMismatch(r, DoubleType, path)
  {
    if v.Null? then Success(None)
    else if v.IsPlainNumber() then Success(Some(v.DoubleValue()))
    else if v.Str? && FromSentinel(v.s, strategy).Some? then Success(FromSentinel(v.s, strategy))
    else Failure(Mismatch(DoubleType, path))
  }

  /** Under `convertFromString` the three sentinels are exactly the strings
      a Double target accepts, and they give +infinity, -infinity and NaN. */
  lemma SentinelsRoundTrip(pos: string, neg: string, nan: string, path: seq<CodingKey>)
    requires pos != neg && pos != nan && neg != nan
    ensures UnboxDouble(Str(pos), ConvertFromString(pos, neg, nan), path) == Success(Some(PosInf))
    ensures UnboxDouble(Str(neg), ConvertFromString(pos, neg, nan), path) == Success(Some(NegInf))
    ensures UnboxDouble(Str(nan), ConvertFromString(pos, neg, nan), path) == Success(Some(NaN))
    ensures forall s :: s != pos && s != neg && s != nan ==>
      IsMismatch(UnboxDouble(Str(s), ConvertFromString(pos, neg, nan), path), DoubleType, path)
  {
  }

  // ---------------------------------------------------------------- strings, URLs, UUIDs

  /** Strings pass through; URL and UUID nodes give their canonical string
      (`absoluteString`, `uuidString`). */
  function UnboxString(v: Value, path: seq<CodingKey>): (r: Unboxed<string>)
    ensures v.Null? <==> r == Success(None)
    ensures v.Str? ==> r == Success(Some(v.s))
    ensures v.Url? ==> r == Success(Some(v.absolute))
    ensures v.Uuid? ==> r == Success(Some(v.text))
    ensures !(v.Null? || v.Str? || v.Url? || v.Uuid?) ==> IsMismatch(r, StringType, path)
  {
    match v
    case Null => Success(None)
    case Url(a) => Success(Some(a))
    case Uuid(t) => Success(Some(t))
    case Str(s) => Success(Some(s))
    case _ => Failure(Mismatch(StringType, path))
  }

  predicate IsHexDigit(c: char)
  {
    '0' <= c <= '9' || 'a' <= c <= 'f' || 'A' <= c <= 'F'
  }

  function UpperHex(c: char): char
  {
    if 'a' <= c <= 'f' then (c as int - 32) as char else c
  }

  predicate IsUuidText(s: string)
  {
    |s| == 36 && forall i :: 0 <= i < 36 ==>
      if i in {8, 13, 18, 23} then s[i] == '-' else IsHexDigit(s[i])
  }

  /** `UUID(uuidString:)`: the 8-4-4-4-12 hexadecimal form, in either case; the
      UUID is represented by its upper-case `uuidString`. */
  function ParseUuid(s: string): (r: Option<string>)
    ensures r.Some? <==> IsUuidText(s)
    ensures r.Some? ==> |r.value| == 36 && forall i :: 0 <= i < 36 ==> r.value[i] == UpperHex(s[i])
  {
    if IsUuidText(s) then Some(seq(36, i requires 0 <= i < 36 => UpperHex(s[i]))) else None
  }

  /** UUID nodes pass through; strings are parsed and a malformed one gives
      absent, not an error; any other node is a type mismatch. The bridged
      `CFUUID` branch is not modelled (no tree node is a `CFUUID`). */
  function UnboxUuid(v: Value, path: seq<CodingKey>): (r: Unboxed<string>)
    ensures r == Success(None) <==> v.Null? || (v.Str? && !IsUuidText(v.s))
    ensures v.Uuid? ==> r == Success(Some(v.text))
    ensures v.Str? ==> r == Success(ParseUuid(v.s))
    ensures !(v.Null? || v.Str? || v.Uuid?) ==> IsMismatch(r, UuidType, path)
  {
    match v
    case Null => Success(None)
    case Uuid(t) => Success(Some(t))
    case Str(s) => Success(ParseUuid(s))
    case _ => Failure(Mismatch(UuidType, path))
  }

  /** Characters a URL string may contain: the unreserved and reserved sets of
      RFC 3986 and the percent sign. */
  predicate IsUrlChar(c: char)
  {
    || 'a' <= c <= 'z' || 'A' <= c <= 'Z' || '0' <= c <= '9'
    || c in "-._~:/?#[]@!$&'()*+,;=%"
  }

  /** `URL(string:)`: a non-empty string of URL characters parses, and its
      `absoluteString` is the string itself. */
  function ParseUrl(s: string): (r: Option<string>)
    ensures r.Some? <==> |s| > 0 && forall i :: 0 <= i < |s| ==> IsUrlChar(s[i])
    ensures r.Some? ==> r.value == s
  {
    if |s| > 0 && forall i :: 0 <= i < |s| ==> IsUrlChar(s[i]) then Some(s) else None
  }

  /** The URL branch of the generic dispatcher: read a string (absent stays
      absent), then parse it; an unparsable string is `dataCorrupted`, not a
      type mismatch. */
  function UnboxUrl(v: Value, path: seq<CodingKey>): (r: Unboxed<string>)
    ensures v.Null? <==> r == Success(None)
    ensures UnboxString(v, path).Failure? ==> r == UnboxString(v, path)
    ensures UnboxString(v, path).Success? && UnboxString(v, path).value.Some? ==>
      var s := UnboxString(v, path).value.value;
      if ParseUrl(s).Some? then r == Success(Some(s)) else IsCorrupted(r, v, UrlType, path)
  {
    match UnboxString(v, path)
    case Failure(e) => Failure(e)
    case Success(None) => Success(None)
    case Success(Some(s)) =>
      match ParseUrl(s)
      case Some(u) => Success(Some(u))
      case None => Failure(DataCorruptedError(ReasonContext(path, "Invalid URL string.", DataCorrupted(v, UrlType))))
  }

  // ---------------------------------------------------------------- Decimal

  /** Decimal nodes pass through; anything else goes through the Double rule
      and is converted (precision loss is not modelled). */
  function UnboxDecimal(v: Value, strategy: NonConformingFloatDecodingStrategy, path: seq<CodingKey>): (r: Unboxed<FloatVal>)
    ensures v.Null? <==> r == Success(None)
    ensures v.DecimalNum? ==> r == Success(Some(v.d))
    ensures !v.Null? && !v.DecimalNum? ==>
      match UnboxDouble(v, strategy, path)
      case Success(o) => o.Some? && r == Success(o)
      case Failure(e) => r == Failure(e)
  {
    if v.Null? then Success(None)
    else if v.DecimalNum? then Success(Some(v.d))
    else
      match UnboxDouble(v, strategy, path)
      case Failure(e) => Failure(e)
      case Success(o) => Success(Some(if o.Some? then o.value else NaN))
  }

  // ---------------------------------------------------------------- primitive overloads

  /** The overload for primitive `p`, with its result as a typed value. */
  function UnboxPrim(v: Value, p: Prim, strategy: NonConformingFloatDecodingStrategy, path: seq<CodingKey>): (r: Unboxed<Typed>)
    ensures v.Null? <==> r == Success(None)
    ensures r.Success? && r.value.Some? ==> HasType(r.value.value, Prim(p))
    ensures r.Failure? ==> r.error.HasPath(path)
  {
    match p
    case PBool =>
      (match UnboxBool(v, path)
       case Failure(e) => Failure(e)
       case Success(o) => Success(if o.Some? then Some(BoolV(o.value)) else None))
    case PInt(t) =>
      (match UnboxInt(v, t, path)
       case Failure(e) => Failure(e)
       case Success(o) => Success(if o.Some? then Some(IntV(t, o.value)) else None))
    case PFloat =>
      (match UnboxFloat(v, strategy, path)
       case Failure(e) => Failure(e)
       case Success(o) => Success(if o.Some? then Some(FloatV(o.value)) else None))
    case PDouble =>
      (match UnboxDouble(v, strategy, path)
       case Failure(e) => Failure(e)
       case Success(o) => Success(if o.Some? then Some(DoubleV(o.value)) else None))
    case PString =>
      (match UnboxString(v, path)
       case Failure(e) => Failure(e)
       case Success(o) => Success(if o.Some? then Some(StringV(o.value)) else None))
  }
}
