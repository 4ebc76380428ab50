/** The tree a typed value is expected to encode to, written directly by
    structural recursion and independent of the stack machine: scalars become
    leaves, a record a map of its fields (a later field with the same key
    wins), an array an array, `Date` its interval, `Data` its bytes, `URL` and
    `UUID` their strings. Infinity and NaN need the `convertToString` strategy. */
module EncodedForm {
  import opened Wrappers
  import opened Values
  import opened Options
  import opened Targets

  /** A Float or Double the strategy can write. */
  predicate Conforms(f: FloatVal, s: NonConformingFloatEncodingStrategy)
  {
    f.Finite? || s.ConvertToString?
  }

  /** The leaf a Float or Double boxes to. */
  function FloatTree(f: FloatVal, s: NonConformingFloatEncodingStrategy): Value
  {
    match f
    case Finite(_) => Floating(f)
    case PosInf => if s.ConvertToString? then Str(s.positiveInfinity) else Null
    case NegInf => if s.ConvertToString? then Str(s.negativeInfinity) else Null
    case NaN => if s.ConvertToString? then Str(s.nan) else Null
  }

  /** Every Float, Double and Date inside `v` conforms. */
  predicate Encodable(v: Typed, s: NonConformingFloatEncodingStrategy)
    decreases v, 1
  {
    match v
    case FloatV(f) => Conforms(f, s)
    case DoubleV(f) => Conforms(f, s)
    case DateV(f) => Conforms(f, s)
    case RecordV(_, fields) => FieldsEncodable(v, |fields|, s)
    case ArrayV(xs) => forall i :: 0 <= i < |xs| ==> Encodable(xs[i], s)
    case _ => true
  }

  predicate FieldsEncodable(v: Typed, n: nat, s: NonConformingFloatEncodingStrategy)
    requires v.RecordV? && n <= |v.fields|
    decreases v, 0, n
  {
    forall i :: 0 <= i < n ==> Encodable(v.fields[i].value, s)
  }

  /** The tree of `v` where a value is required (a silent value becomes an
      empty map, as the nested `box` does). */
  function TreeOf(v: Typed, s: NonConformingFloatEncodingStrategy): Value
    decreases v, 1
  {
    match v
    case BoolV(b) => Bool(b)
    case IntV(_, i) => Integer(i)
    case FloatV(f) => FloatTree(f, s)
    case DoubleV(f) => FloatTree(f, s)
    case StringV(x) => Str(x)
    case UuidV(x) => Str(x)
    case UrlV(a) => Str(a)
    case DecimalV(d) => DecimalNum(d)
    case DateV(f) => FloatTree(f, s)
    case DataV(bytes) => Array(BytesTree(bytes))
    case RecordV(_, fields) => Dict(FieldsTree(v, |fields|, s))
    case ArrayV(xs) => Array(seq(|xs|, i requires 0 <= i < |xs| => TreeOf(xs[i], s)))
    case SilentV(_) => Dict(map[])
  }

  function BytesTree(bytes: seq<int>): (r: seq<Value>)
    ensures |r| == |bytes| && forall i :: 0 <= i < |bytes| ==> r[i] == Integer(bytes[i])
  {
    seq(|bytes|, i requires 0 <= i < |bytes| => Integer(bytes[i]))
  }

  /** The map written by the first `n` fields of record `v`. */
  function FieldsTree(v: Typed, n: nat, s: NonConformingFloatEncodingStrategy): map<string, Value>
    requires v.RecordV? && n <= |v.fields|
    decreases v, 0, n
  {
    if n == 0 then map[]
    else FieldsTree(v, n - 1, s)[v.fields[n - 1].key := TreeOf(v.fields[n - 1].value, s)]
  }
}
