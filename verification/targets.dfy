/** Typed values and the decode targets (metatypes) the engine is asked for.
    User-written `init(from:)` / `encode(to:)` logic is abstracted as a small
    schema: a record decodes its fields in order through a keyed container, an
    array decodes elements until the cursor reaches the end, a silent type
    reads and writes nothing. */
module Targets {
  import opened Values

  /** The primitive types the containers have dedicated overloads for. */
  datatype Prim = PBool | PInt(t: IntType) | PFloat | PDouble | PString

  /** A type requested from the decoder. */
  datatype Target =
    | Prim(p: Prim)
    | UuidTarget
    | UrlTarget
    | DecimalTarget
    | DateTarget
    | DataTarget
    | Record(name: string, fields: seq<Field>)
    | ArrayOf(element: Target)
    | SilentTarget(name: string)

  datatype Field = Field(key: string, target: Target)

  /** A typed (decoded, or to-be-encoded) value. */
  datatype Typed =
    | BoolV(b: bool)
    | IntV(t: IntType, i: int)
    | FloatV(f: FloatVal)
    | DoubleV(f: FloatVal)
    | StringV(s: string)
    | UuidV(text: string)
    | UrlV(absolute: string)
    | DecimalV(d: FloatVal)
    | DateV(since: FloatVal)
    | DataV(bytes: seq<int>)
    | RecordV(name: string, fields: seq<FieldValue>)
    | ArrayV(elems: seq<Typed>)
    | SilentV(name: string)

  datatype FieldValue = FieldValue(key: string, value: Typed)

  function PrimType(p: Prim): TypeTag
  {
    match p
    case PBool => BoolType
    case PInt(t) => IntegerType(t)
    case PFloat => FloatType
    case PDouble => DoubleType
    case PString => StringType
  }

  /** The metatype (`T.self`) of a target. */
  function TargetType(t: Target): TypeTag
  {
    match t
    case Prim(p) => PrimType(p)
    case UuidTarget => UuidType
    case UrlTarget => UrlType
    case DecimalTarget => DecimalType
    case DateTarget => DateType
    case DataTarget => DataType
    case Record(name, _) => NamedType(name)
    case ArrayOf(e) => ArrayType(TargetType(e))
    case SilentTarget(name) => NamedType(name)
  }

  /** `v as? T` succeeds. A record value of the record's type has exactly
      its declared fields, in order, each of the declared type; an array
      value's elements are all of the element type; a silent type is nominal. */
  predicate HasType(v: Typed, t: Target)
    decreases t, 1
  {
    match t
    case Prim(PBool) => v.BoolV?
    case Prim(PInt(k)) => v.IntV? && v.t == k
    case Prim(PFloat) => v.FloatV?
    case Prim(PDouble) => v.DoubleV?
    case Prim(PString) => v.StringV?
    case UuidTarget => v.UuidV?
    case UrlTarget => v.UrlV?
    case DecimalTarget => v.DecimalV?
    case DateTarget => v.DateV?
    case DataTarget => v.DataV?
    case Record(name, fields) => v.RecordV? && v.name == name && FieldsConform(v.fields, t, |fields|)
    case ArrayOf(e) => v.ArrayV? && forall i :: 0 <= i < |v.elems| ==> HasType(v.elems[i], e)
    case SilentTarget(name) => v.SilentV? && v.name == name
  }

  /** `vs` holds, in order, values for the first `n` declared fields of
      record target `t`. */
  predicate FieldsConform(vs: seq<FieldValue>, t: Target, n: nat)
    requires t.Record? && n <= |t.fields|
    decreases t, 0
  {
    |vs| == n && forall i :: 0 <= i < n ==> vs[i].key == t.fields[i].key && HasType(vs[i].value, t.fields[i].target)
  }
}
