/** The error model: the typed `ErrorReason` payload attached to decoding
    errors, Swift's `DecodingError` with its context, the projections that
    recover a context and an offending type from an error, and the encoder's
    `invalidValue` errors. */
module Errors {
  import opened Wrappers
  import opened Values

  /** The auxiliary reason a decoding error carries as its underlying error. */
  datatype ErrorReason =
    | KeyNotFound(ty: TypeTag)
    | DataCorrupted(value: Value, ty: TypeTag)
    | ValueNotFound(dictionary: Option<map<string, Value>>)
    | ValueNotFoundInKeyedContainer(ty: TypeTag)
    | TypeMismatch(unexpected: Value)
  {
    /** The offending type, for the reasons that carry one. */
    function Type(): (r: Option<TypeTag>)
      ensures r.None? <==> ValueNotFound? || TypeMismatch?
      ensures r.Some? ==> r.value == ty
    {
      match this
      case KeyNotFound(t) => Some(t)
      case DataCorrupted(_, t) => Some(t)
      case ValueNotFound(_) => None
      case ValueNotFoundInKeyedContainer(t) => Some(t)
      case TypeMismatch(_) => None
    }
  }

  /** The `underlyingError` slot of a context: absent, one of our reasons, or
      some other error. */
  datatype Underlying = NoUnderlying | Reason(reason: ErrorReason) | OtherError(domain: string)

  datatype Context = Context(codingPath: seq<CodingKey>, debugDescription: string, underlyingError: Underlying) {

    /** The offending type recovered from the underlying error, if it is an
        `ErrorReason` that carries one. */
    function Type(): (r: Option<TypeTag>)
      ensures !underlyingError.Reason? ==> r.None?
      ensures underlyingError.Reason? ==> r == underlyingError.reason.Type()
    {
      match underlyingError
      case Reason(e) => e.Type()
      case _ => None
    }
  }

  /** Swift's `DecodingError`; `Unknown` stands for any case added to the
      standard library later (the `@unknown default` branch). */
  datatype DecodingError =
    | TypeMismatchError(ty: TypeTag, context: Context)
    | ValueNotFoundError(ty: TypeTag, context: Context)
    | KeyNotFoundError(key: CodingKey, context: Context)
    | DataCorruptedError(context: Context)
    | Unknown
  {
    /** The context of every known case. */
    function ContextOf(): (r: Option<Context>)
      ensures r.None? <==> Unknown?
      ensures r.Some? ==> r.value == context
    {
      match this
      case TypeMismatchError(_, c) => Some(c)
      case ValueNotFoundError(_, c) => Some(c)
      case KeyNotFoundError(_, c) => Some(c)
      case DataCorruptedError(c) => Some(c)
      case Unknown => None
    }

    predicate HasPath(path: seq<CodingKey>)
    {
      !Unknown? && context.codingPath == path
    }
  }

  /** What was wrong with a top-level encoding result. */
  datatype TopLevelProblem = NothingEncoded | NullFragment | NumberFragment | StringFragment | NotADictionary

  /** Swift's `EncodingError.invalidValue`, in the two forms the encoder raises. */
  datatype EncodingError =
    | InvalidFloatingPoint(value: FloatVal, codingPath: seq<CodingKey>)
    | InvalidTopLevel(problem: TopLevelProblem, codingPath: seq<CodingKey>)

  /** A context whose only payload is the path. */
  function PathContext(path: seq<CodingKey>, description: string): (c: Context)
    ensures c.codingPath == path && c.underlyingError.NoUnderlying?
    ensures c.Type().None?
  {
    Context(path, description, NoUnderlying)
  }

  /** A context carrying an `ErrorReason`. */
  function ReasonContext(path: seq<CodingKey>, description: string, reason: ErrorReason): (c: Context)
    ensures c.codingPath == path && c.underlyingError == Reason(reason)
    ensures c.Type() == reason.Type()
  {
    Context(path, description, Reason(reason))
  }

  /** The offending type is a function of the underlying error alone: neither
      the path nor the description can change it. */
  lemma TypeIgnoresPathAndDescription(c1: Context, c2: Context)
    requires c1.underlyingError == c2.underlyingError
    ensures c1.Type() == c2.Type()
  {
  }
}
