/** The internal decoder (`_DictionaryDecoder`): a container stack, a coding
    path and the options snapshot, threaded through every decoding call as an
    explicit state. This module holds the state, its initialiser, the
    container selection (`container(keyedBy:)`, `unkeyedContainer()`,
    `singleValueContainer()`) and the error builders. */
module Decoding {
  import opened Wrappers
  import opened Values
  import opened Errors
  import opened Options
  import opened Targets
  import opened DecodingStorage
  import opened Coercions

  datatype Decoder = Decoder(storage: Storage, codingPath: seq<CodingKey>, options: DecodeOptions)

  /** A call on the decoder: its outcome and the decoder state after it. */
  datatype Step<T> = Step(result: Result<T, DecodingError>, decoder: Decoder)

  /** A keyed container: the wrapped map, the name of its key type, and the
      decoder path at the moment it was created. */
  datatype KeyedContainer = KeyedContainer(keys: string, entries: map<string, Value>, codingPath: seq<CodingKey>)

  /** An unkeyed container with its cursor. */
  datatype UnkeyedContainer = UnkeyedContainer(elements: seq<Value>, codingPath: seq<CodingKey>, currentIndex: nat) {
    function Count(): nat
    {
      |elements|
    }

    predicate IsAtEnd(): (b: bool)
      ensures !b ==> currentIndex < |elements|
      ensures b ==> currentIndex >= |elements|
    {
      currentIndex >= Count()
    }
  }

  /** `init(referencing:at:options:)`: a stack holding exactly the given
      node, at the given path (empty for a top-level decoder). */
  function NewDecoder(container: Value, codingPath: seq<CodingKey>, options: DecodeOptions): (d: Decoder)
    ensures d.storage.containers == [container]
    ensures d.codingPath == codingPath && d.options == options
  {
    Decoder(Empty().Push(container), codingPath, options)
  }

  /** The decoder with `key` appended to its path. */
  function Enter(d: Decoder, key: CodingKey): (e: Decoder)
    ensures e.storage == d.storage && e.options == d.options
    ensures e.codingPath == d.codingPath + [key]
  {
    d.(codingPath := d.codingPath + [key])
  }

  /** `codingPath.removeLast()`, which traps on an empty path. */
  function Leave(d: Decoder): (e: Decoder)
    requires |d.codingPath| > 0
    ensures e.storage == d.storage && e.options == d.options
    ensures e.codingPath == d.codingPath[..|d.codingPath| - 1]
  {
    d.(codingPath := d.codingPath[..|d.codingPath| - 1])
  }

  lemma EnterLeave(d: Decoder, key: CodingKey)
    ensures Leave(Enter(d, key)) == d
  {
    assert (d.codingPath + [key])[..|d.codingPath|] == d.codingPath;
  }

  // ---------------------------------------------------------------- error builders

  /** `buildValueNotFoundError(type:debugDescription:)`: the current path, no reason. */
  function ValueNotFoundHere(d: Decoder, ty: TypeTag): (e: DecodingError)
    ensures e.ValueNotFoundError? && e.ty == ty
    ensures e.context.codingPath == d.codingPath && e.context.underlyingError.NoUnderlying?
  {
    ValueNotFoundError(ty, PathContext(d.codingPath, "Value not found."))
  }

  /** `buildValueNotFoundInKeyedContainerError(type:debugDescription:)`. */
  function NullForKeyedContainer(d: Decoder, keys: string): (e: DecodingError)
    ensures e.ValueNotFoundError? && e.ty == KeyedContainerType(keys)
    ensures e.context.codingPath == d.codingPath
    ensures e.context.underlyingError == Reason(ValueNotFoundInKeyedContainer(CodingKeysType(keys)))
  {
    ValueNotFoundError(KeyedContainerType(keys),
      ReasonContext(d.codingPath, "Cannot get keyed decoding container -- found null value instead.",
                    ValueNotFoundInKeyedContainer(CodingKeysType(keys))))
  }

  /** `buildValueNotFoundInUnkeyedContainerError(debugDescription:)`. */
  function NullForUnkeyedContainer(d: Decoder): (e: DecodingError)
    ensures e.ValueNotFoundError? && e.ty == UnkeyedContainerType
    ensures e.context.codingPath == d.codingPath && e.context.underlyingError.NoUnderlying?
  {
    ValueNotFoundError(UnkeyedContainerType,
      PathContext(d.codingPath, "Cannot get unkeyed decoding container -- found null value instead."))
  }

  // ---------------------------------------------------------------- container selection

  /** `container(keyedBy:)` over the active node. Selection returns no new
      decoder state, so the stack and the path are untouched. */
  function KeyedContainerOf(d: Decoder, keys: string): (r: Result<KeyedContainer, DecodingError>)
    requires d.storage.Count() > 0
    ensures d.storage.Top().Null? ==> r == Failure(NullForKeyedContainer(d, keys))
    ensures d.storage.Top().Dict? ==> r == Success(KeyedContainer(keys, d.storage.Top().entries, d.codingPath))
    ensures !d.storage.Top().Null? && !d.storage.Top().Dict? ==> r == Failure(Mismatch(DictionaryType, d.codingPath))
  {
    match d.storage.Top()
    case Null => Failure(NullForKeyedContainer(d, keys))
    case Dict(m) => Success(KeyedContainer(keys, m, d.codingPath))
    case _ => Failure(Mismatch(DictionaryType, d.codingPath))
  }

  /** `unkeyedContainer()` over the active node; the cursor starts at 0. */
  function UnkeyedContainerOf(d: Decoder): (r: Result<UnkeyedContainer, DecodingError>)
    requires d.storage.Count() > 0
    ensures d.storage.Top().Null? ==> r == Failure(NullForUnkeyedContainer(d))
    ensures d.storage.Top().Array? ==> r == Success(UnkeyedContainer(d.storage.Top().elems, d.codingPath, 0))
    ensures !d.storage.Top().Null? && !d.storage.Top().Array? ==> r == Failure(Mismatch(AnyArrayType, d.codingPath))
  {
    match d.storage.Top()
    case Null => Failure(NullForUnkeyedContainer(d))
    case Array(xs) => Success(UnkeyedContainer(xs, d.codingPath, 0))
    case _ => Failure(Mismatch(AnyArrayType, d.codingPath))
  }

  /** `singleValueContainer()` returns the decoder itself; decoding primitive
      `p` through it reads the active node. A null node is `valueNotFound` at
      the current path; anything else goes through the overload for `p`. */
  function SingleValueDecode(d: Decoder, p: Prim): (r: Result<Typed, DecodingError>)
    requires d.storage.Count() > 0
    ensures d.storage.Top().Null? ==> r == Failure(ValueNotFoundHere(d, PrimType(p)))
    ensures !d.storage.Top().Null? ==>
      match UnboxPrim(d.storage.Top(), p, d.options.nonConformingFloatDecodingStrategy, d.codingPath)
      case Success(o) => o.Some? && r == Success(o.value)
      case Failure(e) => r == Failure(e)
    ensures r.Success? ==> HasType(r.value, Prim(p))
  {
    var top := d.storage.Top();
    if top.Null? then Failure(ValueNotFoundHere(d, PrimType(p)))
    else
      match UnboxPrim(top, p, d.options.nonConformingFloatDecodingStrategy, d.codingPath)
      case Failure(e) => Failure(e)
      case Success(o) => if o.Some? then Success(o.value) else Failure(ValueNotFoundHere(d, PrimType(p)))
  }
}
