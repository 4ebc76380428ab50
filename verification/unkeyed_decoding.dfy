/** The unkeyed decoding container's non-recursive operations: `decodeNil`,
    the concrete per-primitive `decode` overloads, the nested containers and
    `superDecoder()`. The container is a value type with a cursor, so each
    operation returns the container after it as well as the decoder. */
module UnkeyedDecoding {
  import opened Wrappers
  import opened Values
  import opened Errors
  import opened Targets
  import opened Coercions
  import opened Decoding

  /** A call on an unkeyed container: outcome, container and decoder after it. */
  datatype UStep<T> = UStep(result: Result<T, DecodingError>, container: UnkeyedContainer, decoder: Decoder)

  /** The container with its cursor moved one element on. */
  function Advance(c: UnkeyedContainer): (a: UnkeyedContainer)
    ensures a.elements == c.elements && a.codingPath == c.codingPath
    ensures a.currentIndex == c.currentIndex + 1
  {
    c.(currentIndex := c.currentIndex + 1)
  }

  /** `buildValueNotFoundError(codingPath:type:debugDescription:)`. */
  function NotFoundAt(path: seq<CodingKey>, ty: TypeTag): (e: DecodingError)
    ensures e.ValueNotFoundError? && e.ty == ty
    ensures e.context.codingPath == path && e.context.underlyingError.NoUnderlying?
  {
    ValueNotFoundError(ty, PathContext(path, "Unkeyed container is at end."))
  }

  /** The path segment of the element under the cursor. */
  function Here(c: UnkeyedContainer): CodingKey
  {
    IndexKey(c.currentIndex)
  }

  /** `decodeNil()`: at the end, `valueNotFound` at path+index; a null element
      gives true and advances; any other element gives false and stays. */
  function DecodeNil(c: UnkeyedContainer, d: Decoder): (s: UStep<bool>)
    ensures s.decoder == d
    ensures c.IsAtEnd() ==> s.result == Failure(NotFoundAt(d.codingPath + [Here(c)], OptionalAnyType)) && s.container == c
    ensures !c.IsAtEnd() && c.elements[c.currentIndex].Null? ==> s.result == Success(true) && s.container == Advance(c)
    ensures !c.IsAtEnd() && !c.elements[c.currentIndex].Null? ==> s.result == Success(false) && s.container == c
  {
    if c.IsAtEnd() then UStep(Failure(NotFoundAt(d.codingPath + [Here(c)], OptionalAnyType)), c, d)
    else if c.elements[c.currentIndex].Null? then UStep(Success(true), Advance(c), d)
    else UStep(Success(false), c, d)
  }

  /** The concrete `decode(_:)` overloads for the primitives. At the end:
      `valueNotFound` at path+index. Otherwise the index is on the decoder path
      while the element is unboxed and is removed on every exit; a failure or a
      null element leaves the cursor in place, and for a null element the
      index appears twice in the error path; success advances by one. */
  function DecodePrim(c: UnkeyedContainer, p: Prim, d: Decoder): (s: UStep<Typed>)
    ensures s.decoder == d
    ensures s.result.Success? <==> s.container == Advance(c)
    ensures s.result.Failure? ==> s.container == c
    ensures c.IsAtEnd() ==> s.result == Failure(NotFoundAt(d.codingPath + [Here(c)], PrimType(p)))
    ensures !c.IsAtEnd() ==>
      var elementPath := d.codingPath + [Here(c)];
      match UnboxPrim(c.elements[c.currentIndex], p, d.options.nonConformingFloatDecodingStrategy, elementPath)
      case Failure(e) => s.result == Failure(e)
      case Success(None) => s.result == Failure(NotFoundAt(elementPath + [Here(c)], PrimType(p)))
      case Success(Some(x)) => s.result == Success(x)
    ensures s.result.Success? ==> HasType(s.result.value, Prim(p))
  {
    if c.IsAtEnd() then UStep(Failure(NotFoundAt(d.codingPath + [Here(c)], PrimType(p))), c, d)
    else
      var inner := Enter(d, Here(c));
      EnterLeave(d, Here(c));
      match UnboxPrim(c.elements[c.currentIndex], p, inner.options.nonConformingFloatDecodingStrategy, inner.codingPath)
      case Failure(e) => UStep(Failure(e), c, Leave(inner))
      case Success(None) => UStep(Failure(NotFoundAt(inner.codingPath + [Here(c)], PrimType(p))), c, Leave(inner))
      case Success(Some(x)) => UStep(Success(x), Advance(c), Leave(inner))
  }

  /** `nestedContainer(keyedBy:)`: at the end or on a null element,
      `valueNotFound` at the container's own path; a non-map element is a type
      mismatch there; a map advances the cursor by one and gives a keyed
      container at decoder path+index. */
  function NestedKeyedContainer(c: UnkeyedContainer, keys: string, d: Decoder): (s: UStep<KeyedContainer>)
    ensures s.decoder == d
    ensures s.result.Success? <==> s.container == Advance(c)
    ensures s.result.Failure? ==> s.container == c
    ensures c.IsAtEnd() || c.elements[c.currentIndex].Null? ==>
      s.result == Failure(NotFoundAt(c.codingPath, KeyedContainerType(keys)))
    ensures !c.IsAtEnd() && !c.elements[c.currentIndex].Null? && !c.elements[c.currentIndex].Dict? ==>
      s.result == Failure(Mismatch(DictionaryType, c.codingPath))
    ensures !c.IsAtEnd() && c.elements[c.currentIndex].Dict? ==>
      s.result == Success(KeyedContainer(keys, c.elements[c.currentIndex].entries, d.codingPath + [Here(c)]))
  {
    var inner := Enter(d, Here(c));
    EnterLeave(d, Here(c));
    if c.IsAtEnd() || c.elements[c.currentIndex].Null? then
      UStep(Failure(NotFoundAt(c.codingPath, KeyedContainerType(keys))), c, Leave(inner))
    else if !c.elements[c.currentIndex].Dict? then
      UStep(Failure(Mismatch(DictionaryType, c.codingPath)), c, Leave(inner))
    else
      UStep(Success(KeyedContainer(keys, c.elements[c.currentIndex].entries, inner.codingPath)), Advance(c), Leave(inner))
  }

  /** `nestedUnkeyedContainer()`: as above, for an array element. */
  function NestedUnkeyedContainer(c: UnkeyedContainer, d: Decoder): (s: UStep<UnkeyedContainer>)
    ensures s.decoder == d
    ensures s.result.Success? <==> s.container == Advance(c)
    ensures s.result.Failure? ==> s.container == c
    ensures c.IsAtEnd() || c.elements[c.currentIndex].Null? ==>
      s.result == Failure(NotFoundAt(c.codingPath, UnkeyedContainerType))
    ensures !c.IsAtEnd() && !c.elements[c.currentIndex].Null? && !c.elements[c.currentIndex].Array? ==>
      s.result == Failure(Mismatch(AnyArrayType, c.codingPath))
    ensures !c.IsAtEnd() && c.elements[c.currentIndex].Array? ==>
      s.result == Success(UnkeyedContainer(c.elements[c.currentIndex].elems, d.codingPath + [Here(c)], 0))
  {
    var inner := Enter(d, Here(c));
    EnterLeave(d, Here(c));
    if c.IsAtEnd() || c.elements[c.currentIndex].Null? then
      UStep(Failure(NotFoundAt(c.codingPath, UnkeyedContainerType)), c, Leave(inner))
    else if !c.elements[c.currentIndex].Array? then
      UStep(Failure(Mismatch(AnyArrayType, c.codingPath)), c, Leave(inner))
    else
      UStep(Success(UnkeyedContainer(c.elements[c.currentIndex].elems, inner.codingPath, 0)), Advance(c), Leave(inner))
  }

  /** `superDecoder()`: fails only at the end; otherwise advances by one and
      gives a fresh decoder over the element, null included, at path+index. */
  function SuperDecoder(c: UnkeyedContainer, d: Decoder): (s: UStep<Decoder>)
    ensures s.decoder == d
    ensures c.IsAtEnd() <==> s.result.Failure?
    ensures c.IsAtEnd() ==> s.result == Failure(NotFoundAt(c.codingPath, DecoderType)) && s.container == c
    ensures !c.IsAtEnd() ==>
      && s.container == Advance(c)
      && s.result.value == NewDecoder(c.elements[c.currentIndex], d.codingPath + [Here(c)], d.options)
  {
    var inner := Enter(d, Here(c));
    EnterLeave(d, Here(c));
    if c.IsAtEnd() then UStep(Failure(NotFoundAt(c.codingPath, DecoderType)), c, Leave(inner))
    else
      UStep(Success(NewDecoder(c.elements[c.currentIndex], inner.codingPath, inner.options)), Advance(c), Leave(inner))
  }
}
