/** The keyed decoding container's non-recursive operations: `contains`,
    `decodeNil`, the nested containers and the super decoders, together with
    its two key-not-found error builders. The typed `decode` re-enters the
    engine and lives in `DecodeEngine`. */
module KeyedDecoding {
  import opened Wrappers
  import opened Values
  import opened Errors
  import opened Targets
  import opened Coercions
  import opened Decoding

  /** `buildKeyNotFoundError(key:type:debugDescription:)`: the decoder's live
      path (not the container's) and a `keyNotFound(type)` reason. */
  function KeyNotFoundHere(d: Decoder, key: CodingKey, ty: TypeTag): (e: DecodingError)
    ensures e.KeyNotFoundError? && e.key == key && e.context.codingPath == d.codingPath
    ensures e.context.underlyingError == Reason(KeyNotFound(ty))
  {
    KeyNotFoundError(key, ReasonContext(d.codingPath, "No value associated with key.", KeyNotFound(ty)))
  }

  /** `buildKeyNotFoundDecodingNilError(key:debugDescription:)`: no reason. */
  function KeyNotFoundForNil(d: Decoder, key: CodingKey): (e: DecodingError)
    ensures e.KeyNotFoundError? && e.key == key && e.context.codingPath == d.codingPath
    ensures e.context.underlyingError.NoUnderlying?
  {
    KeyNotFoundError(key, PathContext(d.codingPath, "No value associated with key."))
  }

  /** `contains(_:)`: an entry exists, even a null one. */
  function Contains(c: KeyedContainer, key: string): (b: bool)
    ensures b <==> key in c.entries
  {
    key in c.entries
  }

  /** `decodeNil(forKey:)`: a missing key is `keyNotFound` with no reason; a
      present one answers whether its entry is null. */
  function DecodeNil(c: KeyedContainer, key: string, d: Decoder): (r: Result<bool, DecodingError>)
    ensures key !in c.entries ==> r == Failure(KeyNotFoundForNil(d, NamedKey(key)))
    ensures key in c.entries ==> r == Success(c.entries[key].Null?)
  {
    if key in c.entries then Success(c.entries[key].Null?) else Failure(KeyNotFoundForNil(d, NamedKey(key)))
  }

  /** `nestedContainer(keyedBy:forKey:)`. The key is on the decoder path while
      the lookup runs: a missing key is `keyNotFound` at path+key; a non-map
      value (null included) is a type mismatch at the container's own path; a
      map gives a keyed container at path+key. The decoder path is restored
      afterwards. */
  function NestedKeyedContainer(c: KeyedContainer, nestedKeys: string, key: string, d: Decoder): (s: Step<KeyedContainer>)
    ensures s.decoder == d
    ensures key !in c.entries ==>
      s.result == Failure(KeyNotFoundHere(Enter(d, NamedKey(key)), NamedKey(key), CodingKeysType(nestedKeys)))
    ensures key in c.entries && !c.entries[key].Dict? ==>
      s.result == Failure(Mismatch(DictionaryType, c.codingPath))
    ensures key in c.entries && c.entries[key].Dict? ==>
      s.result == Success(KeyedContainer(nestedKeys, c.entries[key].entries, d.codingPath + [NamedKey(key)]))
  {
    var inner := Enter(d, NamedKey(key));
    EnterLeave(d, NamedKey(key));
    var r :=
      if key !in c.entries then Failure(KeyNotFoundHere(inner, NamedKey(key), CodingKeysType(nestedKeys)))
      else if !c.entries[key].Dict? then Failure(Mismatch(DictionaryType, c.codingPath))
      else Success(KeyedContainer(nestedKeys, c.entries[key].entries, inner.codingPath));
    Step(r, Leave(inner))
  }

  /** `nestedUnkeyedContainer(forKey:)`. As above; the missing-key reason names
      the outer keyed container type, as the source does. */
  function NestedUnkeyedContainer(c: KeyedContainer, key: string, d: Decoder): (s: Step<UnkeyedContainer>)
    ensures s.decoder == d
    ensures key !in c.entries ==>
      s.result == Failure(KeyNotFoundHere(Enter(d, NamedKey(key)), NamedKey(key), KeyedContainerType(c.keys)))
    ensures key in c.entries && !c.entries[key].Array? ==>
      s.result == Failure(Mismatch(AnyArrayType, c.codingPath))
    ensures key in c.entries && c.entries[key].Array? ==>
      s.result == Success(UnkeyedContainer(c.entries[key].elems, d.codingPath + [NamedKey(key)], 0))
  {
    var inner := Enter(d, NamedKey(key));
    EnterLeave(d, NamedKey(key));
    var r :=
      if key !in c.entries then Failure(KeyNotFoundHere(inner, NamedKey(key), KeyedContainerType(c.keys)))
      else if !c.entries[key].Array? then Failure(Mismatch(AnyArrayType, c.codingPath))
      else Success(UnkeyedContainer(c.entries[key].elems, inner.codingPath, 0));
    Step(r, Leave(inner))
  }

  /** `_superDecoder(forKey:)`: a fresh decoder over the entry (null when
      missing) at path+key, sharing the options. Never fails. */
  function SuperDecoderAt(c: KeyedContainer, key: CodingKey, lookup: string, d: Decoder): (s: Step<Decoder>)
    ensures s.decoder == d
    ensures s.result.Success?
    ensures s.result.value.storage.containers == [if lookup in c.entries then c.entries[lookup] else Null]
    ensures s.result.value.codingPath == d.codingPath + [key]
    ensures s.result.value.options == d.options
  {
    var inner := Enter(d, key);
    EnterLeave(d, key);
    var value := if lookup in c.entries then c.entries[lookup] else Null;
    Step(Success(NewDecoder(value, inner.codingPath, inner.options)), Leave(inner))
  }

  /** `superDecoder()`: the reserved super key. */
  function SuperDecoder(c: KeyedContainer, d: Decoder): (s: Step<Decoder>)
    ensures s.decoder == d && s.result.Success?
    ensures s.result.value.storage.containers == [if SuperKeyName in c.entries then c.entries[SuperKeyName] else Null]
    ensures s.result.value.codingPath == d.codingPath + [SuperKey]
  {
    SuperDecoderAt(c, SuperKey, SuperKeyName, d)
  }

  /** `superDecoder(forKey:)`. */
  function SuperDecoderForKey(c: KeyedContainer, key: string, d: Decoder): (s: Step<Decoder>)
    ensures s.decoder == d && s.result.Success?
    ensures key !in c.entries ==> s.result.value.storage.containers == [Null]
    ensures key in c.entries ==> s.result.value.storage.containers == [c.entries[key]]
    ensures s.result.value.codingPath == d.codingPath + [NamedKey(key)]
  {
    SuperDecoderAt(c, NamedKey(key), key, d)
  }
}
