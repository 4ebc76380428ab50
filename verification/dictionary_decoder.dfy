/** The public `DictionaryDecoder`: snapshot the settings, wrap the root map
    in a fresh internal decoder with an empty path, and dispatch on it. */
module DictionaryDecoding {
  import opened Wrappers
  import opened Values
  import opened Errors
  import opened Options
  import opened Targets
  import opened Coercions
  import opened Decoding
  import opened KeyedDecoding
  import opened DecodeEngine
  import opened DecodeFacts

  /** `buildValueNotFoundError(type:dictionary:debugDescription:)`: the empty
      path and a `valueNotFound(dictionary:)` reason holding the input. */
  function NoTopLevelValue(ty: TypeTag, root: map<string, Value>): (e: DecodingError)
    ensures e.ValueNotFoundError? && e.ty == ty && e.context.codingPath == []
    ensures e.context.underlyingError == Reason(ValueNotFound(Some(root)))
  {
    ValueNotFoundError(ty, ReasonContext([], "The given data did not contain a top-level value.", ValueNotFound(Some(root))))
  }

  /** `decode(_:from:)`. */
  function Decode(t: Target, root: map<string, Value>, settings: DecoderSettings): (r: Result<Typed, DecodingError>)
    ensures r.Success? ==> HasType(r.value, t)
    ensures
      var d := NewDecoder(Dict(root), [], DecodeSnapshot(settings));
      match Unbox(Dict(root), t, d).result
      case Success(o) => o.Some? && r == Success(o.value)
      case Failure(e) => r == Failure(e)
  {
    var d := NewDecoder(Dict(root), [], DecodeSnapshot(settings));
    match Unbox(Dict(root), t, d).result
    case Failure(e) => Failure(e)
    case Success(None) => Failure(NoTopLevelValue(TargetType(t), root))
    case Success(Some(x)) => Success(x)
  }

  /** The root is a map, never null and never a string, so the dispatcher
      never answers "absent" for it: the top-level `valueNotFound` branch is
      unreachable. */
  lemma RootNeverAbsent(t: Target, root: map<string, Value>, settings: DecoderSettings)
    ensures Unbox(Dict(root), t, NewDecoder(Dict(root), [], DecodeSnapshot(settings))).result != Success(None)
  {
  }

  /** A record target whose field is missing from the root, under the default
      settings: `keyNotFound` for that key at the empty path. */
  lemma MissingTopLevelKey(name: string, key: string, ft: Target, root: map<string, Value>)
    requires key !in root
    ensures Decode(Record(name, [Field(key, ft)]), root, DefaultDecoderSettings())
         == Failure(KeyNotFoundHere(NewDecoder(Dict(root), [], DecodeSnapshot(DefaultDecoderSettings())), NamedKey(key), TargetType(ft)))
  {
    var t := Record(name, [Field(key, ft)]);
    var d := NewDecoder(Dict(root), [], DecodeSnapshot(DefaultDecoderSettings()));
    var inner := PushNode(d, Dict(root));
    var c := KeyedContainer(name, root, []);
    assert KeyedContainerOf(inner, name) == Success(c);
    var e := KeyNotFoundHere(inner, NamedKey(key), TargetType(ft));
    OnlyFieldMissing(t, c, inner);
    assert Init(t, inner).result == Failure(e);
    assert Unbox(Dict(root), t, d).result == Failure(e);
  }

  /** A record with one field that the container lacks fails on that field
      with `keyNotFound` when the strategy is to throw. */
  lemma OnlyFieldMissing(t: Target, c: KeyedContainer, d: Decoder)
    requires t.Record? && |t.fields| == 1 && t.fields[0].key !in c.entries
    requires d.options.missingValueDecodingStrategy.ThrowOnMissing?
    ensures DecodeFields(t, 0, c, d, []).result == Failure(KeyNotFoundHere(d, NamedKey(t.fields[0].key), TargetType(t.fields[0].target)))
  {
    var f := t.fields[0];
    assert KeyedDecode(c, f.key, f.target, d).result == Failure(KeyNotFoundHere(d, NamedKey(f.key), TargetType(f.target)));
  }
}
