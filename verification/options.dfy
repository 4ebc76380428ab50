/** The configuration a top-level decoder or encoder snapshots and threads,
    unchanged, through every nested decoder and encoder. */
module Options {
  import opened Values
  import opened Errors
  import opened Targets

  /** How the decoder reads infinity and NaN. */
  datatype NonConformingFloatDecodingStrategy =
    | ThrowOnNonConforming
    | ConvertFromString(positiveInfinity: string, negativeInfinity: string, nan: string)

  /** How the encoder writes infinity and NaN. */
  datatype NonConformingFloatEncodingStrategy =
    | ThrowOnNonFinite
    | ConvertToString(positiveInfinity: string, negativeInfinity: string, nan: string)

  /** What the default-value provider does when asked for a type: return a
      value (which may or may not be of that type), return something that is
      no typed value at all, or throw. */
  datatype Provided = Gives(value: Typed) | GivesOther | Throws(error: DecodingError)

  /** How the keyed container treats a missing key. The provider, a Swift
      closure `(Any.Type) throws -> Any`, is a finite table; types it does not
      list get `GivesOther`. */
  datatype MissingValueDecodingStrategy =
    | ThrowOnMissing
    | UseDefault(defaults: map<TypeTag, Provided>)

  /** Calling the provider with the requested type. */
  function Provide(defaults: map<TypeTag, Provided>, ty: TypeTag): (p: Provided)
    ensures ty !in defaults ==> p.GivesOther?
    ensures ty in defaults ==> p == defaults[ty]
  {
    if ty in defaults then defaults[ty] else GivesOther
  }

  /** Opaque user information; the engine never looks inside it. */
  type UserInfo = map<string, string>

  /** The mutable settings of a `DictionaryDecoder`. */
  datatype DecoderSettings = DecoderSettings(
    missingValueDecodingStrategy: MissingValueDecodingStrategy,
    nonConformingFloatDecodingStrategy: NonConformingFloatDecodingStrategy,
    userInfo: UserInfo)

  /** The options snapshot handed to the internal decoder. */
  datatype DecodeOptions = DecodeOptions(
    missingValueDecodingStrategy: MissingValueDecodingStrategy,
    nonConformingFloatDecodingStrategy: NonConformingFloatDecodingStrategy,
    userInfo: UserInfo)

  /** A freshly initialised `DictionaryDecoder`. */
  function DefaultDecoderSettings(): (s: DecoderSettings)
    ensures s.missingValueDecodingStrategy.ThrowOnMissing?
    ensures s.nonConformingFloatDecodingStrategy.ThrowOnNonConforming?
    ensures |s.userInfo| == 0
  {
    DecoderSettings(ThrowOnMissing, ThrowOnNonConforming, map[])
  }

  /** The `options` property: a snapshot of the current settings. */
  function DecodeSnapshot(s: DecoderSettings): (o: DecodeOptions)
    ensures o.missingValueDecodingStrategy == s.missingValueDecodingStrategy
    ensures o.nonConformingFloatDecodingStrategy == s.nonConformingFloatDecodingStrategy
    ensures o.userInfo == s.userInfo
  {
    DecodeOptions(s.missingValueDecodingStrategy, s.nonConformingFloatDecodingStrategy, s.userInfo)
  }

  /** The mutable settings of a `DictionaryEncoder`. */
  datatype EncoderSettings = EncoderSettings(
    nonConformingFloatEncodingStrategy: NonConformingFloatEncodingStrategy,
    userInfo: UserInfo)

  datatype EncodeOptions = EncodeOptions(
    nonConformingFloatEncodingStrategy: NonConformingFloatEncodingStrategy,
    userInfo: UserInfo)

  function DefaultEncoderSettings(): (s: EncoderSettings)
    ensures s.nonConformingFloatEncodingStrategy.ThrowOnNonFinite?
    ensures |s.userInfo| == 0
  {
    EncoderSettings(ThrowOnNonFinite, map[])
  }

  function EncodeSnapshot(s: EncoderSettings): (o: EncodeOptions)
    ensures o.nonConformingFloatEncodingStrategy == s.nonConformingFloatEncodingStrategy
    ensures o.userInfo == s.userInfo
  {
    EncodeOptions(s.nonConformingFloatEncodingStrategy, s.userInfo)
  }
}
