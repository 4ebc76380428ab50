/** The public `DictionaryEncoder`: box the top-level value on a fresh
    internal encoder and hand back the map it produced, rejecting a value
    that produced nothing, null, a number or a string. */
module DictionaryEncoding {
  import opened Wrappers
  import opened Values
  import opened Errors
  import opened Options
  import opened Targets
  import opened EncodingStorage
  import opened EncodedTrees
  import opened EncodedForm
  import opened Encoding
  import opened EncodeEngine

  /** What a call of `encode(_:)` ends in: the dictionary, a thrown error,
      or a runtime trap. */
  datatype Outcome = Returned(dictionary: map<string, Value>) | Thrown(error: EncodingError) | Trapped

  function TopLevelError(problem: TopLevelProblem): EncodingError
  {
    InvalidTopLevel(problem, [])
  }

  /** The checks applied to the boxed top-level tree, in the source's order:
      null, then any number, then a string; a map is returned. Anything else
      reaches the forced cast to a dictionary, which traps as written
      (`trapOnOther`) and is reported as `NotADictionary` otherwise. */
  function Settle(top: Value, trapOnOther: bool): (o: Outcome)
    ensures o.Returned? <==> top.Dict?
    ensures o.Returned? ==> o.dictionary == top.entries
    ensures o.Trapped? <==> trapOnOther && (top.Array? || top.Url? || top.Uuid?)
    ensures o.Thrown? ==> o.error.InvalidTopLevel? && o.error.codingPath == []
    ensures top.Null? ==> o == Thrown(TopLevelError(NullFragment))
    ensures top.IsNumber() ==> o == Thrown(TopLevelError(NumberFragment))
    ensures top.Str? ==> o == Thrown(TopLevelError(StringFragment))
    ensures !trapOnOther && !top.Null? && !top.IsNumber() && !top.Str? && !top.Dict? ==>
      o == Thrown(TopLevelError(NotADictionary))
  {
    if top.Null? then Thrown(TopLevelError(NullFragment))
    else if top.IsNumber() then Thrown(TopLevelError(NumberFragment))
    else if top.Str? then Thrown(TopLevelError(StringFragment))
    else if top.Dict? then Returned(top.entries)
    else if trapOnOther then Trapped
    else Thrown(TopLevelError(NotADictionary))
  }

  /** Box the value on a fresh encoder and settle the tree it produced. */
  function TopLevel(v: Typed, settings: EncoderSettings, trapOnOther: bool): (o: Outcome)
    ensures o.Trapped? ==> trapOnOther
    ensures o.Thrown? && o.error.InvalidTopLevel? ==> o.error.codingPath == []
    ensures o.Thrown? ==> o.error.InvalidTopLevel? || o.error.InvalidFloatingPoint?
  {
    var e := NewEncoder(EncodeSnapshot(settings));
    var b := BoxOrNothing(v, e, EmptyHeap());
    match b.result
    case Failure(err) => Thrown(err)
    case Success(None) => Thrown(TopLevelError(NothingEncoded))
    case Success(Some(it)) => Settle(ResolveItem(b.heap, it), trapOnOther)
  }

  /** `encode(_:)` (both the `NSDictionary` and the `[String: Any]`
      overloads) as written: an array at the top passes every check and
      traps on the cast. */
  function EncodeAsWritten(v: Typed, settings: EncoderSettings): (o: Outcome)
    ensures v.ArrayV? && Encodable(v, settings.nonConformingFloatEncodingStrategy) ==> o.Trapped?
  {
    TopLevelSpec(v, settings, true);
    TopLevel(v, settings, true)
  }

  /** `encode(_:)` with the cast made checked: a top-level value that is not
      a map is rejected with an error, like the other fragments. */
  function Encode(v: Typed, settings: EncoderSettings): (o: Outcome)
    ensures !o.Trapped?
  {
    TopLevelSpec(v, settings, false);
    TopLevel(v, settings, false)
  }

  /** The outcome of a top-level encode in terms of the value alone: the
      float error when something does not conform, "nothing encoded" for a
      silent value, otherwise the checks applied to the value's tree. */
  lemma TopLevelSpec(v: Typed, settings: EncoderSettings, trapOnOther: bool)
    ensures
      var s := settings.nonConformingFloatEncodingStrategy;
      var o := TopLevel(v, settings, trapOnOther);
      && (!Encodable(v, s) <==> o.Thrown? && o.error.InvalidFloatingPoint?)
      && (!Encodable(v, s) ==> !Conforms(o.error.value, s))
      && (Encodable(v, s) && v.SilentV? ==> o == Thrown(TopLevelError(NothingEncoded)))
      && (Encodable(v, s) && !v.SilentV? ==> o == Settle(TreeOf(v, s), trapOnOther))
  {
    var s := settings.nonConformingFloatEncodingStrategy;
    if Encodable(v, s) {
      TopLevelEncodable(v, settings, trapOnOther);
    } else {
      TopLevelNotEncodable(v, settings, trapOnOther);
    }
  }

  /** A value that does not conform throws the float error from boxing. */
  lemma TopLevelNotEncodable(v: Typed, settings: EncoderSettings, trapOnOther: bool)
    requires !Encodable(v, settings.nonConformingFloatEncodingStrategy)
    ensures
      var o := TopLevel(v, settings, trapOnOther);
      o.Thrown? && o.error.InvalidFloatingPoint? && !Conforms(o.error.value, settings.nonConformingFloatEncodingStrategy)
  {
    var e := NewEncoder(EncodeSnapshot(settings));
    assert e.Strategy() == settings.nonConformingFloatEncodingStrategy;
    var b := BoxOrNothing(v, e, EmptyHeap());
    assert Boxed(v, e, EmptyHeap(), b);
    assert b.result.Failure? && FloatErrorBelow(b.result.error, e);
  }

  /** A value that conforms is settled by its tree, or writes nothing. */
  lemma TopLevelEncodable(v: Typed, settings: EncoderSettings, trapOnOther: bool)
    requires Encodable(v, settings.nonConformingFloatEncodingStrategy)
    ensures
      var o := TopLevel(v, settings, trapOnOther);
      && (v.SilentV? ==> o == Thrown(TopLevelError(NothingEncoded)))
      && (!v.SilentV? ==> o == Settle(TreeOf(v, settings.nonConformingFloatEncodingStrategy), trapOnOther))
      && !(o.Thrown? && o.error.InvalidFloatingPoint?)
  {
    var e := NewEncoder(EncodeSnapshot(settings));
    assert e.Strategy() == settings.nonConformingFloatEncodingStrategy;
    var b := BoxOrNothing(v, e, EmptyHeap());
    assert Boxed(v, e, EmptyHeap(), b);
    assert b.result.Success?;
  }

  /** An encodable record encodes to the map of its fields (a later field
      with the same key overriding an earlier one). */
  lemma RecordEncodesToFields(v: Typed, settings: EncoderSettings)
    requires v.RecordV? && Encodable(v, settings.nonConformingFloatEncodingStrategy)
    ensures Encode(v, settings) == Returned(FieldsTree(v, |v.fields|, settings.nonConformingFloatEncodingStrategy))
    ensures EncodeAsWritten(v, settings) == Encode(v, settings)
  {
    TopLevelSpec(v, settings, false);
    TopLevelSpec(v, settings, true);
  }

  /** Only records produce a dictionary. */
  lemma OnlyRecordsReturn(v: Typed, settings: EncoderSettings)
    ensures Encode(v, settings).Returned? <==> v.RecordV? && Encodable(v, settings.nonConformingFloatEncodingStrategy)
  {
    TopLevelSpec(v, settings, false);
    var s := settings.nonConformingFloatEncodingStrategy;
    if Encodable(v, s) && !v.SilentV? {
      TreeIsDict(v, s);
    }
  }

  /** Among the values that write something, only a record's tree is a map. */
  lemma TreeIsDict(v: Typed, s: NonConformingFloatEncodingStrategy)
    requires !v.SilentV?
    ensures TreeOf(v, s).Dict? <==> v.RecordV?
  {
  }

  /** The two versions differ exactly where the corrected one reports a
      non-dictionary value: there the original traps. */
  lemma AsWrittenDiffersOnlyByTrap(v: Typed, settings: EncoderSettings)
    ensures EncodeAsWritten(v, settings) ==
      if Encode(v, settings) == Thrown(TopLevelError(NotADictionary)) then Trapped else Encode(v, settings)
  {
    var s := settings.nonConformingFloatEncodingStrategy;
    TopLevelSpec(v, settings, false);
    TopLevelSpec(v, settings, true);
    if Encodable(v, s) && !v.SilentV? {
      SettleTrapOnly(TreeOf(v, s));
    }
  }

  /** Settling with and without the trap differs only for a non-map. */
  lemma SettleTrapOnly(top: Value)
    ensures Settle(top, true) ==
      if Settle(top, false) == Thrown(TopLevelError(NotADictionary)) then Trapped else Settle(top, false)
  {
  }

  /** An empty array under the default settings traps as written and is
      rejected with `NotADictionary` once corrected. */
  lemma EmptyArrayAtTopLevel()
    ensures EncodeAsWritten(ArrayV([]), DefaultEncoderSettings()) == Trapped
    ensures Encode(ArrayV([]), DefaultEncoderSettings()) == Thrown(TopLevelError(NotADictionary))
  {
    var settings := DefaultEncoderSettings();
    var s := settings.nonConformingFloatEncodingStrategy;
    assert Encodable(ArrayV([]), s);
    assert TreeOf(ArrayV([]), s).Array?;
    TopLevelEncodable(ArrayV([]), settings, false);
  }
}
