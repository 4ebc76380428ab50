/** What the dispatcher does with each kind of target, and how the keyed and
    unkeyed containers' answers follow from it. */
module DecodeFacts {
  import opened Wrappers
  import opened Values
  import opened Errors
  import opened Targets
  import opened Coercions
  import opened Decoding
  import opened KeyedDecoding
  import opened UnkeyedDecoding
  import opened DecodeEngine

  /** A primitive reached through the dispatcher meets the single-value
      container: a null is `valueNotFound` at the current path, and anything
      else is coerced exactly as the primitive's own overload does. */
  lemma PrimViaDispatcher(v: Value, p: Prim, d: Decoder)
    ensures v.Null? ==> Unbox(v, Prim(p), d).result == Failure(ValueNotFoundHere(d, PrimType(p)))
    ensures !v.Null? ==>
      match UnboxPrim(v, p, d.options.nonConformingFloatDecodingStrategy, d.codingPath)
      case Success(o) => o.Some? && Unbox(v, Prim(p), d).result == Success(o)
      case Failure(e) => Unbox(v, Prim(p), d).result == Failure(e)
  {
    var inner := PushNode(d, v);
    assert Init(Prim(p), inner).result == SingleValueDecode(inner, p);
  }

  /** A UUID target is answered by its coercion rule directly, with no node
      pushed. */
  lemma UuidViaCoercions(v: Value, d: Decoder)
    ensures
      match UnboxUuid(v, d.codingPath)
      case Success(o) => Unbox(v, UuidTarget, d).result == Success(if o.Some? then Some(UuidV(o.value)) else None)
      case Failure(e) => Unbox(v, UuidTarget, d).result == Failure(e)
  {
  }

  /** So is a URL target. */
  lemma UrlViaCoercions(v: Value, d: Decoder)
    ensures
      match UnboxUrl(v, d.codingPath)
      case Success(o) => Unbox(v, UrlTarget, d).result == Success(if o.Some? then Some(UrlV(o.value)) else None)
      case Failure(e) => Unbox(v, UrlTarget, d).result == Failure(e)
  {
  }

  /** And a Decimal target, under the decoder's float strategy. */
  lemma DecimalViaCoercions(v: Value, d: Decoder)
    ensures
      match UnboxDecimal(v, d.options.nonConformingFloatDecodingStrategy, d.codingPath)
      case Success(o) => Unbox(v, DecimalTarget, d).result == Success(if o.Some? then Some(DecimalV(o.value)) else None)
      case Failure(e) => Unbox(v, DecimalTarget, d).result == Failure(e)
  {
  }

  /** `Date` decodes a non-null node as a Double through the single-value
      container and wraps the interval. */
  lemma DateViaDouble(v: Value, d: Decoder)
    requires !v.Null?
    ensures
      match UnboxDouble(v, d.options.nonConformingFloatDecodingStrategy, d.codingPath)
      case Success(o) => o.Some? && Unbox(v, DateTarget, d).result == Success(Some(DateV(o.value)))
      case Failure(e) => Unbox(v, DateTarget, d).result == Failure(e)
  {
    var inner := PushNode(d, v);
    assert SingleValueDecode(inner, PDouble).Success? ==> SingleValueDecode(inner, PDouble).value.DoubleV?;
  }

  /** `Data` needs an array node; it succeeds exactly when every element is a
      byte node and then holds their values in order. */
  lemma DataFromBytes(v: Value, d: Decoder)
    requires !v.Null?
    ensures !v.Array? ==> Unbox(v, DataTarget, d).result == Failure(Mismatch(AnyArrayType, d.codingPath))
    ensures v.Array? ==>
      (Unbox(v, DataTarget, d).result.Success? <==> forall k :: 0 <= k < |v.elems| ==> IsByteNode(v.elems[k]))
    ensures v.Array? && Unbox(v, DataTarget, d).result.Success? ==>
      var r := Unbox(v, DataTarget, d).result.value;
      && r.Some? && r.value.DataV?
      && |r.value.bytes| == |v.elems|
      && forall k :: 0 <= k < |v.elems| ==> v.elems[k].DoubleValue() == Finite(r.value.bytes[k] as real)
  {
    var inner := PushNode(d, v);
    if v.Array? {
      var c := UnkeyedContainer(v.elems, d.codingPath, 0);
      assert UnkeyedContainerOf(inner) == Success(c);
      var s := DecodeBytes(c, inner, []);
      assert Init(DataTarget, inner).result.Success? <==> s.result.Success?;
      assert s.result.Success? ==> Init(DataTarget, inner).result == Success(DataV(s.result.value));
    }
  }

  /** A target that runs `init(from:)` does so on the node pushed on the
      decoder, and the dispatcher passes its error through. */
  lemma UnboxRunsInit(v: Value, t: Target, d: Decoder)
    requires !Special(t)
    ensures Init(t, PushNode(d, v)).result.Failure? ==> Unbox(v, t, d).result == Failure(Init(t, PushNode(d, v)).result.error)
  {
  }

  /** A record needs a map node: a null one is `valueNotFound`, any other a
      type mismatch, both at the current path. */
  lemma RecordShape(v: Value, t: Target, d: Decoder)
    requires t.Record?
    ensures v.Null? ==> Unbox(v, t, d).result == Failure(NullForKeyedContainer(d, t.name))
    ensures !v.Null? && !v.Dict? ==> Unbox(v, t, d).result == Failure(Mismatch(DictionaryType, d.codingPath))
  {
    var inner := PushNode(d, v);
    if !v.Dict? {
      assert Init(t, inner).result == Failure(KeyedContainerOf(inner, t.name).error);
      UnboxRunsInit(v, t, d);
    }
  }

  /** An array needs an array node, with the same two errors. */
  lemma ArrayShape(v: Value, t: Target, d: Decoder)
    requires t.ArrayOf?
    ensures v.Null? ==> Unbox(v, t, d).result == Failure(NullForUnkeyedContainer(d))
    ensures !v.Null? && !v.Array? ==> Unbox(v, t, d).result == Failure(Mismatch(AnyArrayType, d.codingPath))
  {
    var inner := PushNode(d, v);
    if !v.Array? {
      assert Init(t, inner).result == Failure(UnkeyedContainerOf(inner).error);
      UnboxRunsInit(v, t, d);
    }
  }

  /** A present null entry: the special-cased types report `keyNotFound`
      ("found null") at the path including the key, while a primitive reaches
      its single-value container and reports `valueNotFound` there. */
  lemma KeyedNullEntry(c: KeyedContainer, key: string, t: Target, d: Decoder)
    requires key in c.entries && c.entries[key].Null?
    ensures Special(t) ==>
      KeyedDecode(c, key, t, d).result == Failure(KeyNotFoundHere(Enter(d, NamedKey(key)), NamedKey(key), TargetType(t)))
    ensures t.Prim? ==>
      KeyedDecode(c, key, t, d).result == Failure(ValueNotFoundHere(Enter(d, NamedKey(key)), PrimType(t.p)))
  {
    if t.Prim? {
      PrimViaDispatcher(Null, t.p, Enter(d, NamedKey(key)));
    }
  }

  /** The unkeyed container's generic `decode` and its concrete overload for a
      primitive agree on every non-null element (same result, same cursor);
      on a null element both report `valueNotFound`, the generic one with the
      index once in the path and the overload with it twice. */
  lemma GenericMatchesOverload(c: UnkeyedContainer, p: Prim, d: Decoder)
    ensures !c.IsAtEnd() && !c.elements[c.currentIndex].Null? ==>
      UnkeyedDecode(c, Prim(p), d) == DecodePrim(c, p, d)
    ensures !c.IsAtEnd() && c.elements[c.currentIndex].Null? ==>
      && UnkeyedDecode(c, Prim(p), d).result == Failure(ValueNotFoundHere(Enter(d, Here(c)), PrimType(p)))
      && DecodePrim(c, p, d).result == Failure(NotFoundAt(d.codingPath + [Here(c), Here(c)], PrimType(p)))
    ensures c.IsAtEnd() ==> UnkeyedDecode(c, Prim(p), d) == DecodePrim(c, p, d)
  {
    if !c.IsAtEnd() {
      if c.elements[c.currentIndex].Null? {
        GenericMatchesOnNull(c, p, d);
      } else {
        GenericMatchesOnValue(c, p, d);
      }
    }
  }

  /** The non-null case of `GenericMatchesOverload`. */
  lemma GenericMatchesOnValue(c: UnkeyedContainer, p: Prim, d: Decoder)
    requires !c.IsAtEnd() && !c.elements[c.currentIndex].Null?
    ensures UnkeyedDecode(c, Prim(p), d) == DecodePrim(c, p, d)
  {
    var inner := Enter(d, Here(c));
    PrimViaDispatcher(c.elements[c.currentIndex], p, inner);
  }

  /** The null case of `GenericMatchesOverload`. */
  lemma GenericMatchesOnNull(c: UnkeyedContainer, p: Prim, d: Decoder)
    requires !c.IsAtEnd() && c.elements[c.currentIndex].Null?
    ensures UnkeyedDecode(c, Prim(p), d).result == Failure(ValueNotFoundHere(Enter(d, Here(c)), PrimType(p)))
    ensures DecodePrim(c, p, d).result == Failure(NotFoundAt(d.codingPath + [Here(c), Here(c)], PrimType(p)))
  {
    var inner := Enter(d, Here(c));
    PrimViaDispatcher(c.elements[c.currentIndex], p, inner);
    assert inner.codingPath + [Here(c)] == d.codingPath + [Here(c), Here(c)];
  }
}
