/** The generic half of the encoder: `box`/`box_` and the generic `encode`
    of the keyed and unkeyed containers, together with the user-side
    `encode(to:)` logic of the value schema. Each is proved to build, in
    fresh heap nodes, exactly the tree `TreeOf` describes, to fail exactly
    when some Float, Double or Date does not conform to the strategy, and to
    leave the encoder's stack and path as it found them. */
module EncodeEngine {
  import opened Wrappers
  import opened Values
  import opened Errors
  import opened Options
  import opened Targets
  import opened EncodingStorage
  import opened EncodedTrees
  import opened EncodedForm
  import opened Encoding
  import opened EncodingContainers

  /** A value whose `encode(to:)` pushes something on the stack, and so needs
      a fresh slot at the current path. URL and Decimal are intercepted by
      `box_` before any encoding, and a silent value writes nothing. */
  predicate StartsValue(v: Typed)
  {
    !(v.UrlV? || v.DecimalV? || v.SilentV?)
  }

  /** The one error the engine raises on its own: a non-conforming float
      reported at a path at or below the encoder's. */
  predicate FloatErrorBelow(err: EncodingError, e: Encoder)
  {
    err.InvalidFloatingPoint? && !Conforms(err.value, e.Strategy()) && e.codingPath <= err.codingPath
  }

  /** `t` is an array tree holding the trees of the first `i` elements of `v`. */
  predicate ElementsPrefix(t: Value, v: Typed, i: nat, s: NonConformingFloatEncodingStrategy)
    requires v.ArrayV? && i <= |v.elems|
  {
    t.Array? && |t.elems| == i && forall j :: 0 <= j < i ==> t.elems[j] == TreeOf(v.elems[j], s)
  }

  /** The generic `encode(_:forKey:)`: the key goes on the encoder's path,
      the value is boxed, and the boxed item is stored under the key. */
  function KeyedEncodeValue(c: KeyedEncContainer, key: string, v: Typed, e: Encoder, h: Heap): (s: EStep<()>)
    requires h.Valid() && h.IsMap(c.id) && e.ReadyForChild()
    decreases v, 6, 0
    ensures s.encoder == e
    ensures s.heap.Valid() && s.heap.IsMap(c.id) && OnlyTouched(h, s.heap, c.id)
    ensures s.result.Success? <==> Encodable(v, e.Strategy())
    ensures s.result.Success? ==> Resolve(s.heap, c.id) == Dict(Resolve(h, c.id).entries[key := TreeOf(v, e.Strategy())])
    ensures s.result.Failure? ==> FloatErrorBelow(s.result.error, Enter(e, NamedKey(key)))
  {
    var b := Box(v, Enter(e, NamedKey(key)), h);
    match b.result
    case Failure(err) => EStep(Failure(err), b.heap, e)
    case Success(it) =>
      Frame(h, b.heap, c.id);
      SetEntryResolves(b.heap, c.id, key, it);
      EStep(Success(()), b.heap.SetEntry(c.id, key, it), e)
  }

  /** The generic `encode(_:)` of the unkeyed container: the index the
      element will take goes on the encoder's path, and the boxed item is
      appended. */
  function UnkeyedEncodeValue(c: UnkeyedEncContainer, v: Typed, e: Encoder, h: Heap): (s: EStep<()>)
    requires h.Valid() && h.IsArray(c.id) && e.ReadyForChild()
    decreases v, 6, 0
    ensures s.encoder == e
    ensures s.heap.Valid() && s.heap.IsArray(c.id) && OnlyTouched(h, s.heap, c.id)
    ensures s.result.Success? <==> Encodable(v, e.Strategy())
    ensures s.result.Success? ==>
      Count(c, s.heap) == Count(c, h) + 1 && Resolve(s.heap, c.id) == Array(Resolve(h, c.id).elems + [TreeOf(v, e.Strategy())])
    ensures s.result.Failure? ==> FloatErrorBelow(s.result.error, Enter(e, NextKey(c, h)))
  {
    var b := Box(v, Enter(e, NextKey(c, h)), h);
    match b.result
    case Failure(err) => EStep(Failure(err), b.heap, e)
    case Success(it) =>
      Frame(h, b.heap, c.id);
      AppendResolves(b.heap, c.id, it);
      EStep(Success(()), b.heap.Append(c.id, it), e)
  }

  /** `box(_: T)`: `box_`, with an empty map standing in for a value that
      wrote nothing. */
  function Box(v: Typed, e: Encoder, h: Heap): (s: EStep<Item>)
    requires h.Valid() && (StartsValue(v) ==> e.CanEncodeNewValue())
    decreases v, 5, 0
    ensures s.encoder == e && s.heap.Valid() && Grows(h, s.heap)
    ensures s.result.Success? <==> Encodable(v, e.Strategy())
    ensures s.result.Success? ==>
      FreshIn(s.result.value, h, s.heap) && ResolveItem(s.heap, s.result.value) == TreeOf(v, e.Strategy())
    ensures s.result.Failure? ==> FloatErrorBelow(s.result.error, e)
  {
    var b := BoxOrNothing(v, e, h);
    match b.result
    case Failure(err) => EStep(Failure(err), b.heap, b.encoder)
    case Success(None) => EStep(Success(Leaf(Dict(map[]))), b.heap, b.encoder)
    case Success(Some(it)) => EStep(Success(it), b.heap, b.encoder)
  }

  /** `box_(_:)`: a URL becomes its absolute string and a Decimal itself,
      with nothing pushed; anything else runs its `encode(to:)` on this
      encoder and is settled by `Unwind`. */
  function BoxOrNothing(v: Typed, e: Encoder, h: Heap): (s: EStep<Option<Item>>)
    requires h.Valid() && (StartsValue(v) ==> e.CanEncodeNewValue())
    decreases v, 4, 0
    ensures Boxed(v, e, h, s)
  {
    match v
    case UrlV(a) => EStep(Success(Some(Leaf(Str(a)))), h, e)
    case DecimalV(d) => EStep(Success(Some(Leaf(DecimalNum(d)))), h, e)
    case _ => Unwind(v, e, h, EncodeWith(v, e, h))
  }

  /** What `box_` promises: the encoder as it was, the old nodes untouched,
      success exactly for encodable values, nothing answered exactly for a
      silent value, otherwise an item standing for the value's tree, and the
      float error on failure. */
  predicate Boxed(v: Typed, e: Encoder, h: Heap, s: EStep<Option<Item>>)
    requires h.Valid()
  {
    && s.encoder == e && s.heap.Valid() && Grows(h, s.heap)
    && (s.result.Success? <==> Encodable(v, e.Strategy()))
    && (s.result.Success? ==> (s.result.value.None? <==> v.SilentV?))
    && (s.result.Success? && s.result.value.Some? ==>
          FreshIn(s.result.value.value, h, s.heap) && ResolveItem(s.heap, s.result.value.value) == TreeOf(v, e.Strategy()))
    && (s.result.Failure? ==> FloatErrorBelow(s.result.error, e))
  }

  /** What running `encode(to:)` promises: the old nodes untouched, success
      exactly for encodable values; on success exactly one item pushed,
      standing for the value's tree (none for a silent value); on failure at
      most one item pushed (none for anything but a container) and the float
      error. */
  predicate Wrote(v: Typed, e: Encoder, h: Heap, s: EStep<()>)
    requires h.Valid()
  {
    && s.heap.Valid() && Grows(h, s.heap)
    && (s.result.Success? <==> Encodable(v, e.Strategy()))
    && (s.result.Success? && v.SilentV? ==> s.encoder == e)
    && (s.result.Success? && !v.SilentV? ==>
          && s.encoder.storage.Count() > 0
          && PushedOn(e, s.encoder, s.encoder.storage.Top())
          && FreshIn(s.encoder.storage.Top(), h, s.heap)
          && ResolveItem(s.heap, s.encoder.storage.Top()) == TreeOf(v, e.Strategy()))
    && (s.result.Failure? ==> AtMostOneAbove(e, s.encoder) && FloatErrorBelow(s.result.error, e))
    && (s.result.Failure? && !(v.RecordV? || v.ArrayV? || v.DataV?) ==> s.encoder == e)
  }

  /** The rest of `box_` once `encode(to:)` has run: Date pops its item
      unconditionally; Data pops it, or on an error pops whatever it pushed;
      any other value pops what it pushed, answers nothing when it pushed
      nothing, and on an error pops whatever it pushed before rethrowing. */
  function Unwind(v: Typed, e: Encoder, h: Heap, w: EStep<()>): (s: EStep<Option<Item>>)
    requires h.Valid() && !v.UrlV? && !v.DecimalV? && Wrote(v, e, h, w)
    ensures Boxed(v, e, h, s)
  {
    var depth := e.storage.Count();
    if w.result.Failure? then
      if v.DateV? then EStep(Failure(w.result.error), w.heap, w.encoder)
      else EStep(Failure(w.result.error), w.heap, if w.encoder.storage.Count() > depth then w.encoder.(storage := w.encoder.storage.Pop()) else w.encoder)
    else if v.DateV? || v.DataV? || w.encoder.storage.Count() > depth then
      PushPop(e.storage, w.encoder.storage.Top());
      EStep(Success(Some(w.encoder.storage.Top())), w.heap, w.encoder.(storage := w.encoder.storage.Pop()))
    else EStep(Success(None), w.heap, w.encoder)
  }

  /** The `encode(to:)` of the value schema, run on encoder `e`: primitives,
      UUIDs (as their string) and Dates (as their interval) through the
      single-value container; Data as an unkeyed container of `UInt8`s; a
      record as a keyed container of its fields, in order; an array as an
      unkeyed container of its elements; a silent value not at all. */
  function EncodeWith(v: Typed, e: Encoder, h: Heap): (s: EStep<()>)
    requires h.Valid() && !v.UrlV? && !v.DecimalV? && (StartsValue(v) ==> e.CanEncodeNewValue())
    decreases v, 3, 0
    ensures Wrote(v, e, h, s)
  {
    match v
    case SilentV(_) => EStep(Success(()), h, e)
    case UuidV(x) => SingleWrote(v, StringV(x), e, h); SingleStep(StringV(x), e, h)
    case DateV(f) => SingleWrote(v, DoubleV(f), e, h); SingleStep(DoubleV(f), e, h)
    case DataV(bytes) => EncodeData(bytes, e, h)
    case RecordV(_, _) => EncodeRecord(v, e, h)
    case ArrayV(_) => EncodeArray(v, e, h)
    case BoolV(_) | IntV(_, _) | FloatV(_) | DoubleV(_) | StringV(_) => SingleWrote(v, v, e, h); SingleStep(v, e, h)
    case UrlV(_) => assert false; EStep(Success(()), h, e)
    case DecimalV(_) => assert false; EStep(Success(()), h, e)
  }

  /** A value that encodes as the primitive `pv` through the single-value
      container has written what `box_` expects of it. */
  lemma SingleWrote(v: Typed, pv: Typed, e: Encoder, h: Heap)
    requires h.Valid() && e.CanEncodeNewValue() && IsPrimValue(pv)
    requires !v.SilentV? && !v.RecordV? && !v.ArrayV? && !v.DataV?
    requires Encodable(v, e.Strategy()) == Encodable(pv, e.Strategy())
    requires TreeOf(v, e.Strategy()) == TreeOf(pv, e.Strategy())
    ensures Wrote(v, e, h, SingleStep(pv, e, h))
  {
    var s := SingleStep(pv, e, h);
    assert Grows(h, s.heap) by {
      assert h.nodes[..h.Size()] == h.nodes;
    }
    if s.result.Success? {
      var it := Leaf(TreeOf(pv, e.Strategy()));
      PushPop(e.storage, it);
      assert s.encoder.storage.Top() == it && FreshIn(it, h, s.heap);
    }
  }

  /** `Data.encode(to:)`: an unkeyed container holding the bytes. */
  function EncodeData(bytes: seq<int>, e: Encoder, h: Heap): (s: EStep<()>)
    requires h.Valid() && e.CanEncodeNewValue()
    ensures Wrote(DataV(bytes), e, h, s)
  {
    var a := UnkeyedContainer(e, h);
    EmptyNodeResolves(a.heap, a.container.id);
    assert bytes[..0] == [];
    var b := EncodeBytes(bytes, 0, a.container, a.encoder, a.heap);
    EStep(Success(()), b, a.encoder)
  }

  /** A record's `encode(to:)`: a keyed container, then its fields. */
  function EncodeRecord(v: Typed, e: Encoder, h: Heap): (s: EStep<()>)
    requires h.Valid() && v.RecordV? && e.CanEncodeNewValue()
    decreases v, 2, 0
    ensures Wrote(v, e, h, s)
  {
    var a := KeyedContainer(e, h);
    EmptyNodeResolves(a.heap, a.container.id);
    var f := EncodeFields(v, 0, a.container, a.encoder, a.heap);
    ContainerWrote(v, e, h, a.heap, a.encoder, f);
    EStep(f.result, f.heap, a.encoder)
  }

  /** An array's `encode(to:)`: an unkeyed container, then its elements. */
  function EncodeArray(v: Typed, e: Encoder, h: Heap): (s: EStep<()>)
    requires h.Valid() && v.ArrayV? && e.CanEncodeNewValue()
    decreases v, 2, 0
    ensures Wrote(v, e, h, s)
  {
    var a := UnkeyedContainer(e, h);
    EmptyNodeResolves(a.heap, a.container.id);
    var f := EncodeElements(v, 0, a.container, a.encoder, a.heap);
    ContainerWrote(v, e, h, a.heap, a.encoder, f);
    EStep(f.result, f.heap, a.encoder)
  }

  /** A container value's `encode(to:)` has written what `box_` expects once
      its node was pushed and filled: the node's tree on success, the float
      error otherwise, with that one item left on the stack. */
  lemma ContainerWrote(v: Typed, e: Encoder, h: Heap, h1: Heap, e1: Encoder, f: EStep<()>)
    requires h.Valid() && e.CanEncodeNewValue() && (v.RecordV? || v.ArrayV?)
    requires h1 == h.Alloc(ArrNode([])) || h1 == h.Alloc(MapNode(map[]))
    requires PushedOn(e, e1, Ref(h.Size()))
    requires f.encoder == e1 && f.heap.Valid() && OnlyTouched(h1, f.heap, h.Size())
    requires f.result.Success? <==> Encodable(v, e.Strategy())
    requires f.result.Success? ==> f.heap.Size() > h.Size() && Resolve(f.heap, h.Size()) == TreeOf(v, e.Strategy())
    requires f.result.Failure? ==> FloatErrorBelow(f.result.error, e1)
    ensures Wrote(v, e, h, EStep(f.result, f.heap, e1))
  {
    PushPop(e.storage, Ref(h.Size()));
    assert Grows(h, f.heap) by {
      assert f.heap.nodes[..h.Size()] == h.nodes by {
        forall j | 0 <= j < h.Size()
          ensures f.heap.nodes[j] == h.nodes[j]
        {
          assert h1.nodes[j] == h.nodes[j];
        }
      }
    }
    assert e1.storage.Top() == Ref(h.Size());
  }

  /** One value through the single-value container, as an engine step. */
  function SingleStep(v: Typed, e: Encoder, h: Heap): (s: EStep<()>)
    requires e.CanEncodeNewValue() && IsPrimValue(v)
    ensures s.heap == h
    ensures s.result.Success? <==> Encodable(v, e.Strategy())
    ensures s.result.Success? ==> PushedOn(e, s.encoder, Leaf(TreeOf(v, e.Strategy())))
    ensures s.result.Failure? ==> s.encoder == e && FloatErrorBelow(s.result.error, e)
  {
    match SingleEncode(v, e)
    case Success(e2) => EStep(Success(()), h, e2)
    case Failure(err) => EStep(Failure(err), h, e)
  }

  /** The fields of record `v` from the `i`-th on, each through the concrete
      overload when it has one and the generic `encode` otherwise. */
  function EncodeFields(v: Typed, i: nat, c: KeyedEncContainer, e: Encoder, h: Heap): (s: EStep<()>)
    requires v.RecordV? && i <= |v.fields| && h.Valid() && h.IsMap(c.id) && e.ReadyForChild()
    requires Resolve(h, c.id) == Dict(FieldsTree(v, i, e.Strategy()))
    decreases v, 1, |v.fields| - i
    ensures s.encoder == e
    ensures s.heap.Valid() && s.heap.IsMap(c.id) && OnlyTouched(h, s.heap, c.id)
    ensures s.result.Success? <==> forall j :: i <= j < |v.fields| ==> Encodable(v.fields[j].value, e.Strategy())
    ensures s.result.Success? ==> Resolve(s.heap, c.id) == Dict(FieldsTree(v, |v.fields|, e.Strategy()))
    ensures s.result.Failure? ==> FloatErrorBelow(s.result.error, e)
  {
    if i == |v.fields| then EStep(Success(()), h, e)
    else
      var f := v.fields[i];
      var step := if IsPrimValue(f.value) then KeyedEncode(c, f.key, f.value, e, h) else KeyedEncodeValue(c, f.key, f.value, e, h);
      match step.result
      case Failure(err) => EStep(Failure(err), step.heap, e)
      case Success(_) => EncodeFields(v, i + 1, c, e, step.heap)
  }

  /** The elements of array `v` from the `i`-th on, each through the generic
      `encode`. */
  function EncodeElements(v: Typed, i: nat, c: UnkeyedEncContainer, e: Encoder, h: Heap): (s: EStep<()>)
    requires v.ArrayV? && i <= |v.elems| && h.Valid() && h.IsArray(c.id) && e.ReadyForChild()
    requires Count(c, h) == i && ElementsPrefix(Resolve(h, c.id), v, i, e.Strategy())
    decreases v, 1, |v.elems| - i
    ensures s.encoder == e
    ensures s.heap.Valid() && s.heap.IsArray(c.id) && OnlyTouched(h, s.heap, c.id)
    ensures s.result.Success? <==> forall j :: i <= j < |v.elems| ==> Encodable(v.elems[j], e.Strategy())
    ensures s.result.Success? ==> Resolve(s.heap, c.id) == TreeOf(v, e.Strategy())
    ensures s.result.Failure? ==> FloatErrorBelow(s.result.error, e)
  {
    if i == |v.elems| then EStep(Success(()), h, e)
    else
      var step := UnkeyedEncodeValue(c, v.elems[i], e, h);
      match step.result
      case Failure(err) => EStep(Failure(err), step.heap, e)
      case Success(_) => EncodeElements(v, i + 1, c, e, step.heap)
  }

  /** `Data.encode(to:)` after its container: the bytes from the `i`-th on
      through the unkeyed container's `UInt8` overload, which never fails. */
  function EncodeBytes(bytes: seq<int>, i: nat, c: UnkeyedEncContainer, e: Encoder, h: Heap): (r: Heap)
    requires i <= |bytes| && h.Valid() && h.IsArray(c.id)
    requires Resolve(h, c.id) == Array(BytesTree(bytes[..i]))
    decreases |bytes| - i
    ensures r.Valid() && r.IsArray(c.id) && OnlyTouched(h, r, c.id)
    ensures Resolve(r, c.id) == Array(BytesTree(bytes))
  {
    if i == |bytes| then
      assert bytes[..i] == bytes;
      h
    else
      var step := UnkeyedEncode(c, IntV(UInt8, bytes[i]), e, h);
      assert BytesTree(bytes[..i + 1]) == BytesTree(bytes[..i]) + [Integer(bytes[i])];
      EncodeBytes(bytes, i + 1, c, e, step.heap)
  }
}
