/** The referencing encoder handed out by `superEncoder`: it encodes into a
    stack of its own and, when it is released, writes what it holds into the
    slot of the container it was created for. */
module ReferencingEncoding {
  import opened Wrappers
  import opened Values
  import opened Options
  import opened Targets
  import opened EncodingStorage
  import opened EncodedTrees
  import opened EncodedForm
  import opened Encoding
  import opened EncodingContainers
  import opened EncodeEngine

  /** The node a reference writes into. */
  function Target(r: Reference): nat
  {
    match r
    case ArrayRef(a, _) => a
    case DictRef(m, _) => m
  }

  /** The slot exists: an array node with the index at most its length (an
      insertion past the end traps), or a map node. */
  predicate SlotIn(r: Reference, h: Heap)
  {
    match r
    case ArrayRef(a, i) => h.IsArray(a) && i <= |h.nodes[a].items|
    case DictRef(m, _) => h.IsMap(m)
  }

  /** The tree a referencing encoder hands over: an empty map when nothing
      was encoded, otherwise the one item on its stack. */
  function Handed(e: Encoder, h: Heap): Value
    requires h.Valid() && e.storage.Count() <= 1 && e.storage.Within(-1, h.Size())
  {
    if e.storage.Count() == 0 then Dict(map[]) else ResolveItem(h, e.storage.Top())
  }

  /** `deinit`: with nothing encoded an empty map, with one item that item,
      written into the referenced slot (inserted at the index, or stored
      under the key); more than one item is a fatal error in the source. */
  function Finish(e: Encoder, h: Heap): (r: Heap)
    requires e.kind.Referencing? && h.Valid() && SlotIn(e.kind.reference, h)
    requires e.storage.Count() <= 1 && e.storage.Within(Target(e.kind.reference), h.Size())
    ensures r.Valid() && OnlyTouched(h, r, Target(e.kind.reference)) && r.Size() == h.Size()
    ensures e.kind.reference.DictRef? ==>
      var m := e.kind.reference.mapId;
      Resolve(r, m) == Dict(Resolve(h, m).entries[e.kind.reference.key := Handed(e, h)])
    ensures e.kind.reference.ArrayRef? ==>
      var (a, i) := (e.kind.reference.arrayId, e.kind.reference.index);
      var t := Resolve(h, a).elems;
      Resolve(r, a) == Array(t[..i] + [Handed(e, h)] + t[i..])
  {
    var it := if e.storage.Count() == 0 then Leaf(Dict(map[])) else e.storage.Top();
    match e.kind.reference
    case DictRef(m, key) =>
      SetEntryResolves(h, m, key, it);
      h.SetEntry(m, key, it)
    case ArrayRef(a, i) =>
      InsertResolves(h, a, i, it);
      h.Insert(a, i, it)
  }

  /** A value encoded on a fresh referencing encoder leaves at most one item
      on its stack, refers only to nodes allocated meanwhile, and hands over
      the value's tree; the nodes that were already there are untouched. */
  lemma FreshEncoderWrites(v: Typed, r: Encoder, h: Heap, id: nat)
    requires h.Valid() && id < h.Size() && r.storage.Count() == 0 && r.CanEncodeNewValue()
    requires !v.UrlV? && !v.DecimalV? && Encodable(v, r.Strategy())
    ensures
      var w := EncodeWith(v, r, h);
      && w.result.Success? && w.heap.Valid() && w.encoder.kind == r.kind
      && w.encoder.storage.Count() <= 1 && w.encoder.storage.Within(id, w.heap.Size())
      && Handed(w.encoder, w.heap) == TreeOf(v, r.Strategy())
      && w.heap.nodes[id] == h.nodes[id] && Resolve(w.heap, id) == Resolve(h, id)
  {
    var w := EncodeWith(v, r, h);
    assert Wrote(v, r, h, w);
    Frame(h, w.heap, id);
    if !v.SilentV? {
      assert w.encoder.storage.containers == [w.encoder.storage.Top()];
    }
  }

  /** A superclass encoded through `superEncoder(forKey:)` of a keyed
      container lands, once the referencing encoder is released, under that
      key: the container's map gains exactly the value's tree there. */
  lemma SuperEncoderForKeyWrites(c: KeyedEncContainer, key: string, v: Typed, e: Encoder, h: Heap)
    requires h.Valid() && h.IsMap(c.id) && !v.UrlV? && !v.DecimalV? && Encodable(v, e.Strategy())
    ensures
      var r := KeyedSuperEncoderForKey(c, key, e);
      var w := EncodeWith(v, r, h);
      && w.result.Success?
      && w.encoder.storage.Count() <= 1 && w.encoder.storage.Within(c.id, w.heap.Size())
      && Resolve(Finish(w.encoder, w.heap), c.id) == Dict(Resolve(h, c.id).entries[key := TreeOf(v, e.Strategy())])
  {
    var r := KeyedSuperEncoderForKey(c, key, e);
    FreshEncoderWrites(v, r, h, c.id);
  }

  /** The same through `superEncoder()` of an unkeyed container: the value's
      tree is inserted at the index the array had when the encoder was
      created, which is its end when nothing was appended meanwhile. */
  lemma UnkeyedSuperEncoderWrites(c: UnkeyedEncContainer, v: Typed, e: Encoder, h: Heap)
    requires h.Valid() && h.IsArray(c.id) && !v.UrlV? && !v.DecimalV? && Encodable(v, e.Strategy())
    ensures
      var r := UnkeyedSuperEncoder(c, e, h);
      var w := EncodeWith(v, r, h);
      && w.result.Success?
      && w.encoder.storage.Count() <= 1 && w.encoder.storage.Within(c.id, w.heap.Size())
      && Resolve(Finish(w.encoder, w.heap), c.id) == Array(Resolve(h, c.id).elems + [TreeOf(v, e.Strategy())])
  {
    var r := UnkeyedSuperEncoder(c, e, h);
    FreshEncoderWrites(v, r, h, c.id);
    var w := EncodeWith(v, r, h);
    var t := Resolve(h, c.id).elems;
    assert |t| == Count(c, h);
    var f := Finish(w.encoder, w.heap);
    assert Resolve(f, c.id) == Array(t[..|t|] + [Handed(w.encoder, w.heap)] + t[|t|..]);
    assert t[..|t|] + [Handed(w.encoder, w.heap)] + t[|t|..] == t + [TreeOf(v, e.Strategy())];
  }
}
