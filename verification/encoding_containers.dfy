/** The keyed and unkeyed encoding containers' non-generic operations: nil,
    the concrete primitive overloads, nested containers and the super
    encoders. Each writes into its own node and leaves every other node of
    the heap as it was. */
module EncodingContainers {
  import opened Wrappers
  import opened Values
  import opened Errors
  import opened Targets
  import opened EncodingStorage
  import opened EncodedTrees
  import opened EncodedForm
  import opened Encoding

  /** A nested container and the heap holding its new node. */
  datatype Nested<C> = Nested(container: C, heap: Heap)

  /** Allocating a node and storing a reference to it in map node `id` adds
      an empty tree under `key`. */
  lemma AllocIntoMap(h: Heap, id: nat, key: string, n: Node)
    requires h.Valid() && h.IsMap(id) && (n == MapNode(map[]) || n == ArrNode([]))
    ensures
      var h2 := h.Alloc(n).SetEntry(id, key, Ref(h.Size()));
      && h2.Valid() && OnlyTouched(h, h2, id) && h2.Size() == h.Size() + 1 && h2.nodes[h.Size()] == n
      && Resolve(h2, id) == Dict(Resolve(h, id).entries[key := Resolve(h2, h.Size())])
      && Resolve(h2, h.Size()) == (if n.MapNode? then Dict(map[]) else Array([]))
  {
    var h1 := h.Alloc(n);
    Frame(h, h1, id);
    SetEntryResolves(h1, id, key, Ref(h.Size()));
    var h2 := h1.SetEntry(id, key, Ref(h.Size()));
    Frame(h1, h2, h.Size());
    EmptyNodeResolves(h2, h.Size());
  }

  /** Allocating a node and appending a reference to it to array node `id`. */
  lemma AllocIntoArray(h: Heap, id: nat, n: Node)
    requires h.Valid() && h.IsArray(id) && (n == MapNode(map[]) || n == ArrNode([]))
    ensures
      var h2 := h.Alloc(n).Append(id, Ref(h.Size()));
      && h2.Valid() && OnlyTouched(h, h2, id) && h2.Size() == h.Size() + 1 && h2.nodes[h.Size()] == n
      && Resolve(h2, id) == Array(Resolve(h, id).elems + [Resolve(h2, h.Size())])
      && Resolve(h2, h.Size()) == (if n.MapNode? then Dict(map[]) else Array([]))
  {
    var h1 := h.Alloc(n);
    Frame(h, h1, id);
    AppendResolves(h1, id, Ref(h.Size()));
    var h2 := h1.Append(id, Ref(h.Size()));
    Frame(h1, h2, h.Size());
    EmptyNodeResolves(h2, h.Size());
  }

  // Keyed container

  /** `encodeNil(forKey:)`: the entry becomes null. */
  function KeyedEncodeNil(c: KeyedEncContainer, key: string, h: Heap): (r: Heap)
    requires h.Valid() && h.IsMap(c.id)
    ensures r.Valid() && r.IsMap(c.id) && OnlyTouched(h, r, c.id) && r.Size() == h.Size()
    ensures Resolve(r, c.id) == Dict(Resolve(h, c.id).entries[key := Null])
  {
    SetEntryResolves(h, c.id, key, Leaf(Null));
    h.SetEntry(c.id, key, Leaf(Null))
  }

  /** The concrete `encode(_:forKey:)` overloads. Float and Double put the
      key on the encoder's path while boxing, so a rejected value is
      reported there; the path is restored either way. */
  function KeyedEncode(c: KeyedEncContainer, key: string, v: Typed, e: Encoder, h: Heap): (s: EStep<()>)
    requires h.Valid() && h.IsMap(c.id) && IsPrimValue(v)
    ensures s.encoder == e
    ensures s.heap.Valid() && s.heap.IsMap(c.id) && OnlyTouched(h, s.heap, c.id) && s.heap.Size() == h.Size()
    ensures s.result.Success? <==> Encodable(v, e.Strategy())
    ensures s.result.Success? ==> Resolve(s.heap, c.id) == Dict(Resolve(h, c.id).entries[key := TreeOf(v, e.Strategy())])
    ensures s.result.Failure? ==>
      s.heap == h && s.result.error == InvalidFloatingPoint(v.f, e.codingPath + [NamedKey(key)])
  {
    var boxed := if v.FloatV? || v.DoubleV? then BoxPrim(v, Enter(e, NamedKey(key))) else BoxPrim(v, e);
    match boxed
    case Failure(err) => EStep(Failure(err), h, e)
    case Success(x) =>
      SetEntryResolves(h, c.id, key, Leaf(x));
      EStep(Success(()), h.SetEntry(c.id, key, Leaf(x)), e)
  }

  /** `nestedContainer(keyedBy:forKey:)`: a new empty map stored under the
      key, written through a container whose path ends with that key. */
  function KeyedNestedKeyed(c: KeyedEncContainer, key: string, h: Heap): (n: Nested<KeyedEncContainer>)
    requires h.Valid() && h.IsMap(c.id)
    ensures n.heap.Valid() && n.heap.IsMap(c.id) && n.heap.IsMap(n.container.id) && OnlyTouched(h, n.heap, c.id)
    ensures n.container.id == h.Size() && n.heap.Size() == h.Size() + 1
    ensures n.container.codingPath == c.codingPath + [NamedKey(key)]
    ensures Resolve(n.heap, n.container.id) == Dict(map[])
    ensures Resolve(n.heap, c.id) == Dict(Resolve(h, c.id).entries[key := Dict(map[])])
  {
    AllocIntoMap(h, c.id, key, MapNode(map[]));
    Nested(KeyedEncContainer(h.Size(), c.codingPath + [NamedKey(key)]), h.Alloc(MapNode(map[])).SetEntry(c.id, key, Ref(h.Size())))
  }

  /** `nestedUnkeyedContainer(forKey:)`: a new empty array under the key. */
  function KeyedNestedUnkeyed(c: KeyedEncContainer, key: string, h: Heap): (n: Nested<UnkeyedEncContainer>)
    requires h.Valid() && h.IsMap(c.id)
    ensures n.heap.Valid() && n.heap.IsMap(c.id) && n.heap.IsArray(n.container.id) && OnlyTouched(h, n.heap, c.id)
    ensures n.container.id == h.Size() && n.heap.Size() == h.Size() + 1
    ensures n.container.codingPath == c.codingPath + [NamedKey(key)]
    ensures Resolve(n.heap, n.container.id) == Array([])
    ensures Resolve(n.heap, c.id) == Dict(Resolve(h, c.id).entries[key := Array([])])
  {
    AllocIntoMap(h, c.id, key, ArrNode([]));
    Nested(UnkeyedEncContainer(h.Size(), c.codingPath + [NamedKey(key)]), h.Alloc(ArrNode([])).SetEntry(c.id, key, Ref(h.Size())))
  }

  /** A referencing encoder for one slot of map node `id`: it starts empty,
      with the parent encoder's path plus `pathKey`, and may start a value. */
  function SuperEncoderAt(id: nat, pathKey: CodingKey, slot: string, e: Encoder): (r: Encoder)
    ensures r.kind == Referencing(|e.codingPath|, DictRef(id, slot))
    ensures r.codingPath == e.codingPath + [pathKey] && r.options == e.options
    ensures r.storage.Count() == 0 && r.CanEncodeNewValue()
  {
    Encoder(EmptyStorage(), e.codingPath + [pathKey], e.options, Referencing(|e.codingPath|, DictRef(id, slot)))
  }

  /** `superEncoder()`: the slot is the reserved key "super". */
  function KeyedSuperEncoder(c: KeyedEncContainer, e: Encoder): (r: Encoder)
    ensures r.kind == Referencing(|e.codingPath|, DictRef(c.id, SuperKeyName))
    ensures r.codingPath == e.codingPath + [SuperKey] && r.options == e.options
    ensures r.storage.Count() == 0 && r.CanEncodeNewValue()
  {
    SuperEncoderAt(c.id, SuperKey, SuperKeyName, e)
  }

  /** `superEncoder(forKey:)`. */
  function KeyedSuperEncoderForKey(c: KeyedEncContainer, key: string, e: Encoder): (r: Encoder)
    ensures r.kind == Referencing(|e.codingPath|, DictRef(c.id, key))
    ensures r.codingPath == e.codingPath + [NamedKey(key)] && r.options == e.options
    ensures r.storage.Count() == 0 && r.CanEncodeNewValue()
  {
    SuperEncoderAt(c.id, NamedKey(key), key, e)
  }

  // Unkeyed container

  /** `count`: the number of elements already in the array. */
  function Count(c: UnkeyedEncContainer, h: Heap): nat
    requires h.IsArray(c.id)
  {
    |h.nodes[c.id].items|
  }

  /** The path segment of the next element. */
  function NextKey(c: UnkeyedEncContainer, h: Heap): CodingKey
    requires h.IsArray(c.id)
  {
    IndexKey(Count(c, h))
  }

  /** `encodeNil()`: a null appended. */
  function UnkeyedEncodeNil(c: UnkeyedEncContainer, h: Heap): (r: Heap)
    requires h.Valid() && h.IsArray(c.id)
    ensures r.Valid() && r.IsArray(c.id) && OnlyTouched(h, r, c.id) && r.Size() == h.Size()
    ensures Count(c, r) == Count(c, h) + 1
    ensures Resolve(r, c.id) == Array(Resolve(h, c.id).elems + [Null])
  {
    AppendResolves(h, c.id, Leaf(Null));
    h.Append(c.id, Leaf(Null))
  }

  /** The concrete `encode(_:)` overloads. Float and Double put the index
      the element will have on the encoder's path while boxing. */
  function UnkeyedEncode(c: UnkeyedEncContainer, v: Typed, e: Encoder, h: Heap): (s: EStep<()>)
    requires h.Valid() && h.IsArray(c.id) && IsPrimValue(v)
    ensures s.encoder == e
    ensures s.heap.Valid() && s.heap.IsArray(c.id) && OnlyTouched(h, s.heap, c.id) && s.heap.Size() == h.Size()
    ensures s.result.Success? <==> Encodable(v, e.Strategy())
    ensures s.result.Success? ==>
      Count(c, s.heap) == Count(c, h) + 1 && Resolve(s.heap, c.id) == Array(Resolve(h, c.id).elems + [TreeOf(v, e.Strategy())])
    ensures s.result.Failure? ==>
      s.heap == h && s.result.error == InvalidFloatingPoint(v.f, e.codingPath + [NextKey(c, h)])
  {
    var boxed := if v.FloatV? || v.DoubleV? then BoxPrim(v, Enter(e, NextKey(c, h))) else BoxPrim(v, e);
    match boxed
    case Failure(err) => EStep(Failure(err), h, e)
    case Success(x) =>
      AppendResolves(h, c.id, Leaf(x));
      EStep(Success(()), h.Append(c.id, Leaf(x)), e)
  }

  /** `nestedContainer(keyedBy:)`: a new empty map appended; its path ends
      with the index it occupies. */
  function UnkeyedNestedKeyed(c: UnkeyedEncContainer, h: Heap): (n: Nested<KeyedEncContainer>)
    requires h.Valid() && h.IsArray(c.id)
    ensures n.heap.Valid() && n.heap.IsArray(c.id) && n.heap.IsMap(n.container.id) && OnlyTouched(h, n.heap, c.id)
    ensures n.container.id == h.Size() && n.heap.Size() == h.Size() + 1
    ensures n.container.codingPath == c.codingPath + [NextKey(c, h)]
    ensures Resolve(n.heap, n.container.id) == Dict(map[])
    ensures Resolve(n.heap, c.id) == Array(Resolve(h, c.id).elems + [Dict(map[])])
  {
    AllocIntoArray(h, c.id, MapNode(map[]));
    Nested(KeyedEncContainer(h.Size(), c.codingPath + [NextKey(c, h)]), h.Alloc(MapNode(map[])).Append(c.id, Ref(h.Size())))
  }

  /** `nestedUnkeyedContainer()`: a new empty array appended. */
  function UnkeyedNestedUnkeyed(c: UnkeyedEncContainer, h: Heap): (n: Nested<UnkeyedEncContainer>)
    requires h.Valid() && h.IsArray(c.id)
    ensures n.heap.Valid() && n.heap.IsArray(c.id) && n.heap.IsArray(n.container.id) && OnlyTouched(h, n.heap, c.id)
    ensures n.container.id == h.Size() && n.heap.Size() == h.Size() + 1
    ensures n.container.codingPath == c.codingPath + [NextKey(c, h)]
    ensures Resolve(n.heap, n.container.id) == Array([])
    ensures Resolve(n.heap, c.id) == Array(Resolve(h, c.id).elems + [Array([])])
  {
    AllocIntoArray(h, c.id, ArrNode([]));
    Nested(UnkeyedEncContainer(h.Size(), c.codingPath + [NextKey(c, h)]), h.Alloc(ArrNode([])).Append(c.id, Ref(h.Size())))
  }

  /** `superEncoder()`: a referencing encoder for the index the array has
      now; its result is inserted there when it is finished. */
  function UnkeyedSuperEncoder(c: UnkeyedEncContainer, e: Encoder, h: Heap): (r: Encoder)
    requires h.IsArray(c.id)
    ensures r.kind == Referencing(|e.codingPath|, ArrayRef(c.id, Count(c, h)))
    ensures r.codingPath == e.codingPath + [IndexKey(Count(c, h))] && r.options == e.options
    ensures r.storage.Count() == 0 && r.CanEncodeNewValue()
  {
    Encoder(EmptyStorage(), e.codingPath + [IndexKey(Count(c, h))], e.options, Referencing(|e.codingPath|, ArrayRef(c.id, Count(c, h))))
  }
}
