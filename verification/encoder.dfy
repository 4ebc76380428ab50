/** The internal encoder: its container stack, its coding path, the rule that
    decides whether a new value may be started at the current path, the
    requests for a keyed or unkeyed container, and the single-value container
    with the boxing of primitives it relies on. */
module Encoding {
  import opened Wrappers
  import opened Values
  import opened Errors
  import opened Options
  import opened Targets
  import opened EncodingStorage
  import opened EncodedTrees
  import opened EncodedForm

  /** Where a referencing encoder writes its result when it is finished: an
      index of an array node, or a key of a map node. */
  datatype Reference = ArrayRef(arrayId: nat, index: nat) | DictRef(mapId: nat, key: string)

  /** A plain encoder, or one created by `superEncoder` that remembers the
      length of its parent's coding path and the slot it writes to. */
  datatype Kind = Plain | Referencing(parentPathLength: nat, reference: Reference)

  datatype Encoder = Encoder(storage: Storage, codingPath: seq<CodingKey>, options: EncodeOptions, kind: Kind) {

    /** The part of the coding path that no value on this encoder's own
        stack accounts for: nothing for a plain encoder, the parent's path
        and the slot's key for a referencing one. */
    function Base(): nat
    {
      match kind
      case Plain => 0
      case Referencing(parentPathLength, _) => parentPathLength + 1
    }

    /** `canEncodeNewValue`: every started value has pushed exactly one item
        and every nested value has added one key, so the stack and the path
        are in step exactly when nothing has been encoded at this path yet. */
    predicate CanEncodeNewValue(): (b: bool)
      ensures kind.Plain? ==> (b <==> storage.Count() == |codingPath|)
      ensures kind.Referencing? ==> (b <==> storage.Count() == |codingPath| - kind.parentPathLength - 1)
    {
      storage.Count() + Base() == |codingPath|
    }

    /** One container is open at this path: a child encoded under one more
        key can start a new value. */
    predicate ReadyForChild()
    {
      storage.Count() + Base() == |codingPath| + 1
    }

    function Strategy(): NonConformingFloatEncodingStrategy
    {
      options.nonConformingFloatEncodingStrategy
    }
  }

  /** A fresh internal encoder for `encode(_:)`: empty stack, empty path. */
  function NewEncoder(options: EncodeOptions): (e: Encoder)
    ensures e.CanEncodeNewValue() && e.storage.Count() == 0
    ensures e.codingPath == [] && e.options == options && e.kind.Plain?
  {
    Encoder(EmptyStorage(), [], options, Plain)
  }

  /** The encoder with one more key on its path, as the containers do around
      every value that may throw or request a container. */
  function Enter(e: Encoder, key: CodingKey): (r: Encoder)
    ensures r.storage == e.storage && r.options == e.options && r.kind == e.kind
    ensures r.codingPath == e.codingPath + [key]
    ensures r.CanEncodeNewValue() <==> e.ReadyForChild()
  {
    e.(codingPath := e.codingPath + [key])
  }

  /** A value starts at most once per path: once it has pushed its container
      no second one can start there, and one more key on the path makes room
      for the next nested value. */
  lemma NewValueOncePerPath(e: Encoder, it: Item, key: CodingKey)
    requires e.CanEncodeNewValue()
    ensures
      var pushed := e.(storage := e.storage.Push(it));
      && !pushed.CanEncodeNewValue()
      && Enter(pushed, key).CanEncodeNewValue()
  {
    var pushed := e.(storage := e.storage.Push(it));
    assert pushed.storage.Count() == e.storage.Count() + 1;
  }

  /** The outcome of an encoding step: a result, the heap of containers and
      the encoder's state afterwards. */
  datatype EStep<T> = EStep(result: Result<T, EncodingError>, heap: Heap, encoder: Encoder)

  /** `h2` is `h` with possibly more nodes; no node of `h` was touched. */
  predicate Grows(h: Heap, h2: Heap)
  {
    h.Size() <= h2.Size() && h2.nodes[..h.Size()] == h.nodes
  }

  /** Among the nodes of `h`, `h2` differs at most in node `id`. */
  predicate OnlyTouched(h: Heap, h2: Heap, id: nat)
  {
    h.Size() <= h2.Size() && forall j :: 0 <= j < h.Size() && j != id ==> h2.nodes[j] == h.nodes[j]
  }

  /** An item that is a leaf or refers to a node allocated between `h` and `h2`. */
  predicate FreshIn(it: Item, h: Heap, h2: Heap)
  {
    ItemIn(it, h.Size() - 1, h2.Size())
  }

  /** `e2` is `e` with `it` pushed on its stack. */
  predicate PushedOn(e: Encoder, e2: Encoder, it: Item)
  {
    e2 == e.(storage := e.storage.Push(it))
  }

  /** `e2` is `e`, or `e` with exactly one more item on its stack. */
  predicate AtMostOneAbove(e: Encoder, e2: Encoder)
  {
    e2 == e || (e2.storage.Count() == e.storage.Count() + 1 && e2.(storage := e2.storage.Pop()) == e)
  }

  /** A keyed container writing into map node `id`. */
  datatype KeyedEncContainer = KeyedEncContainer(id: nat, codingPath: seq<CodingKey>)

  /** An unkeyed container appending to array node `id`. */
  datatype UnkeyedEncContainer = UnkeyedEncContainer(id: nat, codingPath: seq<CodingKey>)

  datatype Acquired<C> = Acquired(container: C, heap: Heap, encoder: Encoder)

  /** `container(keyedBy:)`: a new map node pushed on the stack when a new
      value can start here, otherwise the map already on top of the stack
      (any other top is a precondition failure in the source). */
  function KeyedContainer(e: Encoder, h: Heap): (a: Acquired<KeyedEncContainer>)
    requires h.Valid()
    requires e.CanEncodeNewValue() || (e.storage.Count() > 0 && e.storage.Top().Ref? && h.IsMap(e.storage.Top().id))
    ensures a.container.codingPath == e.codingPath && a.heap.IsMap(a.container.id) && a.heap.Valid()
    ensures e.CanEncodeNewValue() ==>
      && a.heap == h.Alloc(MapNode(map[])) && a.container.id == h.Size()
      && PushedOn(e, a.encoder, Ref(h.Size()))
      && a.encoder.ReadyForChild()
    ensures !e.CanEncodeNewValue() ==> a.heap == h && a.encoder == e && a.container.id == e.storage.Top().id
  {
    if e.CanEncodeNewValue() then
      var h2 := h.Alloc(MapNode(map[]));
      Acquired(KeyedEncContainer(h.Size(), e.codingPath), h2, e.(storage := e.storage.Push(Ref(h.Size()))))
    else
      Acquired(KeyedEncContainer(e.storage.Top().id, e.codingPath), h, e)
  }

  /** `unkeyedContainer()`: the same rule with an array node. */
  function UnkeyedContainer(e: Encoder, h: Heap): (a: Acquired<UnkeyedEncContainer>)
    requires h.Valid()
    requires e.CanEncodeNewValue() || (e.storage.Count() > 0 && e.storage.Top().Ref? && h.IsArray(e.storage.Top().id))
    ensures a.container.codingPath == e.codingPath && a.heap.IsArray(a.container.id) && a.heap.Valid()
    ensures e.CanEncodeNewValue() ==>
      && a.heap == h.Alloc(ArrNode([])) && a.container.id == h.Size()
      && PushedOn(e, a.encoder, Ref(h.Size()))
      && a.encoder.ReadyForChild()
    ensures !e.CanEncodeNewValue() ==> a.heap == h && a.encoder == e && a.container.id == e.storage.Top().id
  {
    if e.CanEncodeNewValue() then
      var h2 := h.Alloc(ArrNode([]));
      Acquired(UnkeyedEncContainer(h.Size(), e.codingPath), h2, e.(storage := e.storage.Push(Ref(h.Size()))))
    else
      Acquired(UnkeyedEncContainer(e.storage.Top().id, e.codingPath), h, e)
  }

  /** `box(_: Float)` and `box(_: Double)`: a finite value becomes a number;
      infinity and NaN become the strategy's strings, or throw at the
      encoder's current path. */
  function BoxFloating(f: FloatVal, e: Encoder): (r: Result<Value, EncodingError>)
    ensures r.Success? <==> Conforms(f, e.Strategy())
    ensures r.Success? ==> r.value == FloatTree(f, e.Strategy())
    ensures r.Failure? ==> r.error == InvalidFloatingPoint(f, e.codingPath)
  {
    if f.Finite? then Success(Floating(f))
    else match e.Strategy()
      case ThrowOnNonFinite => Failure(InvalidFloatingPoint(f, e.codingPath))
      case ConvertToString(posInf, negInf, nan) =>
        if f == PosInf then Success(Str(posInf))
        else if f == NegInf then Success(Str(negInf))
        else Success(Str(nan))
  }

  /** A value one of the concrete `encode` overloads accepts. */
  predicate IsPrimValue(v: Typed)
  {
    v.BoolV? || v.IntV? || v.FloatV? || v.DoubleV? || v.StringV?
  }

  /** The concrete `box` overloads: Bool, the integers and String always
      box; Float and Double go through `BoxFloating`. */
  function BoxPrim(v: Typed, e: Encoder): (r: Result<Value, EncodingError>)
    requires IsPrimValue(v)
    ensures r.Success? <==> Encodable(v, e.Strategy())
    ensures r.Success? ==> r.value == TreeOf(v, e.Strategy())
    ensures r.Failure? ==> (v.FloatV? || v.DoubleV?) && r.error == InvalidFloatingPoint(v.f, e.codingPath)
  {
    match v
    case BoolV(b) => Success(Bool(b))
    case IntV(_, i) => Success(Integer(i))
    case StringV(x) => Success(Str(x))
    case FloatV(f) => BoxFloating(f, e)
    case DoubleV(f) => BoxFloating(f, e)
  }

  /** The single-value container's `encodeNil()`. */
  function SingleEncodeNil(e: Encoder): (r: Encoder)
    requires e.CanEncodeNewValue()
    ensures PushedOn(e, r, Leaf(Null))
  {
    e.(storage := e.storage.Push(Leaf(Null)))
  }

  /** The single-value container's concrete `encode` overloads: exactly one
      boxed leaf pushed, or the float error with nothing pushed. */
  function SingleEncode(v: Typed, e: Encoder): (r: Result<Encoder, EncodingError>)
    requires e.CanEncodeNewValue() && IsPrimValue(v)
    ensures r.Success? <==> Encodable(v, e.Strategy())
    ensures r.Success? ==> PushedOn(e, r.value, Leaf(TreeOf(v, e.Strategy())))
    ensures r.Success? ==> !r.value.CanEncodeNewValue()
    ensures r.Failure? ==> r.error == InvalidFloatingPoint(v.f, e.codingPath)
  {
    var x :- BoxPrim(v, e);
    Success(e.(storage := e.storage.Push(Leaf(x))))
  }
}
