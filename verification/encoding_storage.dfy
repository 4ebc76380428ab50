/** The encoder's mutable containers and its container stack. The
    `NSMutableDictionary`/`NSMutableArray` objects the source shares between
    the stack, the containers writing into them and their parents become
    nodes of an explicit heap addressed by id; a reference to a node always
    points to a node allocated after the one holding it, which is what makes
    the finished tree well-founded. */
module EncodingStorage {
  import opened Values

  /** An object on the stack or inside a container: a boxed leaf value, or a
      reference to a mutable container node. */
  datatype Item = Leaf(value: Value) | Ref(id: nat)

  datatype Node = MapNode(entries: map<string, Item>) | ArrNode(items: seq<Item>)

  /** `it` is a leaf, or refers to a node with id strictly between `lo` and `hi`. */
  predicate ItemIn(it: Item, lo: int, hi: int)
  {
    it.Ref? ==> lo < it.id < hi
  }

  predicate NodeIn(n: Node, lo: int, hi: int)
  {
    match n
    case MapNode(m) => forall k :: k in m ==> ItemIn(m[k], lo, hi)
    case ArrNode(xs) => forall i :: 0 <= i < |xs| ==> ItemIn(xs[i], lo, hi)
  }

  datatype Heap = Heap(nodes: seq<Node>) {

    /** `h` has at least these nodes, each still of the same kind: the only
        changes the encoder ever makes. */
    predicate Extends(h: Heap)
    {
      |nodes| <= |h.nodes| && forall i :: 0 <= i < |nodes| ==> h.nodes[i].MapNode? == nodes[i].MapNode?
    }

    /** Every reference in node `i` points to a later node that exists. */
    predicate Valid()
    {
      forall i :: 0 <= i < |nodes| ==> NodeIn(nodes[i], i, |nodes|)
    }

    function Size(): nat
    {
      |nodes|
    }

    predicate IsMap(id: nat)
    {
      id < |nodes| && nodes[id].MapNode?
    }

    predicate IsArray(id: nat)
    {
      id < |nodes| && nodes[id].ArrNode?
    }

    /** A fresh empty container; its id is the old size. */
    function Alloc(n: Node): (h: Heap)
      requires n == MapNode(map[]) || n == ArrNode([])
      ensures h.Size() == Size() + 1 && h.nodes[Size()] == n
      ensures h.nodes[..Size()] == nodes
      ensures Extends(h)
      ensures Valid() ==> h.Valid()
    {
      Heap(nodes + [n])
    }

    /** `dictionary[key] = item`: sets or overwrites one entry. */
    function SetEntry(id: nat, key: string, it: Item): (h: Heap)
      requires IsMap(id)
      ensures h.Size() == Size() && h.IsMap(id)
      ensures h.nodes[id].entries == nodes[id].entries[key := it]
      ensures forall i :: 0 <= i < Size() && i != id ==> h.nodes[i] == nodes[i]
      ensures Extends(h)
      ensures Valid() && ItemIn(it, id, Size()) ==> h.Valid()
    {
      Heap(nodes[id := MapNode(nodes[id].entries[key := it])])
    }

    /** `array.add(item)`. */
    function Append(id: nat, it: Item): (h: Heap)
      requires IsArray(id)
      ensures h.Size() == Size() && h.IsArray(id)
      ensures h.nodes[id].items == nodes[id].items + [it]
      ensures forall i :: 0 <= i < Size() && i != id ==> h.nodes[i] == nodes[i]
      ensures Extends(h)
      ensures Valid() && ItemIn(it, id, Size()) ==> h.Valid()
    {
      Heap(nodes[id := ArrNode(nodes[id].items + [it])])
    }

    /** `array.insert(item, at: index)`; an index past the end is a trap in the
        source, hence the precondition. */
    function Insert(id: nat, index: nat, it: Item): (h: Heap)
      requires IsArray(id) && index <= |nodes[id].items|
      ensures h.Size() == Size() && h.IsArray(id)
      ensures h.nodes[id].items == nodes[id].items[..index] + [it] + nodes[id].items[index..]
      ensures forall i :: 0 <= i < Size() && i != id ==> h.nodes[i] == nodes[i]
      ensures Extends(h)
      ensures Valid() && ItemIn(it, id, Size()) ==> h.Valid()
    {
      var xs := nodes[id].items;
      var ys := xs[..index] + [it] + xs[index..];
      assert forall j :: 0 <= j < |ys| ==> ys[j] == it || ys[j] in xs;
      Heap(nodes[id := ArrNode(ys)])
    }
  }

  function EmptyHeap(): (h: Heap)
    ensures h.Size() == 0 && h.Valid()
  {
    Heap([])
  }

  /** `_DictionaryEncodingStorage`: the stack of boxed values and containers. */
  datatype Storage = Storage(containers: seq<Item>) {

    function Count(): nat
    {
      |containers|
    }

    function Top(): Item
      requires Count() > 0
    {
      containers[|containers| - 1]
    }

    function Push(it: Item): (s: Storage)
      ensures s.Count() == Count() + 1 && s.Top() == it
      ensures s.containers[..Count()] == containers
    {
      Storage(containers + [it])
    }

    /** `popContainer()`; popping an empty stack is a precondition failure. */
    function Pop(): (s: Storage)
      requires Count() > 0
      ensures s.Count() == Count() - 1
      ensures s.containers == containers[..Count() - 1]
    {
      Storage(containers[..|containers| - 1])
    }

    /** Every item on the stack is a leaf or refers to a node in `(lo, hi)`. */
    predicate Within(lo: int, hi: int)
    {
      forall i :: 0 <= i < |containers| ==> ItemIn(containers[i], lo, hi)
    }
  }

  /** A freshly initialised stack is empty. */
  function EmptyStorage(): (s: Storage)
    ensures s.Count() == 0
  {
    Storage([])
  }

  lemma PushPop(s: Storage, it: Item)
    ensures s.Push(it).Pop() == s
  {
    assert (s.containers + [it])[..|s.containers|] == s.containers;
  }
}
