/** Reading a finished value tree out of the encoder's heap (what the caller
    sees once the mutable containers are handed over), and how that reading
    changes when one container is written. */
module EncodedTrees {
  import opened Values
  import opened EncodingStorage

  /** The value tree rooted at node `id`. */
  function Resolve(h: Heap, id: nat): Value
    requires h.Valid() && id < h.Size()
    decreases h.Size() - id
  {
    match h.nodes[id]
    case MapNode(m) =>
      Dict(map k | k in m :: if m[k].Ref? then Resolve(h, m[k].id) else m[k].value)
    case ArrNode(xs) =>
      Array(seq(|xs|, i requires 0 <= i < |xs| => if xs[i].Ref? then Resolve(h, xs[i].id) else xs[i].value))
  }

  /** The value tree an item stands for. */
  function ResolveItem(h: Heap, it: Item): Value
    requires h.Valid() && ItemIn(it, -1, h.Size())
  {
    if it.Ref? then Resolve(h, it.id) else it.value
  }

  /** A node that was just allocated holds the empty tree of its kind. */
  lemma EmptyNodeResolves(h: Heap, id: nat)
    requires h.Valid() && id < h.Size() && (h.nodes[id] == MapNode(map[]) || h.nodes[id] == ArrNode([]))
    ensures Resolve(h, id) == if h.nodes[id].MapNode? then Dict(map[]) else Array([])
  {
    if h.nodes[id].ArrNode? {
      assert Resolve(h, id).elems == [];
    }
  }

  /** `h2` keeps every node of `h1` from `y` on (it may have more nodes). */
  predicate SameFrom(h1: Heap, h2: Heap, y: nat)
  {
    h1.Size() <= h2.Size() && forall i :: y <= i < h1.Size() ==> h2.nodes[i] == h1.nodes[i]
  }

  /** The tree at `y` only depends on nodes from `y` on. */
  lemma {:induction false} Frame(h1: Heap, h2: Heap, y: nat)
    requires h1.Valid() && h2.Valid() && y < h1.Size() && SameFrom(h1, h2, y)
    ensures Resolve(h2, y) == Resolve(h1, y)
    decreases h1.Size() - y
  {
    match h1.nodes[y]
    case MapNode(m) =>
      forall k | k in m && m[k].Ref?
        ensures Resolve(h2, m[k].id) == Resolve(h1, m[k].id)
      {
        Frame(h1, h2, m[k].id);
      }
    case ArrNode(xs) =>
      forall i | 0 <= i < |xs| && xs[i].Ref?
        ensures Resolve(h2, xs[i].id) == Resolve(h1, xs[i].id)
      {
        Frame(h1, h2, xs[i].id);
      }
  }

  lemma FrameItem(h1: Heap, h2: Heap, y: nat, it: Item)
    requires h1.Valid() && h2.Valid() && SameFrom(h1, h2, y) && ItemIn(it, y - 1, h1.Size())
    ensures ResolveItem(h2, it) == ResolveItem(h1, it)
  {
    if it.Ref? {
      Frame(h1, h2, it.id);
    }
  }

  /** Writing one entry of a map node changes its tree in exactly that key. */
  lemma SetEntryResolves(h: Heap, id: nat, key: string, it: Item)
    requires h.Valid() && h.IsMap(id) && ItemIn(it, id, h.Size())
    ensures Resolve(h.SetEntry(id, key, it), id) == Dict(Resolve(h, id).entries[key := ResolveItem(h, it)])
  {
    var h2 := h.SetEntry(id, key, it);
    var m := h.nodes[id].entries;
    var m2 := m[key := it];
    assert SameFrom(h, h2, id + 1);
    forall k | k in m2
      ensures ResolveItem(h2, m2[k]) == ResolveItem(h, m2[k])
    {
      FrameItem(h, h2, id + 1, m2[k]);
    }
    assert Resolve(h2, id).entries == Resolve(h, id).entries[key := ResolveItem(h, it)];
  }

  /** Appending to an array node appends to its tree. */
  lemma AppendResolves(h: Heap, id: nat, it: Item)
    requires h.Valid() && h.IsArray(id) && ItemIn(it, id, h.Size())
    ensures Resolve(h.Append(id, it), id) == Array(Resolve(h, id).elems + [ResolveItem(h, it)])
  {
    var h2 := h.Append(id, it);
    var xs := h.nodes[id].items;
    var ys := xs + [it];
    assert SameFrom(h, h2, id + 1);
    forall i | 0 <= i < |ys|
      ensures ResolveItem(h2, ys[i]) == ResolveItem(h, ys[i])
    {
      FrameItem(h, h2, id + 1, ys[i]);
    }
    assert Resolve(h2, id).elems == Resolve(h, id).elems + [ResolveItem(h, it)];
  }

  /** The `j`-th element of an array node's tree is its `j`-th item's tree. */
  lemma ArrayElem(h: Heap, id: nat, j: nat)
    requires h.Valid() && h.IsArray(id) && j < |h.nodes[id].items|
    ensures |Resolve(h, id).elems| == |h.nodes[id].items|
    ensures Resolve(h, id).elems[j] == ResolveItem(h, h.nodes[id].items[j])
  {
  }

  /** One element of an array node's tree after an insertion: the new item's
      tree at the index, the old elements before it, shifted ones after it. */
  lemma InsertElem(h: Heap, id: nat, index: nat, it: Item, j: nat)
    requires h.Valid() && h.IsArray(id) && index <= |h.nodes[id].items| && ItemIn(it, id, h.Size())
    requires j <= |h.nodes[id].items|
    ensures |Resolve(h.Insert(id, index, it), id).elems| == |h.nodes[id].items| + 1
    ensures j < index ==> Resolve(h.Insert(id, index, it), id).elems[j] == Resolve(h, id).elems[j]
    ensures j == index ==> Resolve(h.Insert(id, index, it), id).elems[j] == ResolveItem(h, it)
    ensures j > index ==> Resolve(h.Insert(id, index, it), id).elems[j] == Resolve(h, id).elems[j - 1]
  {
    var h2 := h.Insert(id, index, it);
    var xs := h.nodes[id].items;
    var ys := h2.nodes[id].items;
    assert SameFrom(h, h2, id + 1);
    ArrayElem(h2, id, j);
    FrameItem(h, h2, id + 1, ys[j]);
    if j < index {
      assert ys[j] == xs[j];
      ArrayElem(h, id, j);
    } else if j > index {
      assert ys[j] == xs[j - 1];
      ArrayElem(h, id, j - 1);
    }
  }

  /** Inserting into an array node inserts into its tree at the same index. */
  lemma InsertResolves(h: Heap, id: nat, index: nat, it: Item)
    requires h.Valid() && h.IsArray(id) && index <= |h.nodes[id].items| && ItemIn(it, id, h.Size())
    ensures
      var t := Resolve(h, id).elems;
      Resolve(h.Insert(id, index, it), id) == Array(t[..index] + [ResolveItem(h, it)] + t[index..])
  {
    var h2 := h.Insert(id, index, it);
    var t := Resolve(h, id).elems;
    var u := t[..index] + [ResolveItem(h, it)] + t[index..];
    var r := Resolve(h2, id).elems;
    InsertElem(h, id, index, it, 0);
    assert |t| == |h.nodes[id].items|;
    assert |r| == |u|;
    forall j | 0 <= j < |u|
      ensures r[j] == u[j]
    {
      InsertElem(h, id, index, it, j);
    }
    assert r == u;
  }
}
