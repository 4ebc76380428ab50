/** The decoder's container stack: one tree node per container currently
    open, the last one active. Reading or popping an empty stack is a
    precondition failure in the source, so both carry a `requires`. */
module DecodingStorage {
  import opened Values

  datatype Storage = Storage(containers: seq<Value>) {

    function Count(): nat
    {
      |containers|
    }

    /** The active node. */
    function Top(): (v: Value)
      requires Count() > 0
      ensures v in containers
    {
      containers[|containers| - 1]
    }

    function Push(v: Value): (s: Storage)
      ensures s.Count() == Count() + 1
      ensures s.Top() == v
      ensures s.containers[..Count()] == containers
    {
      Storage(containers + [v])
    }

    function Pop(): (s: Storage)
      requires Count() > 0
      ensures s.Count() == Count() - 1
      ensures forall i :: 0 <= i < s.Count() ==> s.containers[i] == containers[i]
    {
      Storage(containers[..|containers| - 1])
    }
  }

  /** A freshly initialised storage holds no containers. */
  function Empty(): (s: Storage)
    ensures s.Count() == 0
  {
    Storage([])
  }

  /** Popping right after a push gives back exactly the stack before it. */
  lemma PushPopRestores(s: Storage, v: Value)
    ensures s.Push(v).Pop() == s
  {
    assert s.Push(v).Pop().containers == s.containers;
  }
}
