/**
 * The MinHeap class: a growable list of (priority, item) entries changed in
 * place by append, pop and index swaps. Each mutating method is proved to
 * compute the matching value-level function of module HeapSpec, and to keep
 * the heap property.
 */
module MinHeaps {
  import opened HeapSpec

  class MinHeap<T> {
    /** The heap storage, `self.data` in the source. */
    var data: seq<Entry<T>>

    ghost predicate Valid()
      reads this
    {
      IsHeap(data)
    }

    constructor ()
      ensures Valid() && data == []
    {
      data := [];
    }

    /** `__len__`: the number of stored entries. */
    function Length(): (n: nat)
      reads this
      ensures n == |multiset(data)|
    {
      |data|
    }

    /** `is_empty`: the length is 0, that is, nothing is stored. */
    function IsEmpty(): (b: bool)
      reads this
      ensures b <==> Length() == 0
      ensures b <==> multiset(data) == multiset{}
    {
      |data| == 0
    }

    /** The root without removing it, or None on an empty heap. */
    function Peek(): (r: Option<Entry<T>>)
      reads this
      requires Valid()
      ensures r == None <==> |data| == 0
      ensures r.Some? ==> r.value == data[0] && IsMinimum(data, r.value)
    {
      if |data| > 0 then
        RootIsMinimum(data);
        Some(data[0])
      else
        None
    }

    method Add(priority: int, item: T)
      requires Valid()
      modifies this
      ensures Valid()
      ensures data == Insert(old(data), Entry(priority, item))
      ensures |data| == |old(data)| + 1
      ensures multiset(data) == multiset(old(data)) + multiset{Entry(priority, item)}
    {
      InsertKeepsHeap(data, Entry(priority, item));
      data := data + [Entry(priority, item)];
      BubbleUp(|data| - 1);
    }

    /**
     * Removes and returns a minimum-priority entry (the root), or returns
     * None and changes nothing on an empty heap.
     */
    method PopMin() returns (r: Option<Entry<T>>)
      requires Valid()
      modifies this
      ensures Valid()
      ensures old(data) == [] ==> r == None && data == old(data)
      ensures old(data) != [] ==>
        && r == Some(old(data)[0])
        && IsMinimum(old(data), r.value)
        && data == RemoveRoot(old(data))
        && |data| == |old(data)| - 1
        && multiset(data) == multiset(old(data)) - multiset{r.value}
    {
      if |data| == 0 {
        return None;
      }
      RootIsMinimum(data);
      RemoveRootKeepsHeap(data);
      var root := data[0];
      if |data| == 1 {
        data := [];
        return Some(root);
      }
      data := Swap(data, 0, |data| - 1);
      data := data[..|data| - 1];
      BubbleDown(0);
      r := Some(root);
    }

    /**
     * `_bubble_up`: swaps the entry at idx with its parent while the parent's
     * priority is strictly greater. The root test comes first, so the parent
     * of index 0 is never read (the source computes it as -1 and reads the
     * last entry before the loop test stops it).
     */
    method BubbleUp(idx: nat)
      requires idx < |data|
      modifies this
      ensures data == SiftUp(old(data), idx)
    {
      var i: nat := idx;
      while i != 0 && data[Parent(i)].priority > data[i].priority
        invariant i < |data|
        invariant SiftUp(data, i) == SiftUp(old(data), idx)
        decreases i
      {
        var parent := Parent(i);
        data := Swap(data, i, parent);
        i := parent;
      }
    }

    /**
     * `_bubble_down`: swaps the entry at idx with its smaller child while that
     * child's priority is strictly less. The test for a left child comes
     * before any child is read; the source, after a swap, reads the child of
     * the new index before that test and fails on a leaf (see module AsWritten).
     */
    method BubbleDown(idx: nat)
      modifies this
      ensures data == SiftDown(old(data), idx)
    {
      var i: nat := idx;
      while Left(i) < |data| && data[SmallerChild(data, i)].priority < data[i].priority
        invariant SiftDown(data, i) == SiftDown(old(data), idx)
        decreases |data| - i
      {
        var small := SmallerChild(data, i);
        data := Swap(data, i, small);
        i := small;
      }
    }
  }
}
