/**
 * `_bubble_down` exactly as the source writes it, kept beside the corrected
 * SiftDown of module HeapSpec. After a swap the source recomputes the smaller
 * child of the new index and reads its priority before the loop test checks
 * that a left child exists; on a node without children that read is past the
 * end of the list and raises IndexError. None stands for that failure.
 */
module AsWritten {
  import opened HeapSpec

  /** The first step, before the loop: no left child means nothing to do. */
  function BubbleDownAsWritten<T>(s: seq<Entry<T>>, idx: nat): (r: Option<seq<Entry<T>>>)
    ensures r.Some? ==> r.value == SiftDown(s, idx)
  {
    if Left(idx) >= |s| then Some(s)
    else
      var small := SmallerChild(s, idx);
      BubbleDownLoopAsWritten(s, idx, small)
  }

  /**
   * The while loop: test, swap, then choose the next smaller child and read
   * its priority. With no right child the left child is chosen without a
   * bounds test, so a leaf yields None.
   */
  function BubbleDownLoopAsWritten<T>(s: seq<Entry<T>>, idx: nat, small: nat): (r: Option<seq<Entry<T>>>)
    requires Left(idx) < |s| && small == SmallerChild(s, idx)
    ensures r.Some? ==> r.value == SiftDown(s, idx)
    decreases |s| - idx
  {
    if s[small].priority < s[idx].priority && Left(idx) < |s| then
      var t := Swap(s, idx, small);
      var i := small;
      if Right(i) >= |t| then
        if Left(i) < |t| then BubbleDownLoopAsWritten(t, i, Left(i))
        else None
      else
        BubbleDownLoopAsWritten(t, i, SmallerChild(t, i))
    else
      Some(s)
  }

  /**
   * The corrected sift-down from idx makes at least one swap and the entry
   * then sits on a node without children.
   */
  ghost predicate SinksOntoLeaf<T>(s: seq<Entry<T>>, idx: nat)
    decreases |s| - idx
  {
    Left(idx) < |s| &&
    var m := SmallerChild(s, idx);
    s[m].priority < s[idx].priority &&
    (Left(m) >= |s| || SinksOntoLeaf(Swap(s, idx, m), m))
  }

  /** The written code fails exactly when the sinking entry reaches a leaf after a swap. */
  lemma {:induction false} AsWrittenFailsIffSinksOntoLeaf<T>(s: seq<Entry<T>>, idx: nat)
    ensures BubbleDownAsWritten(s, idx) == None <==> SinksOntoLeaf(s, idx)
    decreases |s| - idx
  {
    if Left(idx) < |s| {
      var m := SmallerChild(s, idx);
      if s[m].priority < s[idx].priority {
        var t := Swap(s, idx, m);
        if Left(m) < |t| {
          AsWrittenFailsIffSinksOntoLeaf(t, m);
        }
      }
    }
  }

  /**
   * Popping from priorities [1, 2, 3]: the last entry 3 replaces the root,
   * leaving [3, 2]; 3 sinks to index 1, which has no children, and the
   * written loop fails where the corrected one returns [2, 3].
   */
  lemma PopFromThreeFails<T>(a: T, b: T, c: T)
    ensures BubbleDownAsWritten([Entry(3, c), Entry(2, b)], 0) == None
    ensures RemoveRoot([Entry(1, a), Entry(2, b), Entry(3, c)]) == [Entry(2, b), Entry(3, c)]
  {
    var s := [Entry(1, a), Entry(2, b), Entry(3, c)];
    var t := [Entry(3, c), Entry(2, b)];
    assert Swap(s, 0, 2)[..2] == t;
    assert SmallerChild(t, 0) == 1;
    var u := Swap(t, 0, 1);
    assert u == [Entry(2, b), Entry(3, c)];
    assert SiftDown(u, 1) == u;
    assert SiftDown(t, 0) == SiftDown(u, 1);
  }
}
