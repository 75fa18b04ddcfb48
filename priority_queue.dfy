/**
 * The PriorityQueue class: it owns one MinHeap for its whole lifetime and
 * forwards every call to it, so each contract here is the heap's contract
 * restated over the owned heap's storage.
 */
module PriorityQueues {
  import opened HeapSpec
  import opened MinHeaps

  class PriorityQueue<T> {
    /** The owned heap, `self.heap` in the source; it is never replaced. */
    const heap: MinHeap<T>

    ghost predicate Valid()
      reads this, heap
    {
      heap.Valid()
    }

    constructor ()
      ensures Valid() && fresh(heap) && heap.data == []
    {
      heap := new MinHeap();
    }

    function IsEmpty(): (b: bool)
      reads this, heap
      ensures b == heap.IsEmpty()
      ensures b <==> heap.data == []
    {
      heap.IsEmpty()
    }

    /** `__len__` */
    function Length(): (n: nat)
      reads this, heap
      ensures n == heap.Length()
      ensures n == |heap.data|
    {
      heap.Length()
    }

    function Peek(): (r: Option<Entry<T>>)
      reads this, heap
      requires Valid()
      ensures r == heap.Peek()
      ensures r == None <==> heap.data == []
      ensures r.Some? ==> r.value == heap.data[0] && IsMinimum(heap.data, r.value)
    {
      heap.Peek()
    }

    method Add(priority: int, item: T)
      requires Valid()
      modifies heap
      ensures Valid()
      ensures heap.data == Insert(old(heap.data), Entry(priority, item))
      ensures multiset(heap.data) == multiset(old(heap.data)) + multiset{Entry(priority, item)}
    {
      heap.Add(priority, item);
    }

    /** `pop`: forwards to `pop_min`. */
    method Pop() returns (r: Option<Entry<T>>)
      requires Valid()
      modifies heap
      ensures Valid()
      ensures old(heap.data) == [] ==> r == None && heap.data == old(heap.data)
      ensures old(heap.data) != [] ==>
        && r == Some(old(heap.data)[0])
        && IsMinimum(old(heap.data), r.value)
        && heap.data == RemoveRoot(old(heap.data))
        && multiset(heap.data) == multiset(old(heap.data)) - multiset{r.value}
    {
      r := heap.PopMin();
    }
  }

  /** When one stored entry has a strictly lower priority than every other, it is the only minimum. */
  lemma StrictlyLowestIsTheMinimum<T>(s: seq<Entry<T>>, e: Entry<T>, x: Entry<T>)
    requires IsMinimum(s, e) && x in multiset(s)
    requires forall y :: y in multiset(s) && y != x ==> x.priority < y.priority
    ensures e == x
  {
    assert e in multiset(s);
    var k :| 0 <= k < |s| && s[k] == x;
  }

  /** A pop from a queue whose strictly lowest entry is x returns x, as the contract of Pop alone shows. */
  method PopStrictlyLowest<T>(q: PriorityQueue<T>, x: Entry<T>) returns (r: Option<Entry<T>>)
    requires q.Valid() && x in multiset(q.heap.data)
    requires forall y :: y in multiset(q.heap.data) && y != x ==> x.priority < y.priority
    modifies q.heap
    ensures q.Valid() && r == Some(x)
    ensures multiset(q.heap.data) == multiset(old(q.heap.data)) - multiset{x}
  {
    ghost var before := q.heap.data;
    r := q.Pop();
    StrictlyLowestIsTheMinimum(before, r.value, x);
  }

  /** A queue after add(5, a), add(1, b), add(3, c), described by its contents only. */
  method AddThree(a: string, b: string, c: string) returns (q: PriorityQueue<string>)
    ensures fresh(q.heap) && q.Valid() && q.Length() == 3
    ensures multiset(q.heap.data) == multiset{Entry(5, a), Entry(1, b), Entry(3, c)}
  {
    q := new PriorityQueue<string>();
    q.Add(5, a);
    q.Add(1, b);
    q.Add(3, c);
  }

  /** Three entries with distinct priorities come out lowest priority first, then the queue is empty. */
  method ScenarioDistinctPriorities(a: string, b: string, c: string)
  {
    var q := AddThree(a, b, c);
    var r := PopStrictlyLowest(q, Entry(1, b));
    assert multiset(q.heap.data) == multiset{Entry(5, a), Entry(3, c)};
    r := PopStrictlyLowest(q, Entry(3, c));
    assert multiset(q.heap.data) == multiset{Entry(5, a)};
    r := PopStrictlyLowest(q, Entry(5, a));
    assert q.IsEmpty() && q.Peek() == None;
    r := q.Pop();
    assert r == None;
  }

  /** Two entries with equal priorities both come out, each exactly once. */
  method ScenarioEqualPriorities(x: string, y: string)
  {
    var q := new PriorityQueue<string>();
    q.Add(2, x);
    q.Add(2, y);
    var r1 := q.Pop();
    var r2 := q.Pop();
    assert r1.Some? && r2.Some?;
    assert multiset{r1.value, r2.value} == multiset{Entry(2, x), Entry(2, y)};
    assert q.IsEmpty();
  }

  /** A single entry is popped back and leaves the queue empty; peek twice gives the same answer. */
  method ScenarioSingleEntry(only: string)
  {
    var q := new PriorityQueue<string>();
    q.Add(7, only);
    var p1 := q.Peek();
    var p2 := q.Peek();
    assert p1 == p2 == Some(Entry(7, only)) && q.Length() == 1;
    var r := q.Pop();
    assert r == Some(Entry(7, only));
    assert q.IsEmpty() && q.Length() == 0;
  }
}
