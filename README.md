# Verified model of an array-backed binary min-heap and its priority queue

This project models `priority_queue/priority_queue.py`: a `MinHeap` that keeps
`(priority, item)` entries in one list arranged as a complete binary tree (children
of index `i` at `2i+1` and `2i+2`, parent at `(i-1)//2`), and a `PriorityQueue`
that owns one heap and forwards every call to it.

Modules, one concern each:

- `HeapSpec` (`heap_spec.dfy`): the entry type, the tree indexing, the heap
  property, and the value-level meaning of every operation: `Swap`,
  `SmallerChild`, `SiftUp`, `SiftDown`, `Insert` (the result of `add`) and
  `RemoveRoot` (the result of a successful `pop_min`). It also holds the proofs:
  both sifts keep the multiset of entries, restore the heap property, and the
  root of a heap is a minimum. `Drain` describes repeated pops, and
  `DrainSortedPermutation` proves that they return every entry exactly once in
  non-decreasing order of priority.
- `MinHeaps` (`min_heap.dfy`): class `MinHeap<T>` with the list as a `seq` field
  that its methods reassign. `BubbleUp` and `BubbleDown` are `while` loops proved
  to compute `SiftUp` and `SiftDown`. `Add` and `PopMin` state the new storage,
  the new length, the new multiset of entries, the entry returned, and that the
  heap property still holds.
- `PriorityQueues` (`priority_queue.dfy`): class `PriorityQueue<T>` with a
  `const` field for its owned heap, and contracts that restate the heap's. Three
  client methods (with the helpers `AddThree`, `PopStrictlyLowest` and
  `StrictlyLowestIsTheMinimum`) check the documented scenarios from these
  contracts alone:
  `(5,a),(1,b),(3,c)` pops as `b, c, a` and then signals empty; two entries with
  equal priority both come out; a single entry comes back and leaves the queue
  empty.
- `AsWritten` (`as_written.dfy`): `_bubble_down` exactly as written, including
  the out-of-range read (see Findings).

Items are a type parameter `T` that is never inspected. Priorities are
unbounded `int`, like Python integers. Empty results are `Option.None`; the
source returns the string `"None"`.

The comment at `priority_queue/priority_queue.py:39` says that results are
`(item, priority)`. The code stores and returns `(priority, item)` (lines 43,
54, 59 and 65), and the model follows the code: `Entry(priority, item)`.

Two divergences from the code are deliberate, and the loop comments say so:

- `BubbleUp` tests `i != 0` before it reads the parent. At the root, the source
  computes parent `-1` and reads the last entry before its loop test stops it.
  That read is harmless.
- `BubbleDown` tests for a left child before it reads any child. The source
  does not (see Findings).

## Model

| member | source | states |
|---|---|---|
| HeapSpec.Parent | priority_queue/priority_queue.py:78 | the parent `(i-1)//2` of a non-root index is smaller, and `i` is its left or right child |
| HeapSpec.HeapIffParentsBelowChildren | priority_queue/priority_queue.py:15-21 | "every entry is no smaller than its parent" holds exactly when "every node is no greater than its children at `2i+1` and `2i+2`" |
| HeapSpec.RootBelow | priority_queue/priority_queue.py:15-16 | in a heap, every priority is at least the root's |
| HeapSpec.RootIsMinimum | priority_queue/priority_queue.py:15-16 | the root of a non-empty heap is stored and has minimum priority |
| HeapSpec.Swap | priority_queue/priority_queue.py:82 | swapping two indices exchanges those two entries, keeps every other entry and keeps the multiset |
| HeapSpec.SmallerChild | priority_queue/priority_queue.py:94-99 | the chosen child has the least priority among the existing children; it is the left child when there is no right child, and it is the right child only when the left priority is strictly greater, so ties go left |
| HeapSpec.SiftUp | priority_queue/priority_queue.py:77-86 | bubble-up keeps the length and the multiset of entries |
| HeapSpec.SiftUpStep | priority_queue/priority_queue.py:81-86 | one swap with a strictly greater parent moves the single heap violation one level up |
| HeapSpec.SiftUpRestoresHeap | priority_queue/priority_queue.py:77-86 | bubble-up from the only violating index gives a heap |
| HeapSpec.SiftDown | priority_queue/priority_queue.py:88-114 | bubble-down keeps the length and the multiset of entries |
| HeapSpec.SiftDownStep | priority_queue/priority_queue.py:102-106 | one swap with the smaller child, when that child is strictly less, moves the single heap violation one level down |
| HeapSpec.SiftDownRestoresHeap | priority_queue/priority_queue.py:88-114 | bubble-down from the only violating index gives a heap |
| HeapSpec.Insert | priority_queue/priority_queue.py:58-61 | `add` grows the contents by exactly the new entry. When the new slot's parent has priority no greater than the new entry's, nothing moves, so equal priorities are not swapped |
| HeapSpec.InsertKeepsHeap | priority_queue/priority_queue.py:58-61 | `add` on a heap gives a heap |
| HeapSpec.RemoveRoot | priority_queue/priority_queue.py:63-73 | a successful `pop_min` shrinks the contents by exactly the old root |
| HeapSpec.RemoveRootKeepsHeap | priority_queue/priority_queue.py:63-73 | `pop_min` on a non-empty heap gives a heap |
| HeapSpec.PopsNonDecreasing | priority_queue/priority_queue.py:63-73 | the next pop never returns a smaller priority than the previous one |
| HeapSpec.DrainSortedPermutation | priority_queue/priority_queue.py:63-73 | popping a heap until it is empty returns exactly the stored entries, in non-decreasing order of priority |
| HeapSpec.PrependMinimumKeepsSorted | priority_queue/priority_queue.py:63-73 | putting a minimum in front of a sorted drain of the rest keeps it sorted |
| MinHeaps.MinHeap.constructor | priority_queue/priority_queue.py:42-44 | a new heap is empty and satisfies the heap property |
| MinHeaps.MinHeap.Length | priority_queue/priority_queue.py:46-47 | the length is the number of stored entries |
| MinHeaps.MinHeap.IsEmpty | priority_queue/priority_queue.py:49-50 | true exactly when the length is 0, that is when no entry is stored |
| MinHeaps.MinHeap.Peek | priority_queue/priority_queue.py:52-56 | None exactly on an empty heap. Otherwise it returns `data[0]`, a stored entry of minimum priority. As a function it changes nothing |
| MinHeaps.MinHeap.Add | priority_queue/priority_queue.py:58-61 | the new storage is `Insert` of the old one: the length grows by one, the multiset gains exactly `(priority, item)`, and the heap property still holds |
| MinHeaps.MinHeap.PopMin | priority_queue/priority_queue.py:63-75 | on an empty heap it returns None and changes nothing. Otherwise it returns the old root, a minimum. The storage becomes `RemoveRoot` of the old one: one shorter, without exactly that entry, and still a heap |
| MinHeaps.MinHeap.BubbleUp | priority_queue/priority_queue.py:77-86 | the loop leaves the storage equal to `SiftUp` of the old storage |
| MinHeaps.MinHeap.BubbleDown | priority_queue/priority_queue.py:88-114 | the loop leaves the storage equal to `SiftDown` of the old storage |
| PriorityQueues.PriorityQueue.constructor | priority_queue/priority_queue.py:120-121 | the queue owns a fresh, empty heap |
| PriorityQueues.PriorityQueue.IsEmpty | priority_queue/priority_queue.py:123-124 | returns what the heap's `IsEmpty` returns: true exactly when no entry is stored |
| PriorityQueues.PriorityQueue.Add | priority_queue/priority_queue.py:126-127 | the heap's `Add` contract on the owned heap |
| PriorityQueues.PriorityQueue.Pop | priority_queue/priority_queue.py:129-130 | the heap's `PopMin` contract on the owned heap |
| PriorityQueues.PriorityQueue.Peek | priority_queue/priority_queue.py:132-133 | returns what the heap's `Peek` returns: None exactly when empty, otherwise the root, a minimum |
| PriorityQueues.PriorityQueue.Length | priority_queue/priority_queue.py:135-136 | returns the heap's length, the number of stored entries |
| AsWritten.BubbleDownAsWritten | priority_queue/priority_queue.py:88-101 | the written `_bubble_down` either fails or agrees with the corrected `SiftDown` |
| AsWritten.BubbleDownLoopAsWritten | priority_queue/priority_queue.py:102-114 | the written loop, including the unguarded read at line 113, either fails or agrees with `SiftDown` |
| AsWritten.AsWrittenFailsIffSinksOntoLeaf | priority_queue/priority_queue.py:102-114 | the written code fails exactly when the sinking entry reaches a node without children after at least one swap |
| AsWritten.PopFromThreeFails | priority_queue/priority_queue.py:63-114 | after popping from priorities `[1, 2, 3]`, the written bubble-down fails, while the corrected one leaves `[2, 3]` |

## Left out

- The string `"None"` returned for an empty heap (lines 56 and 75) is modelled as `Option.None`. A string sentinel could collide with a stored value.
- Python's negative indexing at the root in `_bubble_up` (lines 78-79 and 84-85) is not modelled. The model tests `i != 0` first. The value read there is never used.
- The `IndexError` at line 113 is modelled only in module `AsWritten`. `MinHeap.BubbleDown` uses the guarded loop.
- Dunder protocol and tuple packing: `__len__` is `Length()`, and the pair is the datatype `Entry`.
- The tutorial comments and links (lines 1-39) describe the code but add no behaviour.
- `PriorityQueue` ownership of its heap is expressed by `fresh(heap)` at construction and a `const` field. Aliasing by outside code is not modelled.

## Findings

| source | as written | input that shows it | evidently intended | confidence | as-written member | corrected member |
|---|---|---|---|---|---|---|
| priority_queue/priority_queue.py:107-113 | after a swap, the loop picks the next smaller child and reads its priority before the loop test checks that a left child exists. With no right child it takes the left index unchecked | `pop_min` on a heap holding priorities `[1, 2, 3]`: `[3, 2]` remains, 3 swaps to index 1, then index 3 of a two-entry list is read (`IndexError`) | stop when the entry reaches a node without children | high (not executed) | AsWritten.BubbleDownLoopAsWritten | HeapSpec.SiftDown |
