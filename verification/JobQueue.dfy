/**
 The scheduler's priority queue (data_platform/scheduler/__init__.py, PriorityJobQueue): the array
 heap of (priority, insertion number, job) refines a sorted sequence.
 */
module JobQueue {
  import opened Positions
  import opened Wrappers

  datatype JobDefinition = JobDefinition(
    id: string,
    connector: string,
    entityType: string,
    priority: int,
    maxRetries: int,
    backoffBase: real,
    timeout: real,
    enabled: bool)

  datatype Entry = Entry(prio: int, count: nat, job: JobDefinition)

  /** Tuple order; insertion numbers are distinct, so jobs are never compared. */
  predicate Before(a: Entry, b: Entry) {
    a.prio < b.prio || (a.prio == b.prio && a.count < b.count)
  }

  // ----- heapq -----

  function Parent(k: nat): (p: nat)
    requires 0 < k
    ensures p < k && (k == 2 * p + 1 || k == 2 * p + 2)
  {
    (k - 1) / 2
  }

  /** No entry precedes its parent, except perhaps the one at position k. */
  ghost predicate HeapBut(h: seq<Entry>, k: nat) {
    forall j :: 0 < j < |h| && j != k ==> !Before(h[j], h[Parent(j)])
  }

  ghost predicate IsHeap(h: seq<Entry>) {
    forall j :: 0 < j < |h| ==> !Before(h[j], h[Parent(j)])
  }

  /** No child of k precedes the parent of k. */
  ghost predicate Bridged(h: seq<Entry>, k: nat) {
    forall j :: 0 < j < |h| && Parent(j) == k && 0 < k < |h| ==> !Before(h[j], h[Parent(k)])
  }

  /** Nothing out of place except around position k. */
  ghost predicate HeapAround(h: seq<Entry>, k: nat) {
    && (forall j :: 0 < j < |h| && j != k && Parent(j) != k ==> !Before(h[j], h[Parent(j)]))
    && Bridged(h, k)
  }

  function Swap(h: seq<Entry>, i: nat, j: nat): (r: seq<Entry>)
    requires i < |h| && j < |h|
    ensures |r| == |h| && multiset(r) == multiset(h)
  {
    h[i := h[j]][j := h[i]]
  }

  /** Moves the entry at k up to its place. */
  function SiftUp(h: seq<Entry>, k: nat): (r: seq<Entry>)
    requires k < |h|
    decreases k
    ensures |r| == |h| && multiset(r) == multiset(h)
  {
    if k == 0 || !Before(h[k], h[Parent(k)]) then h
    else SiftUp(Swap(h, k, Parent(k)), Parent(k))
  }

  /** Moves the entry at k down to a leaf along the lesser children, and from there up. */
  function SiftDown(h: seq<Entry>, k: nat): (r: seq<Entry>)
    requires k < |h|
    decreases |h| - k
    ensures |r| == |h| && multiset(r) == multiset(h)
  {
    if |h| <= 2 * k + 1 then SiftUp(h, k)
    else SiftDown(Swap(h, k, LesserChild(h, k)), LesserChild(h, k))
  }

  function LesserChild(h: seq<Entry>, k: nat): (c: nat)
    requires 2 * k + 1 < |h|
    ensures k < c < |h| && Parent(c) == k
    ensures forall j :: 0 < j < |h| && Parent(j) == k ==> !Before(h[j], h[c])
  {
    if 2 * k + 2 < |h| && !Before(h[2 * k + 1], h[2 * k + 2]) then 2 * k + 2 else 2 * k + 1
  }

  lemma SwapUp(h: seq<Entry>, k: nat)
    requires 0 < k < |h| && HeapBut(h, k) && Bridged(h, k) && Before(h[k], h[Parent(k)])
    ensures HeapBut(Swap(h, k, Parent(k)), Parent(k)) && Bridged(Swap(h, k, Parent(k)), Parent(k))
  {
    var p := Parent(k);
    var r := Swap(h, k, p);
    forall j | 0 < j < |r| && j != p
      ensures !Before(r[j], r[Parent(j)])
    {
      assert !Before(h[j], h[Parent(j)]) || j == k;
    }
    forall j | 0 < j < |r| && Parent(j) == p && 0 < p
      ensures !Before(r[j], r[Parent(p)])
    {
      assert !Before(h[p], h[Parent(p)]);
    }
  }

  lemma {:induction false} SiftUpRestores(h: seq<Entry>, k: nat)
    requires k < |h| && HeapBut(h, k) && Bridged(h, k)
    decreases k
    ensures IsHeap(SiftUp(h, k))
  {
    if k != 0 && Before(h[k], h[Parent(k)]) {
      SwapUp(h, k);
      SiftUpRestores(Swap(h, k, Parent(k)), Parent(k));
    }
  }

  lemma SwapDown(h: seq<Entry>, k: nat)
    requires 2 * k + 1 < |h| && HeapAround(h, k)
    ensures HeapAround(Swap(h, k, LesserChild(h, k)), LesserChild(h, k))
  {
    var c := LesserChild(h, k);
    var r := Swap(h, k, c);
    forall j | 0 < j < |r| && j != c && Parent(j) != c
      ensures !Before(r[j], r[Parent(j)])
    {
      if j == k {
        assert !Before(h[c], h[Parent(k)]);
      } else if Parent(j) == k {
      } else {
        assert !Before(h[j], h[Parent(j)]);
      }
    }
    forall j | 0 < j < |r| && Parent(j) == c
      ensures !Before(r[j], r[Parent(c)])
    {
      assert !Before(h[j], h[c]);
    }
  }

  lemma {:induction false} SiftDownRestores(h: seq<Entry>, k: nat)
    requires k < |h| && HeapAround(h, k)
    decreases |h| - k
    ensures IsHeap(SiftDown(h, k))
  {
    if |h| <= 2 * k + 1 {
      SiftUpRestores(h, k);
    } else {
      SwapDown(h, k);
      SiftDownRestores(Swap(h, k, LesserChild(h, k)), LesserChild(h, k));
    }
  }

  function HeapPush(h: seq<Entry>, e: Entry): (r: seq<Entry>)
    ensures multiset(r) == multiset(h) + multiset{e}
  {
    SiftUp(h + [e], |h|)
  }

  /** What is left after the root is taken: the last entry goes in its place. */
  function HeapPop(h: seq<Entry>): (r: seq<Entry>)
    requires h != []
    ensures |r| == |h| - 1
  {
    var last := |h| - 1;
    if last == 0 then [] else SiftDown(h[..last][0 := h[last]], 0)
  }

  lemma PushKeepsHeap(h: seq<Entry>, e: Entry)
    requires IsHeap(h)
    ensures IsHeap(HeapPush(h, e))
  {
    SiftUpRestores(h + [e], |h|);
  }

  lemma PopKeepsEntries(h: seq<Entry>)
    requires h != []
    ensures multiset(HeapPop(h)) == multiset(h) - multiset{h[0]}
  {
    var last := |h| - 1;
    assert h == h[..last] + [h[last]];
    if last > 0 {
      assert multiset(h[..last][0 := h[last]]) == multiset(h[..last]) - multiset{h[0]} + multiset{h[last]};
    }
  }

  lemma LastInFront(h: seq<Entry>)
    requires 1 < |h| && IsHeap(h)
    ensures HeapAround(h[..|h| - 1][0 := h[|h| - 1]], 0)
  {
    var rest := h[..|h| - 1][0 := h[|h| - 1]];
    forall j | 0 < j < |rest| && j != 0 && Parent(j) != 0
      ensures !Before(rest[j], rest[Parent(j)])
    {
      assert rest[j] == h[j] && rest[Parent(j)] == h[Parent(j)];
    }
  }

  lemma PopKeepsHeap(h: seq<Entry>)
    requires h != [] && IsHeap(h)
    ensures IsHeap(HeapPop(h))
  {
    if 1 < |h| {
      LastInFront(h);
      SiftDownRestores(h[..|h| - 1][0 := h[|h| - 1]], 0);
    }
  }

  /** The root of a heap is its least entry. */
  lemma {:induction false} RootIsLeast(h: seq<Entry>, k: nat)
    requires IsHeap(h) && k < |h|
    ensures !Before(h[k], h[0])
  {
    if 0 < k {
      RootIsLeast(h, Parent(k));
    }
  }

  // ----- the queue as a sorted sequence -----

  ghost predicate Sorted(q: seq<Entry>) {
    forall i, j :: 0 <= i < j < |q| ==> Before(q[i], q[j])
  }

  /** Queues an entry behind everything it does not precede. */
  function Insert(q: seq<Entry>, e: Entry): (r: seq<Entry>)
    ensures multiset(r) == multiset(q) + multiset{e}
  {
    if q == [] then [e]
    else if Before(e, q[0]) then [e] + q
    else
      assert q == [q[0]] + q[1..];
      [q[0]] + Insert(q[1..], e)
  }

  function Without(q: seq<Entry>, e: Entry): (r: seq<Entry>)
    ensures multiset(r) == multiset(q) - multiset{e}
    ensures forall x :: x in r ==> x in q
  {
    if q == [] then []
    else
      assert q == [q[0]] + q[1..];
      if q[0] == e then q[1..] else [q[0]] + Without(q[1..], e)
  }

  /** Whether an entry is of the job, or of another one. */
  predicate Fits(e: Entry, id: string, other: bool) {
    e.job.id != id <==> other
  }

  /** The positions below n of the entries of one job, or of all other jobs. */
  function PositionsUpTo(q: seq<Entry>, id: string, other: bool, n: nat): (pos: seq<nat>)
    requires n <= |q|
    ensures forall k :: 0 <= k < |pos| ==> pos[k] < n
  {
    if n == 0 then []
    else PositionsUpTo(q, id, other, n - 1) + if Fits(q[n - 1], id, other) then [n - 1] else []
  }

  lemma {:induction false} PositionsFit(q: seq<Entry>, id: string, other: bool, n: nat)
    requires n <= |q|
    ensures Increasing(PositionsUpTo(q, id, other, n))
    ensures forall j: nat :: j in PositionsUpTo(q, id, other, n) <==> j < n && Fits(q[j], id, other)
  {
    if 0 < n {
      var pos := PositionsUpTo(q, id, other, n - 1);
      PositionsFit(q, id, other, n - 1);
      OnePositionMore(pos, n - 1);
      assert pos + [] == pos;
    }
  }

  /** The positions of the entries of other jobs. */
  function Survivors(q: seq<Entry>, id: string): (pos: seq<nat>)
    ensures forall k :: 0 <= k < |pos| ==> pos[k] < |q|
  {
    PositionsUpTo(q, id, true, |q|)
  }

  lemma SurvivorsFit(q: seq<Entry>, id: string)
    ensures Increasing(Survivors(q, id))
    ensures forall j: nat :: j in Survivors(q, id) <==> j < |q| && q[j].job.id != id
  {
    PositionsFit(q, id, true, |q|);
  }

  /** The entries at the given positions. */
  function Picked(q: seq<Entry>, pos: seq<nat>): (r: seq<Entry>)
    requires forall k :: 0 <= k < |pos| ==> pos[k] < |q|
    ensures |r| == |pos| && forall k :: 0 <= k < |pos| ==> r[k] == q[pos[k]]
  {
    seq(|pos|, k requires 0 <= k < |pos| => q[pos[k]])
  }

  /** The entries of the jobs with another id, in order. */
  function Others(q: seq<Entry>, id: string): seq<Entry> {
    Picked(q, Survivors(q, id))
  }

  /** The entries of one job, in order. */
  function Matching(q: seq<Entry>, id: string): seq<Entry> {
    Picked(q, PositionsUpTo(q, id, false, |q|))
  }

  lemma CountMore(s: seq<Entry>, x: Entry, e: Entry)
    ensures multiset(s + [x])[e] == multiset(s)[e] + if x == e then 1 else 0
  {
  }

  lemma PrefixCount(q: seq<Entry>, n: nat, e: Entry)
    requires 0 < n <= |q|
    ensures multiset(q[..n])[e] == multiset(q[..n - 1])[e] + if q[n - 1] == e then 1 else 0
  {
    assert q[..n] == q[..n - 1] + [q[n - 1]];
    CountMore(q[..n - 1], q[n - 1], e);
  }

  lemma PickedMore(q: seq<Entry>, pos: seq<nat>, last: nat)
    requires (forall k :: 0 <= k < |pos| ==> pos[k] < |q|) && last < |q|
    ensures Picked(q, pos + [last]) == Picked(q, pos) + [q[last]]
  {
  }

  function CountUpTo(q: seq<Entry>, id: string, other: bool, n: nat, e: Entry): nat
    requires n <= |q|
  {
    multiset(Picked(q, PositionsUpTo(q, id, other, n)))[e]
  }

  lemma CountStep(q: seq<Entry>, id: string, other: bool, n: nat, e: Entry)
    requires 0 < n <= |q|
    ensures CountUpTo(q, id, other, n, e)
         == CountUpTo(q, id, other, n - 1, e) + if q[n - 1] == e && Fits(e, id, other) then 1 else 0
  {
    var pos := PositionsUpTo(q, id, other, n - 1);
    if Fits(q[n - 1], id, other) {
      PickedMore(q, pos, n - 1);
      CountMore(Picked(q, pos), q[n - 1], e);
    } else {
      assert pos + [] == pos;
    }
  }

  lemma {:induction false} CountsUpTo(q: seq<Entry>, id: string, other: bool, n: nat, e: Entry)
    requires n <= |q|
    ensures CountUpTo(q, id, other, n, e) == if Fits(e, id, other) then multiset(q[..n])[e] else 0
  {
    if 0 < n {
      CountsUpTo(q, id, other, n - 1, e);
      CountStep(q, id, other, n, e);
      PrefixCount(q, n, e);
    }
  }

  lemma OthersCount(q: seq<Entry>, id: string, e: Entry)
    ensures multiset(Others(q, id))[e] == if e.job.id == id then 0 else multiset(q)[e]
    ensures multiset(Matching(q, id))[e] == if e.job.id == id then multiset(q)[e] else 0
  {
    assert q[..|q|] == q;
    CountsUpTo(q, id, true, |q|, e);
    CountsUpTo(q, id, false, |q|, e);
  }

  /** Between them the two hold every entry, once. */
  lemma OthersCounts(q: seq<Entry>, id: string)
    ensures multiset(Matching(q, id)) + multiset(Others(q, id)) == multiset(q)
    ensures multiset(Others(q, id)) <= multiset(q)
  {
    forall e
      ensures (multiset(Matching(q, id)) + multiset(Others(q, id)))[e] == multiset(q)[e]
      ensures multiset(Others(q, id))[e] <= multiset(q)[e]
    {
      OthersCount(q, id, e);
    }
  }

  lemma {:induction false} InsertSorts(q: seq<Entry>, e: Entry)
    requires Sorted(q) && forall i :: 0 <= i < |q| ==> q[i].count < e.count
    ensures Sorted(Insert(q, e))
  {
    if q != [] && !Before(e, q[0]) {
      InsertSorts(q[1..], e);
      var r := Insert(q[1..], e);
      forall i | 0 <= i < |r|
        ensures Before(q[0], r[i])
      {
        assert r[i] in multiset(r);
        assert r[i] == e || r[i] in q[1..];
      }
    }
  }

  lemma {:induction false} WithoutSorted(q: seq<Entry>, e: Entry)
    requires Sorted(q)
    ensures Sorted(Without(q, e))
  {
    if q != [] && q[0] != e {
      WithoutSorted(q[1..], e);
      var r := Without(q[1..], e);
      assert forall i :: 0 <= i < |r| ==> r[i] in q[1..];
    }
  }

  lemma OthersSorted(q: seq<Entry>, id: string)
    requires Sorted(q)
    ensures Sorted(Others(q, id))
  {
    SurvivorsFit(q, id);
  }

  lemma OthersAgree(q: seq<Entry>, h: seq<Entry>, id: string)
    requires multiset(q) == multiset(h)
    ensures multiset(Others(q, id)) == multiset(Others(h, id))
  {
    forall e
      ensures multiset(Others(q, id))[e] == multiset(Others(h, id))[e]
    {
      OthersCount(q, id, e);
      OthersCount(h, id, e);
    }
  }

  ghost predicate Numbered(q: seq<Entry>, n: nat) {
    forall i :: 0 <= i < |q| ==> q[i].count <= n
  }

  lemma FewerNumbered(q: seq<Entry>, r: seq<Entry>, n: nat)
    requires Numbered(q, n) && forall x :: x in r ==> x in q
    ensures Numbered(r, n)
  {
    forall i | 0 <= i < |r|
      ensures r[i].count <= n
    {
      assert r[i] in q;
    }
  }

  lemma OthersNumbered(q: seq<Entry>, id: string, n: nat)
    requires Numbered(q, n)
    ensures Numbered(Others(q, id), n)
  {
  }

  lemma InsertNumbered(q: seq<Entry>, e: Entry, n: nat)
    requires Numbered(q, n) && e.count <= n
    ensures Numbered(Insert(q, e), n)
  {
    var r := Insert(q, e);
    forall i | 0 <= i < |r|
      ensures r[i].count <= n
    {
      assert r[i] in multiset(r);
      assert r[i] == e || r[i] in q;
    }
  }

  /** The least entry of a sorted sequence is its first. */
  lemma LeastIsFirst(q: seq<Entry>, h: seq<Entry>)
    requires Sorted(q) && IsHeap(h) && multiset(q) == multiset(h) && h != []
    ensures q != [] && q[0] == h[0] && Without(q, h[0]) == q[1..]
  {
    assert h[0] in multiset(q);
    assert q[0] in multiset(h);
    var k :| 0 <= k < |h| && h[k] == q[0];
    RootIsLeast(h, k);
    assert q[0] == h[0];
  }

  /** The priority a job is queued under. */
  function Urgency(job: JobDefinition, priority: Option<int>): int {
    if priority == None then job.priority else priority.value
  }

  class PriorityJobQueue {
    var heap: seq<Entry>
    var counter: nat
    ghost var order: seq<Entry>   // the entries, most urgent first

    ghost predicate Valid()
      reads this
    {
      Sorted(order) && multiset(order) == multiset(heap) && Numbered(order, counter)
    }

    constructor ()
      ensures Valid() && heap == [] && order == [] && counter == 0
    {
      heap, counter, order := [], 0, [];
    }

    method Put(job: JobDefinition, priority: Option<int>)
      requires Valid()
      modifies this
      ensures Valid() && (old(IsHeap(heap)) ==> IsHeap(heap))
      ensures counter == old(counter) + 1
      ensures var prio := if priority.Some? then priority.value else job.priority;
              && order == Insert(old(order), Entry(prio, counter, job))
              && heap == HeapPush(old(heap), Entry(prio, counter, job))
    {
      var prio := Urgency(job, priority);
      counter := counter + 1;
      var e := Entry(prio, counter, job);
      if IsHeap(heap) {
        PushKeepsHeap(heap, e);
      }
      InsertSorts(order, e);
      InsertNumbered(order, e, counter);
      heap := HeapPush(heap, e);
      order := Insert(order, e);
    }

    /** Takes the front of the heap array: the most urgent entry, while the array is a heap. */
    method Get() returns (job: Option<JobDefinition>)
      requires Valid()
      modifies `heap, `order
      ensures Valid() && (old(IsHeap(heap)) ==> IsHeap(heap))
      ensures job == None <==> old(order) == []
      ensures old(order) == [] <==> old(heap) == []
      ensures heap == if old(heap) == [] then [] else HeapPop(old(heap))
      ensures old(order) == [] ==> order == []
      ensures old(order) != [] ==> old(heap) != [] && job == Some(old(heap)[0].job)
                                   && order == Without(old(order), old(heap)[0])
      ensures old(order) != [] && old(IsHeap(heap)) ==> job == Some(old(order)[0].job) && order == old(order)[1..]
    {
      assert |multiset(heap)| == |multiset(order)|;
      if heap == [] {
        return None;
      }
      var e := heap[0];
      job := Some(e.job);
      if IsHeap(heap) {
        LeastIsFirst(order, heap);
        PopKeepsHeap(heap);
      }
      PopKeepsEntries(heap);
      WithoutSorted(order, e);
      FewerNumbered(order, Without(order, e), counter);
      heap := HeapPop(heap);
      order := Without(order, e);
    }

    method Peek() returns (job: Option<JobDefinition>)
      requires Valid()
      ensures job == None <==> order == []
      ensures order != [] ==> heap != [] && job == Some(heap[0].job)
      ensures IsHeap(heap) && order != [] ==> job == Some(order[0].job)
    {
      assert |multiset(heap)| == |multiset(order)|;
      if heap == [] {
        return None;
      }
      job := Some(heap[0].job);
      if IsHeap(heap) {
        LeastIsFirst(order, heap);
      }
    }

    /** Drops exactly the entries of one job, from the array as it stands. */
    method Cancel(id: string)
      requires Valid()
      modifies `heap, `order
      ensures Valid()
      ensures heap == Others(old(heap), id) && order == Others(old(order), id)
    {
      OthersSorted(order, id);
      OthersAgree(order, heap, id);
      OthersNumbered(order, id, counter);
      heap := Others(heap, id);
      order := Others(order, id);
    }
  }
}
