/**
 What cancelling does to the job queue, and whole runs of the queue
 (data_platform/scheduler/__init__.py, PriorityJobQueue and JobScheduler.cancel).

 cancel filters the heap array instead of removing from the heap.  It depends on the positions of the
 entries that stay whether the array is still a heap.
 */
module QueueRuns {
  import opened JobQueue
  import opened Positions
  import opened Wrappers

  // ----- when a cancelled heap is a heap -----

  /** Position a is k or one of its ancestors in the heap. */
  predicate Above(a: nat, k: nat) {
    a == k || (0 < k && Above(a, Parent(k)))
  }

  /** Every position that stays lands below one of its own ancestors. */
  predicate Spared(pos: seq<nat>) {
    forall k :: 0 < k < |pos| ==> Above(pos[Parent(k)], pos[k])
  }

  /** In a heap no entry precedes one above it. */
  lemma {:induction false} AboveComesFirst(h: seq<Entry>, a: nat, k: nat)
    requires IsHeap(h) && k < |h| && Above(a, k)
    ensures a <= k && !Before(h[k], h[a])
  {
    if a != k {
      AboveComesFirst(h, a, Parent(k));
      assert !Before(h[k], h[Parent(k)]);
    }
  }

  ghost predicate AreSurvivors(n: nat, pos: seq<nat>) {
    Increasing(pos) && forall k :: 0 <= k < |pos| ==> pos[k] < n
  }

  lemma SparedPickIsHeap(h: seq<Entry>, pos: seq<nat>)
    requires IsHeap(h) && AreSurvivors(|h|, pos) && Spared(pos)
    ensures IsHeap(Picked(h, pos))
  {
    forall k | 0 < k < |pos|
      ensures !Before(h[pos[k]], h[pos[Parent(k)]])
    {
      AboveComesFirst(h, pos[Parent(k)], pos[k]);
    }
  }

  lemma SparedStaysHeap(h: seq<Entry>, id: string)
    requires IsHeap(h) && Spared(Survivors(h, id))
    ensures IsHeap(Others(h, id))
  {
    SurvivorsFit(h, id);
    SparedPickIsHeap(h, Survivors(h, id));
  }

  /** An array that is less urgent from position a downwards; the positions in pos hold y, the others x. */
  function Tilted(n: nat, a: nat, pos: seq<nat>, x: JobDefinition, y: JobDefinition): (h: seq<Entry>)
    ensures |h| == n
    ensures forall j :: 0 <= j < n ==>
              h[j] == Entry(if Above(a, j) then 1 else 0, j + 1, if j in pos then y else x)
  {
    seq(n, (j: nat) => Entry(if Above(a, j) then 1 else 0, j + 1, if j in pos then y else x))
  }

  lemma TiltedIsHeap(n: nat, a: nat, pos: seq<nat>, x: JobDefinition, y: JobDefinition)
    ensures IsHeap(Tilted(n, a, pos, x, y))
  {
  }

  lemma TiltedSurvivors(n: nat, a: nat, pos: seq<nat>, x: JobDefinition, y: JobDefinition)
    requires Increasing(pos) && (forall k :: 0 <= k < |pos| ==> pos[k] < n) && x.id != y.id
    ensures Survivors(Tilted(n, a, pos, x, y), x.id) == pos
  {
    var h := Tilted(n, a, pos, x, y);
    var found := Survivors(h, x.id);
    SurvivorsFit(h, x.id);
    forall j: nat
      ensures j in found <==> j in pos
    {
      assert j < n ==> (h[j].job.id != x.id <==> j in pos);
    }
    SameMembers(found, pos);
  }

  /** The queue after the first n entries of h were put in the order of the array. */
  function Pushed(h: seq<Entry>, n: nat): seq<Entry>
    requires n <= |h|
  {
    if n == 0 then [] else HeapPush(Pushed(h, n - 1), h[n - 1])
  }

  lemma LastStays(h: seq<Entry>, e: Entry, r: seq<Entry>)
    requires r == h + [e] && (h == [] || !Before(e, h[Parent(|h|)]))
    ensures HeapPush(h, e) == r
  {
  }

  lemma NextStays(h: seq<Entry>, n: nat)
    requires IsHeap(h) && 0 < n <= |h|
    ensures HeapPush(h[..n - 1], h[n - 1]) == h[..n]
  {
    assert 0 < n - 1 ==> !Before(h[n - 1], h[Parent(n - 1)]);
    LastStays(h[..n - 1], h[n - 1], h[..n]);
  }

  /** Every heap is what putting its entries in array order builds. */
  lemma {:induction false} HeapIsBuiltByPuts(h: seq<Entry>, n: nat)
    requires IsHeap(h) && n <= |h|
    ensures Pushed(h, n) == h[..n]
  {
    if 0 < n {
      HeapIsBuiltByPuts(h, n - 1);
      NextStays(h, n);
    }
  }

  /** A heap, built by puts, that a cancellation with these survivors turns upside down at q: the entry
      at q precedes the one at a. */
  lemma TiltedFalls(n: nat, a: nat, q: nat, pos: seq<nat>, x: JobDefinition, y: JobDefinition)
    requires Increasing(pos) && (forall k :: 0 <= k < |pos| ==> pos[k] < n) && x.id != y.id
    requires a in pos && q in pos && !Above(a, q)
    ensures var h := Tilted(n, a, pos, x, y);
            IsHeap(h) && Pushed(h, n) == h && Survivors(h, x.id) == pos && Before(h[q], h[a])
  {
    TiltedIsHeap(n, a, pos, x, y);
    TiltedSurvivors(n, a, pos, x, y);
    var h := Tilted(n, a, pos, x, y);
    HeapIsBuiltByPuts(h, n);
    assert h[..n] == h;
  }

  function Job(id: string): JobDefinition {
    JobDefinition(id, "", "", 0, 0, 0.0, 0.0, true)
  }

  /** A cancellation that leaves these positions of a heap of n entries always leaves a heap. */
  ghost predicate AlwaysHeap(n: nat, pos: seq<nat>) {
    forall h: seq<Entry>, id: string :: |h| == n && IsHeap(h) && Survivors(h, id) == pos ==> IsHeap(Others(h, id))
  }

  /** Cancelling leaves a heap, for all heaps in which the same positions stay, exactly when each of
      these positions lands below one of its own ancestors. */
  lemma CancelKeepsHeapIff(n: nat, pos: seq<nat>)
    requires AreSurvivors(n, pos)
    ensures AlwaysHeap(n, pos) <==> Spared(pos)
  {
    if Spared(pos) {
      forall h: seq<Entry>, id: string | |h| == n && IsHeap(h) && Survivors(h, id) == pos
        ensures IsHeap(Others(h, id))
      {
        SparedStaysHeap(h, id);
      }
    } else {
      var k :| 0 < k < |pos| && !Above(pos[Parent(k)], pos[k]);
      var x, y := Job(""), Job("y");
      var h := Tilted(n, pos[Parent(k)], pos, x, y);
      TiltedFalls(n, pos[Parent(k)], pos[k], pos, x, y);
      assert Before(Others(h, x.id)[k], Others(h, x.id)[Parent(k)]);
    }
  }

  /** No entry that stays precedes the new front. */
  ghost predicate FrontIsLeast(h: seq<Entry>) {
    forall k :: 0 <= k < |h| ==> !Before(h[k], h[0])
  }

  ghost predicate AlwaysLeast(n: nat, pos: seq<nat>) {
    forall h: seq<Entry>, id: string :: |h| == n && IsHeap(h) && Survivors(h, id) == pos ==> FrontIsLeast(Others(h, id))
  }

  /** The next get is right, for all heaps in which the same positions stay, exactly when the first of
      these positions is an ancestor of all others; so always when the front is not cancelled. */
  lemma NextGetRightIff(n: nat, pos: seq<nat>)
    requires AreSurvivors(n, pos) && pos != []
    ensures AlwaysLeast(n, pos) <==> forall k :: 0 <= k < |pos| ==> Above(pos[0], pos[k])
    ensures pos[0] == 0 ==> AlwaysLeast(n, pos)
  {
    if pos[0] == 0 {
      forall k | 0 <= k < |pos| ensures Above(pos[0], pos[k]) { RootAbove(pos[k]); }
    }
    if forall k :: 0 <= k < |pos| ==> Above(pos[0], pos[k]) {
      forall h: seq<Entry>, id: string | |h| == n && IsHeap(h) && Survivors(h, id) == pos
        ensures FrontIsLeast(Others(h, id))
      {
        FirstAboveIsLeast(h, id);
      }
    } else {
      var k :| 0 <= k < |pos| && !Above(pos[0], pos[k]);
      var x, y := Job(""), Job("y");
      var h := Tilted(n, pos[0], pos, x, y);
      TiltedFalls(n, pos[0], pos[k], pos, x, y);
      assert Before(Others(h, x.id)[k], Others(h, x.id)[0]);
    }
  }

  lemma FirstAboveIsLeast(h: seq<Entry>, id: string)
    requires IsHeap(h) && Survivors(h, id) != []
    requires forall k :: 0 <= k < |Survivors(h, id)| ==> Above(Survivors(h, id)[0], Survivors(h, id)[k])
    ensures FrontIsLeast(Others(h, id))
  {
    var pos := Survivors(h, id);
    forall k | 0 <= k < |pos|
      ensures !Before(h[pos[k]], h[pos[0]])
    {
      AboveComesFirst(h, pos[0], pos[k]);
    }
  }

  lemma {:induction false} RootAbove(k: nat)
    ensures Above(0, k)
  {
    if 0 < k {
      RootAbove(Parent(k));
    }
  }

  // ----- whole runs -----

  datatype Op = Put(job: JobDefinition, prio: int) | Get | Cancel(id: string)

  /** The queue as its array and as a sorted sequence, with everything put in, taken out and cancelled
      so far. */
  datatype Log = Log(order: seq<Entry>, heap: seq<Entry>, put: seq<Entry>, got: seq<Entry>, cancelled: seq<Entry>)

  function Advance(s: Log, op: Op): Log {
    match op
    case Put(job, prio) =>
      var e := Entry(prio, |s.put| + 1, job);
      s.(order := Insert(s.order, e), heap := HeapPush(s.heap, e), put := s.put + [e])
    case Get =>
      if s.heap == [] then s
      else s.(order := Without(s.order, s.heap[0]), heap := HeapPop(s.heap), got := s.got + [s.heap[0]])
    case Cancel(id) =>
      s.(order := Others(s.order, id), heap := Others(s.heap, id),
         cancelled := s.cancelled + Matching(s.heap, id))
  }

  function RunOps(ops: seq<Op>): Log {
    if ops == [] then Log([], [], [], [], []) else Advance(RunOps(ops[..|ops| - 1]), ops[|ops| - 1])
  }

  /** Entries are numbered as they are put. */
  ghost predicate InOrder(put: seq<Entry>) {
    forall i :: 0 <= i < |put| ==> put[i].count == i + 1
  }

  /** Whatever was put is queued, was taken or was cancelled, once. */
  ghost predicate Conserved(s: Log) {
    && multiset(s.put) == multiset(s.heap) + multiset(s.got) + multiset(s.cancelled)
    && multiset(s.order) == multiset(s.heap) && InOrder(s.put)
  }

  lemma Accounted(s: Log, e: Entry)
    requires Conserved(s)
    ensures e in s.put <==> e in s.heap || e in s.got || e in s.cancelled
    ensures e in s.order <==> e in s.heap
  {
    assert e in s.put <==> e in multiset(s.put);
    assert e in s.heap <==> e in multiset(s.heap);
    assert e in s.order <==> e in multiset(s.order);
  }

  lemma QueuedEarlier(s: Log)
    requires Conserved(s)
    ensures forall i :: 0 <= i < |s.order| ==> s.order[i].count <= |s.put|
  {
    forall i | 0 <= i < |s.order|
      ensures s.order[i].count <= |s.put|
    {
      Accounted(s, s.order[i]);
    }
  }

  lemma OneMorePut(put: seq<Entry>, e: Entry)
    requires InOrder(put) && e.count == |put| + 1
    ensures InOrder(put + [e]) && multiset(put + [e]) == multiset(put) + multiset{e}
  {
  }

  lemma AddedOnce(heap: multiset<Entry>, got: multiset<Entry>, cancelled: multiset<Entry>, e: multiset<Entry>)
    ensures heap + got + cancelled + e == heap + e + got + cancelled
  {
  }

  lemma PutConserves(s: Log, job: JobDefinition, prio: int)
    requires Conserved(s) && Sorted(s.order)
    ensures Conserved(Advance(s, Put(job, prio))) && Sorted(Advance(s, Put(job, prio)).order)
  {
    var e := Entry(prio, |s.put| + 1, job);
    OneMorePut(s.put, e);
    QueuedEarlier(s);
    InsertSorts(s.order, e);
    AddedOnce(multiset(s.heap), multiset(s.got), multiset(s.cancelled), multiset{e});
  }

  lemma GetConserves(s: Log)
    requires Conserved(s) && Sorted(s.order)
    ensures Conserved(Advance(s, Get)) && Sorted(Advance(s, Get).order)
  {
    if s.heap != [] {
      PopKeepsEntries(s.heap);
      WithoutSorted(s.order, s.heap[0]);
      assert s.heap[0] in multiset(s.heap);
    }
  }

  lemma CancelConserves(s: Log, id: string)
    requires Conserved(s) && Sorted(s.order)
    ensures Conserved(Advance(s, Cancel(id))) && Sorted(Advance(s, Cancel(id)).order)
  {
    OthersAgree(s.order, s.heap, id);
    OthersCounts(s.heap, id);
    OthersSorted(s.order, id);
  }

  /** Over every run of puts, gets and cancels nothing is lost, duplicated or made up. */
  lemma {:induction false} RunConserves(ops: seq<Op>)
    ensures Conserved(RunOps(ops)) && Sorted(RunOps(ops).order)
  {
    if ops != [] {
      var s := RunOps(ops[..|ops| - 1]);
      RunConserves(ops[..|ops| - 1]);
      match ops[|ops| - 1] {
        case Put(job, prio) => PutConserves(s, job, prio);
        case Get => GetConserves(s);
        case Cancel(id) => CancelConserves(s, id);
      }
    }
  }

  /** Every cancel of the run spares the heap it meets. */
  ghost predicate SparingRun(ops: seq<Op>) {
    forall n :: 0 <= n < |ops| && ops[n].Cancel? ==> Spared(Survivors(RunOps(ops[..n]).heap, ops[n].id))
  }

  /** Nothing is taken before an entry put earlier that is at least as urgent, unless that was cancelled. */
  ghost predicate NotOvertaken(s: Log) {
    forall e, j :: e in s.put && 0 <= j < |s.got| && e.count < s.got[j].count && e.prio <= s.got[j].prio ==>
      e in s.got[..j] || e in s.cancelled
  }

  lemma PutKeepsFair(s: Log, job: JobDefinition, prio: int)
    requires Conserved(s) && IsHeap(s.heap) && NotOvertaken(s)
    ensures IsHeap(Advance(s, Put(job, prio)).heap) && NotOvertaken(Advance(s, Put(job, prio)))
  {
    var e := Entry(prio, |s.put| + 1, job);
    PushKeepsHeap(s.heap, e);
    forall f, j | f in s.put + [e] && 0 <= j < |s.got| && f.count < s.got[j].count && f.prio <= s.got[j].prio
      ensures f in s.got[..j] || f in s.cancelled
    {
      Accounted(s, s.got[j]);
      assert f in s.put;
    }
  }

  lemma GetKeepsFair(s: Log)
    requires Conserved(s) && Sorted(s.order) && IsHeap(s.heap) && NotOvertaken(s) && s.heap != []
    ensures IsHeap(Advance(s, Get).heap) && NotOvertaken(Advance(s, Get))
  {
    var f, got := s.heap[0], s.got + [s.heap[0]];
    PopKeepsHeap(s.heap);
    forall e, j | e in s.put && 0 <= j < |got| && e.count < got[j].count && e.prio <= got[j].prio
      ensures e in got[..j] || e in s.cancelled
    {
      if j < |s.got| {
        assert got[..j] == s.got[..j];
      } else {
        Accounted(s, e);
        assert got[..j] == s.got;
        if e in s.heap {
          var k :| 0 <= k < |s.heap| && s.heap[k] == e;
          RootIsLeast(s.heap, k);
        }
      }
    }
  }

  lemma CancelKeepsFair(s: Log, id: string)
    requires Conserved(s) && IsHeap(s.heap) && NotOvertaken(s) && Spared(Survivors(s.heap, id))
    ensures IsHeap(Advance(s, Cancel(id)).heap) && NotOvertaken(Advance(s, Cancel(id)))
  {
    SparedStaysHeap(s.heap, id);
  }

  /** In runs whose cancels spare the heap, and so in all runs without cancels, entries come out most
      urgent first and in the order of arrival within a priority. */
  lemma {:induction false} QueueRunIsFair(ops: seq<Op>)
    requires SparingRun(ops)
    ensures IsHeap(RunOps(ops).heap) && NotOvertaken(RunOps(ops))
  {
    if ops != [] {
      var last := |ops| - 1;
      var s := RunOps(ops[..last]);
      forall n | 0 <= n < last && ops[..last][n].Cancel?
        ensures Spared(Survivors(RunOps(ops[..last][..n]).heap, ops[..last][n].id))
      {
        assert ops[..last][..n] == ops[..n];
      }
      QueueRunIsFair(ops[..last]);
      RunConserves(ops[..last]);
      match ops[last] {
        case Put(job, prio) => PutKeepsFair(s, job, prio);
        case Get => if s.heap != [] { GetKeepsFair(s); }
        case Cancel(id) => CancelKeepsFair(s, id);
      }
    }
  }

  /** There each get takes the first of the sorted sequence. */
  lemma GetTakesFirst(ops: seq<Op>)
    requires SparingRun(ops) && RunOps(ops).heap != []
    ensures var s := RunOps(ops);
            s.order != [] && s.heap[0] == s.order[0] && Advance(s, Get).order == s.order[1..]
  {
    QueueRunIsFair(ops);
    RunConserves(ops);
    LeastIsFirst(RunOps(ops).order, RunOps(ops).heap);
  }

  // ----- the class follows the log -----

  ghost predicate Follows(queue: PriorityJobQueue, s: Log)
    reads queue
  {
    queue.Valid() && queue.heap == s.heap && queue.order == s.order && queue.counter == |s.put|
  }

  method DriveOne(queue: PriorityJobQueue, op: Op, ghost s: Log) returns (job: Option<JobDefinition>)
    requires Follows(queue, s)
    modifies queue
    ensures Follows(queue, Advance(s, op))
    ensures job == if op.Get? && s.heap != [] then Some(s.heap[0].job) else None
  {
    job := None;
    match op
    case Put(j, prio) => queue.Put(j, Some(prio));
    case Get => job := queue.Get();
    case Cancel(id) => queue.Cancel(id);
  }

  function JobsOf(entries: seq<Entry>): seq<JobDefinition> {
    seq(|entries|, k requires 0 <= k < |entries| => entries[k].job)
  }

  lemma OneMore(ops: seq<Op>, k: nat)
    requires k < |ops|
    ensures RunOps(ops[..k + 1]) == Advance(RunOps(ops[..k]), ops[k])
  {
    assert ops[..k + 1][..k] == ops[..k];
  }

  lemma JobsAppended(got: seq<Entry>, e: Entry)
    ensures JobsOf(got + [e]) == JobsOf(got) + [e.job]
  {
  }

  lemma JobsOneMore(s: Log, op: Op)
    ensures JobsOf(Advance(s, op).got)
         == JobsOf(s.got) + if op.Get? && s.heap != [] then [s.heap[0].job] else []
  {
    if op.Get? && s.heap != [] {
      JobsAppended(s.got, s.heap[0]);
    } else {
      assert Advance(s, op).got == s.got;
    }
  }

  /** Any run on a fresh queue returns the jobs that its log says were taken. */
  method Drive(ops: seq<Op>) returns (jobs: seq<JobDefinition>)
    ensures jobs == JobsOf(RunOps(ops).got)
  {
    jobs := [];
    var queue := new PriorityJobQueue();
    ghost var s := RunOps([]);
    for k := 0 to |ops|
      invariant fresh(queue) && Follows(queue, s)
      invariant s == RunOps(ops[..k]) && jobs == JobsOf(s.got)
    {
      OneMore(ops, k);
      JobsOneMore(s, ops[k]);
      var job := DriveOne(queue, ops[k], s);
      if job.Some? {
        jobs := jobs + [job.value];
      }
      s := Advance(s, ops[k]);
    }
    assert ops[..|ops|] == ops;
  }
}
