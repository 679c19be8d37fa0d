/**
 The order in which the job queue gives its entries from any array on
 (data_platform/scheduler/__init__.py, PriorityJobQueue and JobScheduler.cancel).

 From a heap every later get takes the most urgent entry.  From any other array some run of puts and
 gets takes an entry out of order, so a cancel does no harm exactly when it leaves a heap.
 */
module QueueOrder {
  import opened JobQueue
  import opened Positions
  import opened QueueRuns

  // ----- runs from a given array -----

  datatype Queue = Queue(heap: seq<Entry>, counter: nat)

  /** The array that a get leaves. */
  function Popped(h: seq<Entry>): seq<Entry> {
    if h == [] then [] else HeapPop(h)
  }

  /** The array and the insertion number after one call. */
  function Called(q: Queue, op: Op): Queue {
    match op
    case Put(job, prio) => Queue(HeapPush(q.heap, Entry(prio, q.counter + 1, job)), q.counter + 1)
    case Get => q.(heap := Popped(q.heap))
    case Cancel(id) => q.(heap := Others(q.heap, id))
  }

  /** What a run makes of an array and an insertion number. */
  function Go(q: Queue, ops: seq<Op>): Queue {
    if ops == [] then q else Called(Go(q, ops[..|ops| - 1]), ops[|ops| - 1])
  }

  ghost predicate PutsAndGets(ops: seq<Op>) {
    forall i :: 0 <= i < |ops| ==> !ops[i].Cancel?
  }

  /** Whatever is put and taken from here on, the front is the most urgent entry. */
  ghost predicate AlwaysInOrder(q: Queue) {
    forall ops :: PutsAndGets(ops) ==> FrontIsLeast(Go(q, ops).heap)
  }

  lemma GoStep(q: Queue, ops: seq<Op>, op: Op)
    ensures Go(q, ops + [op]) == Called(Go(q, ops), op)
  {
    assert (ops + [op])[..|ops|] == ops;
  }

  function Logged(s: Log): Queue {
    Queue(s.heap, |s.put|)
  }

  lemma LogStep(s: Log, op: Op)
    ensures Logged(Advance(s, op)) == Called(Logged(s), op)
  {
  }

  lemma RunStep(ops: seq<Op>, op: Op)
    ensures RunOps(ops + [op]) == Advance(RunOps(ops), op)
  {
    assert (ops + [op])[..|ops|] == ops;
  }

  lemma StepContinues(done: seq<Op>, ops: seq<Op>, op: Op)
    requires Logged(RunOps(done + ops)) == Go(Logged(RunOps(done)), ops)
    ensures Logged(RunOps((done + ops) + [op])) == Go(Logged(RunOps(done)), ops + [op])
  {
    RunStep(done + ops, op);
    LogStep(RunOps(done + ops), op);
    GoStep(Logged(RunOps(done)), ops, op);
  }

  lemma SplitLast(done: seq<Op>, ops: seq<Op>)
    requires ops != []
    ensures ops[..|ops| - 1] + [ops[|ops| - 1]] == ops
    ensures (done + ops[..|ops| - 1]) + [ops[|ops| - 1]] == done + ops
  {
  }

  /** Go continues the runs of the log. */
  lemma {:induction false} GoContinues(done: seq<Op>, ops: seq<Op>)
    ensures Logged(RunOps(done + ops)) == Go(Logged(RunOps(done)), ops)
    decreases |ops|
  {
    if ops == [] {
      assert done + ops == done;
    } else {
      GoContinues(done, ops[..|ops| - 1]);
      StepContinues(done, ops[..|ops| - 1], ops[|ops| - 1]);
      SplitLast(done, ops);
    }
  }

  // ----- from a heap -----

  lemma CallKeepsHeap(q: Queue, op: Op)
    requires IsHeap(q.heap) && !op.Cancel?
    ensures IsHeap(Called(q, op).heap)
  {
    match op
    case Put(job, prio) => PushKeepsHeap(q.heap, Entry(prio, q.counter + 1, job));
    case Get =>
      if q.heap != [] {
        PopKeepsHeap(q.heap);
      }
  }

  lemma {:induction false} HeapStays(q: Queue, ops: seq<Op>)
    requires IsHeap(q.heap) && PutsAndGets(ops)
    ensures IsHeap(Go(q, ops).heap)
    decreases |ops|
  {
    if ops != [] {
      HeapStays(q, ops[..|ops| - 1]);
      CallKeepsHeap(Go(q, ops[..|ops| - 1]), ops[|ops| - 1]);
    }
  }

  lemma HeapInOrder(h: seq<Entry>)
    requires IsHeap(h)
    ensures FrontIsLeast(h)
  {
    forall k | 0 <= k < |h| ensures !Before(h[k], h[0]) { RootIsLeast(h, k); }
  }

  // ----- from any other array -----

  /** Urgent entries are those below a limit; the others only fill the queue. */
  predicate Urgent(e: Entry, limit: int) {
    e.prio < limit
  }

  /** The same urgent entries at the same positions. */
  ghost predicate SameUrgent(h: seq<Entry>, r: seq<Entry>, limit: int) {
    && |h| == |r|
    && forall j :: 0 <= j < |h| ==> if Urgent(h[j], limit) then r[j] == h[j] else !Urgent(r[j], limit)
  }

  /** Sifting up an entry that is not urgent moves no urgent one. */
  lemma {:induction false} SiftUpSparesUrgent(h: seq<Entry>, k: nat, limit: int)
    requires k < |h| && !Urgent(h[k], limit)
    ensures SameUrgent(h, SiftUp(h, k), limit)
    decreases k
  {
    if k != 0 && Before(h[k], h[Parent(k)]) {
      SiftUpSparesUrgent(Swap(h, k, Parent(k)), Parent(k), limit);
    }
  }

  /** The position that c should not precede, while the hole is filled from below. */
  function Over(c: nat, hole: nat): nat
    requires 0 < c && (Parent(c) == hole ==> 0 < hole)
  {
    if Parent(c) == hole then Parent(hole) else Parent(c)
  }

  /** Urgent entry c precedes the one it should not. */
  ghost predicate Wrong(h: seq<Entry>, c: nat, hole: nat, limit: int) {
    && 0 < c < |h| && (Parent(c) == hole ==> 0 < hole)
    && Urgent(h[c], limit) && Urgent(h[Over(c, hole)], limit) && Before(h[c], h[Over(c, hole)])
  }

  /** One step of sifting the hole down keeps an entry wrong: the same one, or the one that filled it. */
  lemma StepKeepsWrong(h: seq<Entry>, c: nat, hole: nat, limit: int) returns (d: nat)
    requires 2 * hole + 1 < |h| && !Urgent(h[hole], limit) && Wrong(h, c, hole, limit)
    ensures Wrong(Swap(h, hole, LesserChild(h, hole)), d, LesserChild(h, hole), limit)
  {
    d := if Parent(c) == hole then hole else c;
    var l := LesserChild(h, hole);
    if Parent(c) == hole {
      assert !Before(h[c], h[l]);
    } else {
      assert c != l;
    }
  }

  /** Taking the hole down to a leaf leaves some entry wrong. */
  lemma {:induction false} SiftDownKeepsWrong(h: seq<Entry>, c: nat, hole: nat, limit: int) returns (d: nat)
    requires hole < |h| && !Urgent(h[hole], limit) && Wrong(h, c, hole, limit)
    decreases |h| - hole
    ensures 0 < d < |h| && Urgent(SiftDown(h, hole)[d], limit)
    ensures Urgent(SiftDown(h, hole)[Parent(d)], limit)
    ensures Before(SiftDown(h, hole)[d], SiftDown(h, hole)[Parent(d)])
  {
    if |h| <= 2 * hole + 1 {
      SiftUpSparesUrgent(h, hole, limit);
      d := c;
    } else {
      d := StepKeepsWrong(h, c, hole, limit);
      d := SiftDownKeepsWrong(Swap(h, hole, LesserChild(h, hole)), d, LesserChild(h, hole), limit);
    }
  }

  /** Nothing from position m on is urgent. */
  ghost predicate Filled(h: seq<Entry>, m: nat, limit: int) {
    forall j :: m <= j < |h| ==> !Urgent(h[j], limit)
  }

  lemma {:induction false} SiftDownKeepsFilled(h: seq<Entry>, hole: nat, m: nat, limit: int)
    requires hole < |h| && !Urgent(h[hole], limit) && Filled(h, m, limit)
    decreases |h| - hole
    ensures Filled(SiftDown(h, hole), m, limit)
  {
    if |h| <= 2 * hole + 1 {
      SiftUpSparesUrgent(h, hole, limit);
    } else {
      SiftDownKeepsFilled(Swap(h, hole, LesserChild(h, hole)), LesserChild(h, hole), m, limit);
    }
  }

  /** Urgent entry c precedes its urgent parent. */
  ghost predicate OutOfPlace(h: seq<Entry>, c: nat, limit: int) {
    0 < c < |h| && Urgent(h[c], limit) && Urgent(h[Parent(c)], limit) && Before(h[c], h[Parent(c)])
  }

  lemma LastInFrontWrong(h: seq<Entry>, rest: seq<Entry>, c: nat, m: nat, limit: int)
    requires FrontIsLeast(h) && OutOfPlace(h, c, limit) && m < |h| && Filled(h, m, limit)
    requires rest == h[..|h| - 1][0 := h[|h| - 1]]
    ensures |rest| == |h| - 1 && 0 < |rest| && !Urgent(rest[0], limit)
    ensures Wrong(rest, c, 0, limit) && Filled(rest, m, limit)
  {
    assert !Before(h[c], h[0]);
    assert !Urgent(h[|h| - 1], limit);
    assert rest[c] == h[c] && rest[Parent(c)] == h[Parent(c)];
  }

  /** As long as the front is right, a get leaves some entry out of place. */
  lemma PopKeepsOutOfPlace(h: seq<Entry>, c: nat, m: nat, limit: int) returns (d: nat)
    requires FrontIsLeast(h) && OutOfPlace(h, c, limit) && m < |h| && Filled(h, m, limit)
    ensures OutOfPlace(Popped(h), d, limit) && Filled(Popped(h), m, limit)
  {
    var rest := h[..|h| - 1][0 := h[|h| - 1]];
    LastInFrontWrong(h, rest, c, m, limit);
    d := SiftDownKeepsWrong(rest, c, 0, limit);
    SiftDownKeepsFilled(rest, 0, m, limit);
  }

  lemma MoreThanFill(h: seq<Entry>, fill: multiset<Entry>, e: Entry)
    requires fill <= multiset(h) && e in h && e !in fill
    ensures |fill| < |h| && fill <= multiset(h) - multiset{e}
  {
    var rest := multiset(h) - multiset{e};
    assert e in multiset(h);
    assert |rest| == |h| - 1;
    assert fill <= rest;
    assert rest == fill + (rest - fill);
  }

  /** Entries of one priority, numbered up to a counter. */
  ghost predicate IsFiller(f: seq<Entry>, prio: int, counter: nat) {
    forall k :: 0 <= k < |f| ==> f[k].prio == prio && f[k].count <= counter
  }

  ghost predicate AllBelow(h: seq<Entry>, prio: int) {
    forall k :: 0 <= k < |h| ==> h[k].prio < prio
  }

  /** A priority that is less urgent than all in the queue. */
  function Limit(h: seq<Entry>): (limit: int)
    ensures AllBelow(h, limit)
  {
    if h == [] then 0
    else
      var before, last := Limit(h[..|h| - 1]), h[|h| - 1].prio;
      if last < before then before else last + 1
  }

  /** m puts at one priority and then t gets. */
  function FillAndTake(prio: int, m: nat, t: nat): seq<Op>
    decreases m + t
  {
    if 0 < t then FillAndTake(prio, m, t - 1) + [Get]
    else if 0 < m then FillAndTake(prio, m - 1, 0) + [Put(Job(""), prio)]
    else []
  }

  lemma PushGoesLast(h: seq<Entry>, f: seq<Entry>, e: Entry, n: nat)
    requires AllBelow(h, e.prio) && IsFiller(f, e.prio, n) && n < e.count
    ensures HeapPush(h + f, e) == h + (f + [e])
  {
    LastStays(h + f, e, h + (f + [e]));
  }

  lemma PutGoesLast(p: Queue, h: seq<Entry>, f: seq<Entry>, prio: int)
    requires p.heap == h + f && AllBelow(h, prio) && IsFiller(f, prio, p.counter)
    ensures var e := Entry(prio, p.counter + 1, Job(""));
            && Called(p, Put(Job(""), prio)) == Queue(h + (f + [e]), p.counter + 1)
            && IsFiller(f + [e], prio, p.counter + 1)
  {
    PushGoesLast(h, f, Entry(prio, p.counter + 1, Job("")), p.counter);
  }

  lemma {:induction false} FillsAndTakes(prio: int, m: nat, t: nat)
    ensures PutsAndGets(FillAndTake(prio, m, t))
    decreases m + t
  {
    if 0 < t {
      FillsAndTakes(prio, m, t - 1);
    } else if 0 < m {
      FillsAndTakes(prio, m - 1, 0);
    }
  }

  lemma FillStep(q: Queue, ops: seq<Op>, p: Queue, h: seq<Entry>, f: seq<Entry>, prio: int) returns (g: seq<Entry>)
    requires Go(q, ops) == p && p.heap == h + f && AllBelow(h, prio) && IsFiller(f, prio, p.counter)
    ensures |g| == |f| + 1 && IsFiller(g, prio, p.counter + 1)
    ensures Go(q, ops + [Put(Job(""), prio)]) == Queue(h + g, p.counter + 1)
  {
    PutGoesLast(p, h, f, prio);
    GoStep(q, ops, Put(Job(""), prio));
    g := f + [Entry(prio, p.counter + 1, Job(""))];
  }

  /** Entries less urgent than all in the queue go behind them. */
  lemma {:induction false} FillGoesLast(q: Queue, prio: int, m: nat) returns (f: seq<Entry>)
    requires AllBelow(q.heap, prio)
    ensures |f| == m && IsFiller(f, prio, q.counter + m)
    ensures Go(q, FillAndTake(prio, m, 0)) == Queue(q.heap + f, q.counter + m)
    decreases m
  {
    if m == 0 {
      f := [];
      assert q.heap + f == q.heap;
    } else {
      f := FillGoesLast(q, prio, m - 1);
      f := FillStep(q, FillAndTake(prio, m - 1, 0), Queue(q.heap + f, q.counter + m - 1), q.heap, f, prio);
    }
  }

  lemma NextGet(q: Queue, prio: int, m: nat, t: nat, h: seq<Entry>)
    requires Go(q, FillAndTake(prio, m, t)).heap == h
    ensures Go(q, FillAndTake(prio, m, t + 1)).heap == Popped(h)
  {
    GoStep(q, FillAndTake(prio, m, t), Get);
  }

  /** While an entry is out of place, each get takes an urgent entry and leaves one out of place; before
      the urgent ones run out the front must be wrong. */
  lemma {:induction false} FrontGoesWrong(q: Queue, prio: int, m: nat, taken: nat, h: seq<Entry>, c: nat,
                                          fill: multiset<Entry>) returns (t: nat)
    requires Go(q, FillAndTake(prio, m, taken)).heap == h
    requires OutOfPlace(h, c, prio) && Filled(h, |fill|, prio)
    requires fill <= multiset(h) && forall e :: e in fill ==> !Urgent(e, prio)
    decreases |h|
    ensures !FrontIsLeast(Go(q, FillAndTake(prio, m, t)).heap)
  {
    if !FrontIsLeast(h) {
      return taken;
    }
    assert !Before(h[c], h[0]);
    MoreThanFill(h, fill, h[0]);
    PopKeepsEntries(h);
    var d := PopKeepsOutOfPlace(h, c, |fill|, prio);
    NextGet(q, prio, m, taken, h);
    t := FrontGoesWrong(q, prio, m, taken + 1, Popped(h), d, fill);
  }

  lemma FilledOutOfPlace(h: seq<Entry>, f: seq<Entry>, c: nat, prio: int, n: nat)
    requires AllBelow(h, prio) && IsFiller(f, prio, n)
    requires 0 < c < |h| && Before(h[c], h[Parent(c)])
    ensures OutOfPlace(h + f, c, prio) && Filled(h + f, |h|, prio)
    ensures multiset(f) <= multiset(h + f) && forall e :: e in multiset(f) ==> !Urgent(e, prio)
  {
    forall e | e in multiset(f) ensures !Urgent(e, prio) { assert e in f; }
  }

  /** From an array that is no heap some run of puts and gets brings a wrong entry to the front. */
  lemma SomeRunGoesWrong(q: Queue) returns (ops: seq<Op>)
    requires !IsHeap(q.heap)
    ensures PutsAndGets(ops) && !FrontIsLeast(Go(q, ops).heap)
  {
    var c :| 0 < c < |q.heap| && Before(q.heap[c], q.heap[Parent(c)]);
    var prio, m := Limit(q.heap), |q.heap|;
    var f := FillGoesLast(q, prio, m);
    FilledOutOfPlace(q.heap, f, c, prio, q.counter + m);
    assert |multiset(f)| == m;
    var t := FrontGoesWrong(q, prio, m, 0, q.heap + f, c, multiset(f));
    ops := FillAndTake(prio, m, t);
    FillsAndTakes(prio, m, t);
  }

  /** Every later get is right, whatever is put and taken, exactly from a heap. */
  lemma InOrderIffHeap(q: Queue)
    ensures AlwaysInOrder(q) <==> IsHeap(q.heap)
  {
    if IsHeap(q.heap) {
      forall ops | PutsAndGets(ops)
        ensures FrontIsLeast(Go(q, ops).heap)
      {
        HeapStays(q, ops);
        HeapInOrder(Go(q, ops).heap);
      }
    } else {
      var ops := SomeRunGoesWrong(q);
    }
  }

  /** After any run of the log, the gets that follow are right, whatever is put and taken, exactly when
      the array is a heap. */
  lemma RunInOrderIffHeap(done: seq<Op>)
    ensures (forall ops :: PutsAndGets(ops) ==> FrontIsLeast(RunOps(done + ops).heap)) <==> IsHeap(RunOps(done).heap)
  {
    InOrderIffHeap(Logged(RunOps(done)));
    forall ops ensures RunOps(done + ops).heap == Go(Logged(RunOps(done)), ops).heap { GoContinues(done, ops); }
  }

  // ----- after a cancel -----

  function PutsOf(h: seq<Entry>): (ops: seq<Op>)
    ensures |ops| == |h|
  {
    if h == [] then [] else PutsOf(h[..|h| - 1]) + [Put(h[|h| - 1].job, h[|h| - 1].prio)]
  }

  /** Everything put is queued, in the order in which it was put. */
  ghost predicate Reached(s: Log, h: seq<Entry>) {
    s.heap == h && s.put == h && s.got == []
  }

  lemma PutReached(s: Log, h: seq<Entry>, e: Entry, r: seq<Entry>)
    requires Reached(s, h) && e.count == |h| + 1 && HeapPush(h, e) == r && r == h + [e]
    ensures Reached(Advance(s, Put(e.job, e.prio)), r)
  {
  }

  lemma LastReached(h: seq<Entry>, before: seq<Entry>, e: Entry, s: Log)
    requires IsHeap(h) && InOrder(h) && h != [] && before == h[..|h| - 1] && e == h[|h| - 1] && Reached(s, before)
    ensures Reached(Advance(s, Put(e.job, e.prio)), h)
  {
    var last := |h| - 1;
    assert 0 < last ==> !Before(h[last], h[Parent(last)]);
    LastStays(before, e, h);
    PutReached(s, before, e, h);
  }

  /** A heap numbered in array order is what a run of puts builds. */
  lemma {:induction false} HeapIsReached(h: seq<Entry>)
    requires IsHeap(h) && InOrder(h)
    ensures Reached(RunOps(PutsOf(h)), h)
    decreases |h|
  {
    if h != [] {
      var before, e := h[..|h| - 1], h[|h| - 1];
      HeapIsReached(before);
      LastReached(h, before, e, RunOps(PutsOf(before)));
      RunStep(PutsOf(before), Put(e.job, e.prio));
    }
  }

  /** A run that leaves a heap of n entries, of which a cancel of this id lets these positions stay. */
  ghost predicate CancelMeets(done: seq<Op>, id: string, n: nat, pos: seq<nat>) {
    IsHeap(RunOps(done).heap) && |RunOps(done).heap| == n && Survivors(RunOps(done).heap, id) == pos
  }

  /** After the cancel the front stays the most urgent entry, whatever is put and taken. */
  ghost predicate LaterGetsRight(done: seq<Op>, id: string) {
    forall ops :: PutsAndGets(ops) ==> FrontIsLeast(RunOps(done + [Cancel(id)] + ops).heap)
  }

  lemma LaterGetsRightIff(done: seq<Op>, id: string)
    ensures LaterGetsRight(done, id) <==> IsHeap(Others(RunOps(done).heap, id))
  {
    RunStep(done, Cancel(id));
    RunInOrderIffHeap(done + [Cancel(id)]);
  }

  lemma TiltedReached(n: nat, a: nat, pos: seq<nat>, x: JobDefinition, y: JobDefinition)
    ensures Reached(RunOps(PutsOf(Tilted(n, a, pos, x, y))), Tilted(n, a, pos, x, y))
  {
    TiltedIsHeap(n, a, pos, x, y);
    HeapIsReached(Tilted(n, a, pos, x, y));
  }

  lemma PickFalls(h: seq<Entry>, id: string, k: nat)
    requires 0 < k < |Survivors(h, id)| && Before(h[Survivors(h, id)[k]], h[Survivors(h, id)[Parent(k)]])
    ensures !IsHeap(Others(h, id))
  {
    assert Before(Others(h, id)[k], Others(h, id)[Parent(k)]);
  }

  lemma TiltedRunFalls(n: nat, pos: seq<nat>) returns (done: seq<Op>, id: string)
    requires AreSurvivors(n, pos) && !Spared(pos)
    ensures CancelMeets(done, id, n, pos) && !IsHeap(Others(RunOps(done).heap, id))
  {
    var k :| 0 < k < |pos| && !Above(pos[Parent(k)], pos[k]);
    var x, y := Job(""), Job("y");
    var h := Tilted(n, pos[Parent(k)], pos, x, y);
    TiltedFalls(n, pos[Parent(k)], pos[k], pos, x, y);
    TiltedReached(n, pos[Parent(k)], pos, x, y);
    PickFalls(h, x.id, k);
    done, id := PutsOf(h), x.id;
  }

  /** For all runs that leave a heap in which the same positions stay, every later get is right exactly
      when each of these positions lands below one of its own ancestors. */
  lemma SparedIffLaterGetsRight(n: nat, pos: seq<nat>)
    requires AreSurvivors(n, pos)
    ensures (forall done, id :: CancelMeets(done, id, n, pos) ==> LaterGetsRight(done, id)) <==> Spared(pos)
  {
    if Spared(pos) {
      forall done, id | CancelMeets(done, id, n, pos)
        ensures LaterGetsRight(done, id)
      {
        SparedStaysHeap(RunOps(done).heap, id);
        LaterGetsRightIff(done, id);
      }
    } else {
      var done, id := TiltedRunFalls(n, pos);
      LaterGetsRightIff(done, id);
    }
  }

  // ----- a run that goes wrong -----

  /** The positions below n but for k. */
  function AllBut(n: nat, k: nat): (pos: seq<nat>)
    requires k < n
    ensures |pos| == n - 1
    ensures forall i :: 0 <= i < n - 1 ==> pos[i] == if i < k then i else i + 1
  {
    seq(n - 1, (i: nat) => if i < k then i else i + 1)
  }

  lemma CancelOne(h: seq<Entry>, k: nat, id: string)
    requires k < |h| && forall j :: 0 <= j < |h| ==> (h[j].job.id == id <==> j == k)
    ensures |Others(h, id)| == |h| - 1
    ensures forall i :: 0 <= i < |h| - 1 ==> Others(h, id)[i] == h[if i < k then i else i + 1]
  {
    SurvivorsFit(h, id);
    var pos := AllBut(|h|, k);
    forall x: nat ensures x in pos <==> x < |h| && x != k {
      assert x < k ==> pos[x] == x;
      assert k < x < |h| ==> pos[x - 1] == x;
    }
    SameMembers(Survivors(h, id), pos);
  }

  lemma DownOne(h: seq<Entry>, k: nat, c: nat, r: seq<Entry>)
    requires 2 * k + 1 < |h| && LesserChild(h, k) == c && Swap(h, k, c) == r
    ensures SiftDown(h, k) == SiftDown(r, c)
  {
  }

  lemma DownLeaf(h: seq<Entry>, k: nat)
    requires 0 < k < |h| <= 2 * k + 1 && !Before(h[k], h[Parent(k)])
    ensures SiftDown(h, k) == h
  {
  }

  /** The last of five entries goes to the front and down to where the fourth was. */
  lemma PopsFive(h: seq<Entry>)
    requires |h| == 5 && Before(h[1], h[2]) && !Before(h[4], h[3])
    ensures |HeapPop(h)| == 4 && HeapPop(h)[0] == h[1] && HeapPop(h)[1] == h[3]
  {
    var r := h[..4][0 := h[4]];
    var s := Swap(r, 0, 1);
    var t := Swap(s, 1, 3);
    DownOne(r, 0, 1, s);
    DownOne(s, 1, 3, t);
    DownLeaf(t, 3);
  }

  lemma TakeNext(ops: seq<Op>, heap: seq<Entry>, got: seq<Entry>)
    requires RunOps(ops).heap == heap && RunOps(ops).got == got && heap != []
    ensures RunOps(ops + [Get]).heap == HeapPop(heap) && RunOps(ops + [Get]).got == got + [heap[0]]
  {
    RunStep(ops, Get);
  }

  lemma SecondCancelled(h: seq<Entry>, id: string, done: seq<Op>) returns (o: seq<Entry>)
    requires |h| == 6 && Reached(RunOps(done), h)
    requires forall j :: 0 <= j < 6 ==> (h[j].job.id == id <==> j == 1)
    ensures |o| == 5 && o[0] == h[0] && o[1] == h[2] && o[2] == h[3] && o[3] == h[4] && o[4] == h[5]
    ensures RunOps(done + [Cancel(id)]).heap == o && RunOps(done + [Cancel(id)]).got == []
  {
    RunStep(done, Cancel(id));
    CancelOne(h, 1, id);
    o := Others(h, id);
  }

  lemma SecondStays(p: seq<Entry>)
    requires 1 < |p| && p[0] != p[1]
    ensures p[1] in HeapPop(p)
  {
    PopKeepsEntries(p);
    assert p[1] in multiset(p);
    assert p[1] in multiset(HeapPop(p));
  }

  lemma ThirdOvertakesFifth(h: seq<Entry>, id: string, done: seq<Op>)
    requires |h| == 6 && Before(h[2], h[3]) && !Before(h[5], h[4]) && h[2] != h[4] && Reached(RunOps(done), h)
    requires forall j :: 0 <= j < 6 ==> (h[j].job.id == id <==> j == 1)
    ensures var s := RunOps(done + [Cancel(id)] + [Get] + [Get]); s.got == [h[0]] + [h[2]] && h[4] in s.heap
  {
    var o := SecondCancelled(h, id, done);
    PopsFive(o);
    var p := HeapPop(o);
    TakeNext(done + [Cancel(id)], o, []);
    assert [] + [o[0]] == [o[0]];
    TakeNext(done + [Cancel(id)] + [Get], p, [o[0]]);
    SecondStays(p);
  }

  /** Six entries put in this order of priority are a heap as they stand. */
  ghost predicate SixPut(h: seq<Entry>) {
    && |h| == 6 && InOrder(h)
    && h[0].prio == 0 && h[1].prio == 1 && h[2].prio == 3 && h[3].prio == 4 && h[4].prio == 2 && h[5].prio == 5
  }

  lemma SixAreHeap(h: seq<Entry>)
    requires SixPut(h)
    ensures IsHeap(h)
  {
    assert Parent(1) == Parent(2) == 0 && Parent(3) == Parent(4) == 1 && Parent(5) == 2;
    forall j | 0 < j < 6 ensures !Before(h[j], h[Parent(j)]) {
      assert j == 1 || j == 2 || j == 3 || j == 4 || j == 5;
    }
  }

  /** Sparing the front is not enough: entries of priority 0, 1, 3, 4, 2 and 5 are put, the one of
      priority 1 is cancelled, and the two gets that follow take 0 and 3 while 2 is queued. */
  lemma SparedFrontGoesWrong(h: seq<Entry>, id: string)
    requires SixPut(h) && forall j :: 0 <= j < 6 ==> (h[j].job.id == id <==> j == 1)
    ensures Reached(RunOps(PutsOf(h)), h) && IsHeap(h)
    ensures var s := RunOps(PutsOf(h) + [Cancel(id)] + [Get] + [Get]);
            s.got == [h[0]] + [h[2]] && h[4] in s.heap && Before(h[4], h[2])
  {
    SixAreHeap(h);
    HeapIsReached(h);
    ThirdOvertakesFifth(h, id, PutsOf(h));
  }
}
