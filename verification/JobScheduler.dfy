/**
 The job scheduler (data_platform/scheduler/__init__.py, JobScheduler and DistributedLock).

 The first part is one job execution with its retries.  The second part is the scheduler as a step
 system over the heap array of its queue: triggers take a timed lock, workers pop and finish entries,
 cancel filters the array, and entries also reach the queue from interval timers and replayed dead
 letters, which take no lock.
 */
module JobScheduler {
  import opened Wrappers
  import opened JobQueue

  // ----- one execution -----

  datatype Status = Completed | DeadLetter | Failed

  /** The outcome of an execution: its status and retry count, the fetches made and time slept. */
  datatype Execution = Execution(status: Status, retries: nat, fetches: nat, slept: real)

  function Pow2(n: nat): nat {
    if n == 0 then 1 else 2 * Pow2(n - 1)
  }

  /** The delay before retry n + 1. */
  function Delay(base: real, n: nat): real {
    base * (Pow2(n) as real)
  }

  /** The delays before retries 1 to n, in sum. */
  function Backoff(base: real, n: nat): real {
    if n == 0 then 0.0 else Backoff(base, n - 1) + Delay(base, n - 1)
  }

  lemma {:induction false} BackoffSum(base: real, n: nat)
    ensures Backoff(base, n) == base * (Pow2(n) as real - 1.0)
  {
    if n > 0 {
      BackoffSum(base, n - 1);
      var p := Pow2(n - 1) as real;
      assert Pow2(n) as real == 2.0 * p;
      assert base * (p - 1.0) + base * p == base * (2.0 * p - 1.0);
    }
  }

  /** What an execution may come to when ok(i) says whether the i-th fetch succeeds: the first success
      within the retries completes it, otherwise it is a dead letter.  With a negative retry limit the
      loop never runs and no result comes back, which the worker does not survive. */
  ghost predicate IsExecution(job: JobDefinition, known: bool, ok: nat -> bool, r: Option<Execution>) {
    if !known then r == Some(Execution(Failed, 0, 0, 0.0))
    else if job.maxRetries < 0 then r == None
    else
      && r.Some?
      && (r.value.status == Completed ==>
            && r.value.retries <= job.maxRetries && ok(r.value.retries)
            && (forall i: nat :: i < r.value.retries ==> !ok(i))
            && r.value.fetches == r.value.retries + 1
            && r.value.slept == job.backoffBase * (Pow2(r.value.retries) as real - 1.0))
      && (r.value.status == DeadLetter ==>
            && (forall i: nat :: i <= job.maxRetries ==> !ok(i))
            && r.value.retries == r.value.fetches == job.maxRetries + 1
            && r.value.slept == job.backoffBase * (Pow2(job.maxRetries) as real - 1.0))
      && r.value.status != Failed
  }

  /** The outcome is determined by the fetches. */
  lemma ExecutionUnique(job: JobDefinition, known: bool, ok: nat -> bool, x: Option<Execution>, y: Option<Execution>)
    requires IsExecution(job, known, ok, x) && IsExecution(job, known, ok, y)
    ensures x == y
  {
    if known && 0 <= job.maxRetries {
      var a, b := x.value, y.value;
      assert a.status == Completed ==> ok(a.retries);
      assert b.status == Completed ==> ok(b.retries);
      assert a.status == b.status && a.retries == b.retries;
      assert a.fetches == b.fetches && a.slept == b.slept;
      assert a == b;
    }
  }

  lemma SucceedsAt(job: JobDefinition, ok: nat -> bool, n: nat)
    requires n <= job.maxRetries && ok(n) && forall i: nat :: i < n ==> !ok(i)
    ensures IsExecution(job, true, ok, Some(Execution(Completed, n, n + 1, Backoff(job.backoffBase, n))))
  {
    BackoffSum(job.backoffBase, n);
  }

  lemma GivesUpAfter(job: JobDefinition, ok: nat -> bool, n: nat)
    requires n == job.maxRetries + 1 && 0 < n && forall i: nat :: i < n ==> !ok(i)
    ensures IsExecution(job, true, ok, Some(Execution(DeadLetter, n, n, Backoff(job.backoffBase, n - 1))))
  {
    BackoffSum(job.backoffBase, n - 1);
  }

  method ExecuteJob(job: JobDefinition, known: bool, ok: nat -> bool) returns (r: Option<Execution>)
    ensures IsExecution(job, known, ok, r)
  {
    if !known {
      return Some(Execution(Failed, 0, 0, 0.0));
    }
    var attempts: nat := 0;
    var slept := 0.0;
    while attempts <= job.maxRetries
      invariant attempts == 0 || attempts <= job.maxRetries
      invariant forall i: nat :: i < attempts ==> !ok(i)
      invariant slept == Backoff(job.backoffBase, attempts)
    {
      if ok(attempts) {
        SucceedsAt(job, ok, attempts);
        return Some(Execution(Completed, attempts, attempts + 1, slept));
      }
      attempts := attempts + 1;
      if attempts > job.maxRetries {
        GivesUpAfter(job, ok, attempts);
        return Some(Execution(DeadLetter, attempts, attempts, slept));
      }
      slept := slept + Delay(job.backoffBase, attempts - 1);
    }
    return None;
  }

  // ----- the scheduler as a step system -----

  /** The lock key of a job: the fields joined into one string. */
  function KeyOf(job: JobDefinition): string {
    "job:" + job.connector + ":" + job.entityType
  }

  const NORMAL := 3

  datatype Worker = Idle | Busy(entry: Entry) | Stopped

  /** A dead letter, by the put number of its entry and the id of its job. */
  datatype Dead = Dead(run: nat, jobId: string)

  /** What has happened so far: entries put, ended and cancelled, the end of the lock that the trigger
      of an entry took, and what became of dead letters. */
  datatype Past = Past(put: seq<Entry>, ended: seq<Entry>, cancelled: seq<Entry>, terms: map<nat, real>,
                       made: seq<Dead>, replayed: seq<Dead>, dropped: seq<Dead>, purged: seq<Dead>)

  datatype State = State(
    now: real,
    jobs: map<string, JobDefinition>,
    locks: map<string, real>,      // end of each lock; the holder is always this scheduler
    heap: seq<Entry>,
    workers: seq<Worker>,
    dead: seq<Dead>,
    past: Past)

  datatype Event =
    | Tick(d: real)
    | Register(job: JobDefinition)
    | Unregister(id: string)
    | SetEnabled(id: string, enabled: bool)
    | Trigger(id: string, priority: Option<int>)
    | Interval(job: JobDefinition)
    | Cancel(id: string)
    | Take(w: nat)
    | Finish(w: nat, status: Option<Status>)   // None: no result, the worker stops
    | Replay(run: nat)
    | Purge

  const NO_PAST := Past([], [], [], map[], [], [], [], [])

  function Start(n: nat): State {
    State(0.0, map[], map[], [], seq(n, (_: nat) => Idle), [], NO_PAST)
  }

  function NextEntry(s: State, job: JobDefinition, priority: Option<int>): Entry {
    Entry(Urgency(job, priority), |s.past.put| + 1, job)
  }

  function Enqueue(s: State, job: JobDefinition, priority: Option<int>): State {
    var e := NextEntry(s, job, priority);
    s.(heap := HeapPush(s.heap, e), past := s.past.(put := s.past.put + [e]))
  }

  function Locked(s: State, key: string): bool {
    key in s.locks && s.now < s.locks[key]
  }

  /** The end of the lock that a trigger takes. */
  function LockEnd(s: State, job: JobDefinition): real {
    s.now + job.timeout + 60.0
  }

  /** Takes the key of a job for the entry that is queued next. */
  function Held(s: State, job: JobDefinition): State {
    s.(locks := s.locks[KeyOf(job) := LockEnd(s, job)],
       past := s.past.(terms := s.past.terms[|s.past.put| + 1 := LockEnd(s, job)]))
  }

  function Triggered(s: State, job: JobDefinition, priority: Option<int>): State {
    Enqueue(Held(s, job), job, priority)
  }

  /** A worker pops the front of the heap array. */
  function Taken(s: State, w: nat): State
    requires w < |s.workers| && s.heap != []
  {
    s.(heap := HeapPop(s.heap), workers := s.workers[w := Busy(s.heap[0])])
  }

  function Finished(s: State, w: nat, status: Option<Status>): State
    requires w < |s.workers| && s.workers[w].Busy?
  {
    var e := s.workers[w].entry;
    var letters := if status == Some(DeadLetter) then [Dead(e.count, e.job.id)] else [];
    s.(workers := s.workers[w := if status == None then Stopped else Idle],
       locks := s.locks - {KeyOf(e.job)},
       dead := s.dead + letters,
       past := s.past.(ended := s.past.ended + [e], made := s.past.made + letters))
  }

  /** Position of a run in the dead letter list. */
  function Find(dead: seq<Dead>, run: nat): (k: nat)
    ensures k <= |dead| && (k < |dead| ==> dead[k].run == run)
    ensures forall l :: 0 <= l < k ==> dead[l].run != run
  {
    if dead == [] || dead[0].run == run then 0 else 1 + Find(dead[1..], run)
  }

  function LetterRemoved(dead: seq<Dead>, k: nat): seq<Dead>
    requires k < |dead|
  {
    dead[..k] + dead[k + 1..]
  }

  function Dropped(s: State, k: nat): State
    requires k < |s.dead|
  {
    s.(dead := LetterRemoved(s.dead, k), past := s.past.(dropped := s.past.dropped + [s.dead[k]]))
  }

  /** A dead letter taken for replay, its job not yet queued. */
  function Unqueued(s: State, k: nat): State
    requires k < |s.dead|
  {
    s.(dead := LetterRemoved(s.dead, k), past := s.past.(replayed := s.past.replayed + [s.dead[k]]))
  }

  /** The dead letter at k is removed, and its job queued if it is registered. */
  function Replayed(s: State, k: nat): State
    requires k < |s.dead|
  {
    var id := s.dead[k].jobId;
    if id in s.jobs then Enqueue(Unqueued(s, k), s.jobs[id], Some(NORMAL)) else Dropped(s, k)
  }

  function Cancelled(s: State, id: string): State {
    s.(heap := Others(s.heap, id), past := s.past.(cancelled := s.past.cancelled + Matching(s.heap, id)))
  }

  function Purged(s: State): State {
    s.(dead := [], past := s.past.(purged := s.past.purged + s.dead))
  }

  /** One event; an event whose target does not exist changes nothing. */
  function Step(s: State, e: Event): State {
    match e
    case Tick(d) => if 0.0 <= d then s.(now := s.now + d) else s
    case Register(job) => s.(jobs := s.jobs[job.id := job])
    case Unregister(id) => s.(jobs := s.jobs - {id})
    case SetEnabled(id, enabled) =>
      if id in s.jobs then s.(jobs := s.jobs[id := s.jobs[id].(enabled := enabled)]) else s
    case Trigger(id, priority) =>
      if id !in s.jobs || !s.jobs[id].enabled || Locked(s, KeyOf(s.jobs[id])) then s
      else Triggered(s, s.jobs[id], priority)
    case Interval(job) => if job.enabled then Enqueue(s, job, None) else s
    case Cancel(id) => Cancelled(s, id)
    case Take(w) =>
      if w < |s.workers| && s.workers[w].Idle? && s.heap != [] then Taken(s, w) else s
    case Finish(w, status) =>
      if w < |s.workers| && s.workers[w].Busy? then Finished(s, w, status) else s
    case Replay(run) =>
      if Find(s.dead, run) < |s.dead| then Replayed(s, Find(s.dead, run)) else s
    case Purge => Purged(s)
  }

  /** A run with n workers. */
  function Run(n: nat, events: seq<Event>): State {
    if events == [] then Start(n) else Step(Run(n, events[..|events| - 1]), events[|events| - 1])
  }

  // ----- what is queued or executing -----

  function Load(w: Worker): multiset<Entry> {
    if w.Busy? then multiset{w.entry} else multiset{}
  }

  function RunningUpTo(workers: seq<Worker>, n: nat): multiset<Entry>
    requires n <= |workers|
  {
    if n == 0 then multiset{} else RunningUpTo(workers, n - 1) + Load(workers[n - 1])
  }

  function Running(workers: seq<Worker>): multiset<Entry> {
    RunningUpTo(workers, |workers|)
  }

  function Active(s: State): multiset<Entry> {
    multiset(s.heap) + Running(s.workers)
  }

  lemma {:induction false} RunningSame(xs: seq<Worker>, ys: seq<Worker>, n: nat)
    requires n <= |xs| && n <= |ys| && forall k :: 0 <= k < n ==> xs[k] == ys[k]
    ensures RunningUpTo(xs, n) == RunningUpTo(ys, n)
  {
    if 0 < n {
      RunningSame(xs, ys, n - 1);
    }
  }

  lemma {:induction false} LoadsSwap(xs: seq<Worker>, ys: seq<Worker>, w: nat, n: nat)
    requires w < n <= |xs| == |ys| && forall k :: 0 <= k < |xs| && k != w ==> xs[k] == ys[k]
    ensures RunningUpTo(ys, n) + Load(xs[w]) == RunningUpTo(xs, n) + Load(ys[w])
  {
    if w == n - 1 {
      RunningSame(xs, ys, w);
      SwapLoads(RunningUpTo(xs, w), Load(xs[w]), Load(ys[w]));
    } else {
      LoadsSwap(xs, ys, w, n - 1);
      AddLoad(RunningUpTo(xs, n - 1), RunningUpTo(ys, n - 1), Load(xs[w]), Load(ys[w]), Load(xs[n - 1]));
    }
  }

  lemma SwapLoads(r: multiset<Entry>, a: multiset<Entry>, b: multiset<Entry>)
    ensures r + b + a == r + a + b
  {
  }

  lemma AddLoad(r: multiset<Entry>, s: multiset<Entry>, a: multiset<Entry>, b: multiset<Entry>, c: multiset<Entry>)
    requires s + a == r + b
    ensures s + c + a == r + c + b
  {
    assert (s + c) + a == (s + a) + c;
    assert (r + c) + b == (r + b) + c;
  }

  lemma WorkerLoad(workers: seq<Worker>, w: nat, x: Worker)
    requires w < |workers|
    ensures Running(workers[w := x]) + Load(workers[w]) == Running(workers) + Load(x)
  {
    LoadsSwap(workers, workers[w := x], w, |workers|);
  }

  lemma MoveOne(a: multiset<Entry>, b: multiset<Entry>, x: Entry)
    requires x in a
    ensures (a - multiset{x}) + (b + multiset{x}) == a + b
  {
  }

  lemma {:induction false} IdleUpTo(workers: seq<Worker>, n: nat)
    requires n <= |workers| && forall w :: 0 <= w < |workers| ==> workers[w].Idle?
    ensures RunningUpTo(workers, n) == multiset{}
  {
    if 0 < n {
      IdleUpTo(workers, n - 1);
    }
  }

  lemma IdleWorkers(n: nat)
    ensures Running(Start(n).workers) == multiset{}
  {
    IdleUpTo(Start(n).workers, n);
  }

  lemma TakenMoves(s: State, w: nat)
    requires w < |s.workers| && s.workers[w].Idle? && s.heap != []
    ensures Active(Taken(s, w)) == Active(s)
  {
    var x := s.heap[0];
    WorkerLoad(s.workers, w, Busy(x));
    PopKeepsEntries(s.heap);
    assert x in multiset(s.heap);
    assert Running(s.workers[w := Busy(x)]) == Running(s.workers) + multiset{x} by {
      assert Load(Idle) == multiset{};
    }
    MoveOne(multiset(s.heap), Running(s.workers), x);
  }

  lemma FinishedLeaves(s: State, w: nat, status: Option<Status>)
    requires w < |s.workers| && s.workers[w].Busy?
    ensures Active(s) == Active(Finished(s, w, status)) + multiset{s.workers[w].entry}
  {
    var x := if status == None then Stopped else Idle;
    WorkerLoad(s.workers, w, x);
    assert Running(s.workers[w := x]) + multiset{s.workers[w].entry} == Running(s.workers) by {
      assert Load(x) == multiset{};
    }
    assert Finished(s, w, status).workers == s.workers[w := x];
  }

  // ----- conservation -----

  /** Every entry put is on the heap, executing, ended or cancelled, once; every dead letter made is
      waiting, replayed, dropped with its job unregistered, or purged. */
  ghost predicate Conserved(s: State) {
    && multiset(s.past.put) == Active(s) + multiset(s.past.ended) + multiset(s.past.cancelled)
    && (forall i :: 0 <= i < |s.past.put| ==> s.past.put[i].count == i + 1)
    && multiset(s.past.made) == multiset(s.dead) + multiset(s.past.replayed) + multiset(s.past.dropped)
                                + multiset(s.past.purged)
  }

  lemma EnqueueConserves(s: State, job: JobDefinition, priority: Option<int>)
    requires Conserved(s)
    ensures Conserved(Enqueue(s, job, priority))
    ensures Active(Enqueue(s, job, priority)) == Active(s) + multiset{NextEntry(s, job, priority)}
  {
    var e := NextEntry(s, job, priority);
    EnqueueAdds(s, job, priority);
    assert multiset(s.past.put + [e]) == multiset(s.past.put) + multiset{e};
  }

  lemma FinishConserves(s: State, w: nat, status: Option<Status>)
    requires Conserved(s) && w < |s.workers| && s.workers[w].Busy?
    ensures Conserved(Finished(s, w, status))
  {
    FinishedLeaves(s, w, status);
    var s', e := Finished(s, w, status), s.workers[w].entry;
    assert multiset(s'.past.ended) == multiset(s.past.ended) + multiset{e};
  }

  /** The dead letter moves from the list to those dropped or replayed. */
  lemma DropConserves(s: State, k: nat)
    requires Conserved(s) && k < |s.dead|
    ensures Conserved(Dropped(s, k)) && Conserved(Unqueued(s, k))
  {
    var d := s.dead[k];
    RemoveOne(s.dead, k);
    assert multiset(s.past.dropped + [d]) == multiset(s.past.dropped) + multiset{d};
    assert multiset(s.past.replayed + [d]) == multiset(s.past.replayed) + multiset{d};
  }

  lemma ReplayConserves(s: State, k: nat)
    requires Conserved(s) && k < |s.dead|
    ensures Conserved(Replayed(s, k))
  {
    DropConserves(s, k);
    if s.dead[k].jobId in s.jobs {
      EnqueueConserves(Unqueued(s, k), s.jobs[s.dead[k].jobId], Some(NORMAL));
    }
  }

  lemma CancelConserves(s: State, id: string)
    requires Conserved(s)
    ensures Conserved(Cancelled(s, id))
  {
    var gone := Matching(s.heap, id);
    OthersCounts(s.heap, id);
    assert multiset(s.past.cancelled + gone) == multiset(s.past.cancelled) + multiset(gone);
  }

  lemma PurgeConserves(s: State)
    requires Conserved(s)
    ensures Conserved(Purged(s))
  {
    assert multiset(s.past.purged + s.dead) == multiset(s.past.purged) + multiset(s.dead);
  }

  lemma TakeConserves(s: State, w: nat)
    requires Conserved(s) && w < |s.workers| && s.workers[w].Idle? && s.heap != []
    ensures Conserved(Taken(s, w))
  {
    TakenMoves(s, w);
  }

  lemma QueueEventConserves(s: State, e: Event)
    requires Conserved(s) && (e.Trigger? || e.Interval? || e.Cancel? || e.Take?)
    ensures Conserved(Step(s, e))
  {
    if Step(s, e) == s {
    } else if e.Trigger? {
      TriggerConserves(s, s.jobs[e.id], e.priority);
    } else if e.Interval? {
      EnqueueConserves(s, e.job, None);
    } else if e.Cancel? {
      CancelConserves(s, e.id);
    } else {
      TakeConserves(s, e.w);
    }
  }

  lemma FinishStep(s: State, w: nat, status: Option<Status>)
    requires w < |s.workers| && s.workers[w].Busy?
    ensures Step(s, Finish(w, status)) == Finished(s, w, status)
  {
  }

  lemma FinishEventConserves(s: State, w: nat, status: Option<Status>)
    requires Conserved(s)
    ensures Conserved(Step(s, Finish(w, status)))
  {
    if w < |s.workers| && s.workers[w].Busy? {
      FinishStep(s, w, status);
      FinishConserves(s, w, status);
    } else {
      assert Step(s, Finish(w, status)) == s;
    }
  }

  lemma ReplayStep(s: State, run: nat)
    requires Find(s.dead, run) < |s.dead|
    ensures Step(s, Replay(run)) == Replayed(s, Find(s.dead, run))
  {
  }

  lemma ReplayEventConserves(s: State, run: nat)
    requires Conserved(s)
    ensures Conserved(Step(s, Replay(run)))
  {
    if Find(s.dead, run) < |s.dead| {
      ReplayStep(s, run);
      ReplayConserves(s, Find(s.dead, run));
    }
  }

  lemma SameConserves(s: State, s': State)
    requires Conserved(s) && s'.heap == s.heap && s'.workers == s.workers && s'.dead == s.dead && s'.past == s.past
    ensures Conserved(s')
  {
  }

  lemma StepConserves(s: State, e: Event)
    requires Conserved(s)
    ensures Conserved(Step(s, e))
  {
    if e.Trigger? || e.Interval? || e.Cancel? || e.Take? {
      QueueEventConserves(s, e);
    } else if e.Finish? {
      FinishEventConserves(s, e.w, e.status);
    } else if e.Replay? {
      ReplayEventConserves(s, e.run);
    } else if e.Purge? {
      PurgeConserves(s);
    } else {
      SameConserves(s, Step(s, e));
    }
  }

  lemma TriggerConserves(s: State, job: JobDefinition, priority: Option<int>)
    requires Conserved(s)
    ensures Conserved(Triggered(s, job, priority))
  {
    EnqueueConserves(Held(s, job), job, priority);
  }

  lemma TriggerAdds(s: State, job: JobDefinition, priority: Option<int>)
    ensures var s', x := Triggered(s, job, priority), NextEntry(s, job, priority);
            && Active(s') == Active(s) + multiset{x} && s'.now == s.now
            && s'.locks == s.locks[KeyOf(x.job) := LockEnd(s, job)]
            && s'.past.terms == s.past.terms[x.count := LockEnd(s, job)]
  {
    EnqueueAdds(Held(s, job), job, priority);
  }

  /** Over every run of any events, with any number of workers, no entry and no dead letter is lost,
      duplicated or made up. */
  lemma {:induction false} RunConserves(n: nat, events: seq<Event>)
    ensures Conserved(Run(n, events))
  {
    if events == [] {
      IdleWorkers(n);
    } else {
      RunConserves(n, events[..|events| - 1]);
      StepConserves(Run(n, events[..|events| - 1]), events[|events| - 1]);
    }
  }

  /** A dead letter is lost by replaying it exactly when its job is no longer registered. */
  lemma ReplayLosesIffUnregistered(s: State, k: nat)
    requires k < |s.dead| && Find(s.dead, s.dead[k].run) == k && Conserved(s)
    ensures var s', d := Step(s, Replay(s.dead[k].run)), s.dead[k];
            && multiset(s.dead) == multiset(s'.dead) + multiset{d}
            && (Active(s') == Active(s) <==> d.jobId !in s.jobs)
            && (d.jobId in s.jobs ==>
                  Active(s') == Active(s) + multiset{NextEntry(s, s.jobs[d.jobId], Some(3))})
  {
    var d, s' := s.dead[k], Replayed(s, k);
    RemoveOne(s.dead, k);
    if d.jobId in s.jobs {
      ReplayQueues(s, k);
      OneMoreDiffers(Active(s), NextEntry(s, s.jobs[d.jobId], Some(NORMAL)));
    } else {
      assert s'.heap == s.heap && s'.workers == s.workers;
    }
  }

  lemma RemoveOne(dead: seq<Dead>, k: nat)
    requires k < |dead|
    ensures multiset(dead) == multiset(LetterRemoved(dead, k)) + multiset{dead[k]}
  {
    assert dead == dead[..k] + [dead[k]] + dead[k + 1..];
  }

  lemma OneMoreDiffers(m: multiset<Entry>, x: Entry)
    ensures m + multiset{x} != m
  {
    assert (m + multiset{x})[x] == m[x] + 1;
  }

  lemma EnqueueAdds(s: State, job: JobDefinition, priority: Option<int>)
    ensures Active(Enqueue(s, job, priority)) == Active(s) + multiset{NextEntry(s, job, priority)}
  {
  }

  /** Replaying a registered job queues it and touches neither workers nor locks. */
  lemma ReplayQueues(s: State, k: nat)
    requires k < |s.dead| && s.dead[k].jobId in s.jobs
    ensures var s', x := Replayed(s, k), NextEntry(s, s.jobs[s.dead[k].jobId], Some(NORMAL));
            Active(s') == Active(s) + multiset{x} && s'.locks == s.locks && s'.now == s.now
  {
    var job := s.jobs[s.dead[k].jobId];
    assert Replayed(s, k).heap == HeapPush(s.heap, NextEntry(s, job, Some(NORMAL)));
  }

  // ----- one entry per key -----

  /** Only triggers put entries on the queue. */
  predicate TriggersOnly(e: Event) {
    !e.Interval? && !e.Replay?
  }

  /** No two of the entries share a key. */
  ghost predicate Distinct(active: multiset<Entry>) {
    && (forall e :: active[e] <= 1)
    && (forall e, f :: e in active && f in active && KeyOf(e.job) == KeyOf(f.job) ==> e == f)
  }

  ghost predicate AllLocked(active: multiset<Entry>, locks: map<string, real>, now: real) {
    forall e :: e in active ==> KeyOf(e.job) in locks && now < locks[KeyOf(e.job)]
  }

  /** Each entry's lock is the one its trigger took. */
  ghost predicate Own(active: multiset<Entry>, locks: map<string, real>, terms: map<nat, real>) {
    forall e :: e in active ==>
      e.count in terms && KeyOf(e.job) in locks && locks[KeyOf(e.job)] == terms[e.count]
  }

  /** Every entry is still within timeout + 60 seconds of its trigger. */
  ghost predicate InTime(s: State) {
    forall e :: e in Active(s) ==> e.count in s.past.terms && s.now < s.past.terms[e.count]
  }

  ghost predicate KeysLocked(s: State) {
    AllLocked(Active(s), s.locks, s.now)
  }

  /** No two entries share a key, and every entry's key is locked. */
  ghost predicate OnePerKey(s: State) {
    Distinct(Active(s)) && KeysLocked(s)
  }

  ghost predicate LocksInPlace(s: State) {
    Distinct(Active(s)) && Own(Active(s), s.locks, s.past.terms)
  }

  ghost predicate Unused(active: multiset<Entry>, key: string) {
    forall e :: e in active ==> KeyOf(e.job) != key
  }

  lemma DistinctMoreIff(active: multiset<Entry>, x: Entry)
    requires Distinct(active) && x !in active
    ensures Distinct(active + multiset{x}) <==> Unused(active, KeyOf(x.job))
  {
    var more := active + multiset{x};
    if !Unused(active, KeyOf(x.job)) {
      var e :| e in active && KeyOf(e.job) == KeyOf(x.job);
      assert e in more && x in more;
    }
  }

  lemma DistinctFewer(active: multiset<Entry>, x: Entry)
    requires Distinct(active + multiset{x})
    ensures Distinct(active) && Unused(active, KeyOf(x.job))
  {
    var more := active + multiset{x};
    assert more[x] == active[x] + 1;
    forall e | e in active
      ensures e in more && KeyOf(e.job) != KeyOf(x.job)
    {
      assert e in more && x in more;
    }
    forall e
      ensures active[e] <= more[e]
    {
    }
  }

  lemma OwnMore(active: multiset<Entry>, x: Entry, locks: map<string, real>, terms: map<nat, real>, ends: real)
    requires Own(active, locks, terms) && Unused(active, KeyOf(x.job))
    requires forall e :: e in active ==> e.count != x.count
    ensures Own(active + multiset{x}, locks[KeyOf(x.job) := ends], terms[x.count := ends])
  {
    forall e | e in active + multiset{x}
      ensures e == x || e in active
    {
    }
  }

  lemma NextIsNew(s: State)
    requires Conserved(s)
    ensures forall e :: e in Active(s) ==> e.count <= |s.past.put|
  {
    forall e | e in Active(s)
      ensures e.count <= |s.past.put|
    {
      assert e in multiset(s.past.put);
      assert e in s.past.put;
    }
  }

  lemma LateKeyUnused(s: State, job: JobDefinition)
    requires InTime(s) && LocksInPlace(s) && !Locked(s, KeyOf(job))
    ensures Unused(Active(s), KeyOf(job))
  {
  }

  lemma TriggerKeepsLocks(s: State, job: JobDefinition, priority: Option<int>)
    requires Conserved(s) && InTime(s) && LocksInPlace(s) && !Locked(s, KeyOf(job))
    ensures LocksInPlace(Triggered(s, job, priority))
  {
    var x := NextEntry(s, job, priority);
    NextIsNew(s);
    TriggerAdds(s, job, priority);
    LateKeyUnused(s, job);
    DistinctMoreIff(Active(s), x);
    OwnMore(Active(s), x, s.locks, s.past.terms, LockEnd(s, job));
  }

  lemma FinishKeepsLocks(s: State, w: nat, status: Option<Status>)
    requires LocksInPlace(s) && w < |s.workers| && s.workers[w].Busy?
    ensures LocksInPlace(Finished(s, w, status))
  {
    FinishedLeaves(s, w, status);
    DistinctFewer(Active(Finished(s, w, status)), s.workers[w].entry);
  }

  lemma CancelKeepsLocks(s: State, id: string)
    requires LocksInPlace(s)
    ensures LocksInPlace(Cancelled(s, id))
  {
    var fewer := Active(Cancelled(s, id));
    OthersCounts(s.heap, id);
    forall e
      ensures fewer[e] <= Active(s)[e]
    {
    }
  }

  lemma StepKeepsLocks(s: State, e: Event)
    requires TriggersOnly(e) && Conserved(s) && InTime(s) && LocksInPlace(s)
    ensures LocksInPlace(Step(s, e))
  {
    var s' := Step(s, e);
    if s' == s {
    } else if e.Trigger? {
      TriggerKeepsLocks(s, s.jobs[e.id], e.priority);
    } else if e.Take? {
      TakenMoves(s, e.w);
    } else if e.Finish? {
      FinishKeepsLocks(s, e.w, e.status);
    } else if e.Cancel? {
      CancelKeepsLocks(s, e.id);
    } else {
      assert s'.heap == s.heap && s'.workers == s.workers && s'.locks == s.locks && s'.past.terms == s.past.terms;
    }
  }

  /** After a run whose earlier states were all in time, the locks are in place. */
  lemma {:induction false} RunKeepsLocks(n: nat, events: seq<Event>)
    requires forall k :: 0 <= k < |events| ==> TriggersOnly(events[k]) && InTime(Run(n, events[..k]))
    ensures LocksInPlace(Run(n, events))
  {
    if events == [] {
      IdleWorkers(n);
    } else {
      var last := |events| - 1;
      forall k | 0 <= k < last
        ensures TriggersOnly(events[..last][k]) && InTime(Run(n, events[..last][..k]))
      {
        assert events[..last][..k] == events[..k];
      }
      RunKeepsLocks(n, events[..last]);
      RunConserves(n, events[..last]);
      assert InTime(Run(n, events[..last]));
      StepKeepsLocks(Run(n, events[..last]), events[last]);
    }
  }

  ghost predicate AlwaysOnePerKey(n: nat, events: seq<Event>) {
    forall k :: 0 <= k <= |events| ==> OnePerKey(Run(n, events[..k]))
  }

  ghost predicate AlwaysInTime(n: nat, events: seq<Event>) {
    forall k :: 0 <= k <= |events| ==> InTime(Run(n, events[..k]))
  }

  lemma InTimeMeansLocked(s: State)
    requires LocksInPlace(s)
    ensures OnePerKey(s) <==> InTime(s)
  {
  }

  lemma {:induction false} LockedMeansInTime(n: nat, events: seq<Event>, k: nat)
    requires forall l :: 0 <= l < |events| ==> TriggersOnly(events[l])
    requires AlwaysOnePerKey(n, events) && k <= |events|
    ensures InTime(Run(n, events[..k]))
    decreases k
  {
    forall l | 0 <= l < k
      ensures InTime(Run(n, events[..l]))
    {
      LockedMeansInTime(n, events, l);
    }
    PrefixKeepsLocks(n, events, k);
    assert OnePerKey(Run(n, events[..k]));
    InTimeMeansLocked(Run(n, events[..k]));
  }

  /** In runs where only triggers enqueue, each key has at most one entry, under a live lock, all along
      exactly when every entry ends within timeout + 60 seconds. */
  lemma OneEntryPerKeyIffInTime(n: nat, events: seq<Event>)
    requires forall k :: 0 <= k < |events| ==> TriggersOnly(events[k])
    ensures AlwaysOnePerKey(n, events) <==> AlwaysInTime(n, events)
  {
    if AlwaysInTime(n, events) {
      forall k | 0 <= k <= |events|
        ensures OnePerKey(Run(n, events[..k]))
      {
        PrefixKeepsLocks(n, events, k);
        InTimeMeansLocked(Run(n, events[..k]));
      }
    }
    if AlwaysOnePerKey(n, events) {
      forall k | 0 <= k <= |events|
        ensures InTime(Run(n, events[..k]))
      {
        LockedMeansInTime(n, events, k);
      }
    }
  }

  lemma PrefixKeepsLocks(n: nat, events: seq<Event>, k: nat)
    requires k <= |events|
    requires forall l :: 0 <= l < |events| ==> TriggersOnly(events[l])
    requires forall l :: 0 <= l < k ==> InTime(Run(n, events[..l]))
    ensures LocksInPlace(Run(n, events[..k]))
  {
    forall l | 0 <= l < k
      ensures TriggersOnly(events[..k][l]) && InTime(Run(n, events[..k][..l]))
    {
      assert events[..k][..l] == events[..l];
    }
    RunKeepsLocks(n, events[..k]);
  }

  // ----- the other ways into the queue -----

  lemma LockedMoreIff(active: multiset<Entry>, x: Entry, locks: map<string, real>, now: real)
    requires AllLocked(active, locks, now)
    ensures AllLocked(active + multiset{x}, locks, now)
       <==> KeyOf(x.job) in locks && now < locks[KeyOf(x.job)]
  {
    assert x in active + multiset{x};
  }

  /** One more entry, with no lock taken for it, leaves one entry per key exactly when no entry has its
      key, and every key locked exactly when its key is locked all the same. */
  lemma MoreKeepsOnePerKeyIff(s: State, s': State, x: Entry)
    requires x !in Active(s)
    requires Active(s') == Active(s) + multiset{x} && s'.locks == s.locks && s'.now == s.now
    ensures Distinct(Active(s)) ==> (Distinct(Active(s')) <==> Unused(Active(s), KeyOf(x.job)))
    ensures KeysLocked(s) ==> (KeysLocked(s') <==> Locked(s, KeyOf(x.job)))
  {
    if Distinct(Active(s)) {
      DistinctMoreIff(Active(s), x);
    }
    if KeysLocked(s) {
      LockedMoreIff(Active(s), x, s.locks, s.now);
    }
  }

  lemma NextNotActive(s: State, job: JobDefinition, priority: Option<int>)
    requires Conserved(s)
    ensures NextEntry(s, job, priority) !in Active(s)
  {
    NextIsNew(s);
  }

  lemma EnqueueKeepsOnePerKeyIff(s: State, s': State, job: JobDefinition, priority: Option<int>)
    requires Conserved(s) && s' == Enqueue(s, job, priority)
    ensures Distinct(Active(s)) ==> (Distinct(Active(s')) <==> Unused(Active(s), KeyOf(job)))
    ensures KeysLocked(s) ==> (KeysLocked(s') <==> Locked(s, KeyOf(job)))
  {
    var x := NextEntry(s, job, priority);
    NextNotActive(s, job, priority);
    EnqueueAdds(s, job, priority);
    MoreKeepsOnePerKeyIff(s, s', x);
  }

  lemma IntervalStep(s: State, job: JobDefinition)
    requires job.enabled
    ensures Step(s, Interval(job)) == Enqueue(s, job, None)
  {
  }

  /** An enabled interval timer that fires. */
  lemma IntervalKeepsOnePerKeyIff(s: State, job: JobDefinition)
    requires Conserved(s) && job.enabled
    ensures var s' := Step(s, Interval(job));
            && (Distinct(Active(s)) ==> (Distinct(Active(s')) <==> Unused(Active(s), KeyOf(job))))
            && (KeysLocked(s) ==> (KeysLocked(s') <==> Locked(s, KeyOf(job))))
  {
    IntervalStep(s, job);
    EnqueueKeepsOnePerKeyIff(s, Step(s, Interval(job)), job, None);
  }

  /** A dead letter that is replayed while its job is registered. */
  lemma ReplayKeepsOnePerKeyIff(s: State, run: nat)
    requires Conserved(s) && Find(s.dead, run) < |s.dead| && s.dead[Find(s.dead, run)].jobId in s.jobs
    ensures var s', key := Step(s, Replay(run)), KeyOf(s.jobs[s.dead[Find(s.dead, run)].jobId]);
            && (Distinct(Active(s)) ==> (Distinct(Active(s')) <==> Unused(Active(s), key)))
            && (KeysLocked(s) ==> (KeysLocked(s') <==> Locked(s, key)))
  {
    var k := Find(s.dead, run);
    var s', x := Replayed(s, k), NextEntry(s, s.jobs[s.dead[k].jobId], Some(NORMAL));
    NextIsNew(s);
    ReplayQueues(s, k);
    MoreKeepsOnePerKeyIff(s, s', x);
    ReplayStep(s, run);
  }

  /** A trigger that is granted always leaves one entry per key, and every key locked exactly for timeouts
      above -60 seconds. */
  lemma TriggerKeepsOnePerKeyIff(s: State, job: JobDefinition, priority: Option<int>)
    requires Conserved(s) && OnePerKey(s) && !Locked(s, KeyOf(job))
    ensures Distinct(Active(Triggered(s, job, priority)))
    ensures KeysLocked(Triggered(s, job, priority)) <==> -60.0 < job.timeout
  {
    var s', x := Triggered(s, job, priority), NextEntry(s, job, priority);
    NextIsNew(s);
    TriggerAdds(s, job, priority);
    assert Unused(Active(s), KeyOf(job));
    DistinctMoreIff(Active(s), x);
    assert AllLocked(Active(s), s'.locks, s'.now);
    LockedMoreIff(Active(s), x, s'.locks, s'.now);
  }

  // ----- what the end of a job makes possible -----

  predicate Grants(s: State, id: string) {
    id in s.jobs && s.jobs[id].enabled && !Locked(s, KeyOf(s.jobs[id]))
  }

  lemma TriggerGranted(s: State, id: string, priority: Option<int>)
    ensures Step(s, Trigger(id, priority)) == if Grants(s, id) then Triggered(s, s.jobs[id], priority) else s
  {
  }

  lemma TriggeredLocks(s: State, job: JobDefinition, priority: Option<int>)
    ensures Locked(Triggered(s, job, priority), KeyOf(job)) <==> -60.0 < job.timeout
  {
  }

  /** A trigger puts exactly one entry, of the job that is registered, if that is enabled and its key free,
      and nothing otherwise. */
  lemma TriggerPutsIff(s: State, id: string, priority: Option<int>, s': State)
    requires s' == Step(s, Trigger(id, priority))
    ensures if id in s.jobs && s.jobs[id].enabled && !Locked(s, KeyOf(s.jobs[id]))
            then Active(s') == Active(s) + multiset{NextEntry(s, s.jobs[id], priority)}
                 && (Locked(s', KeyOf(s.jobs[id])) <==> -60.0 < s.jobs[id].timeout)
            else s' == s
  {
    TriggerGranted(s, id, priority);
    if Grants(s, id) {
      TriggerAdds(s, s.jobs[id], priority);
      TriggeredLocks(s, s.jobs[id], priority);
    }
  }

  lemma SameQueue(s: State, s': State, job: JobDefinition, priority: Option<int>)
    requires s'.heap == s.heap && s'.workers == s.workers && s'.past == s.past
    ensures Active(s') == Active(s) && NextEntry(s', job, priority) == NextEntry(s, job, priority)
  {
  }

  lemma Triggers(s: State, s': State, job: JobDefinition, priority: Option<int>)
    requires s'.heap == s.heap && s'.workers == s.workers && s'.past == s.past
    requires job.id in s'.jobs && s'.jobs[job.id] == job && job.enabled && !Locked(s', KeyOf(job))
    ensures Active(Step(s', Trigger(job.id, priority))) == Active(s) + multiset{NextEntry(s, job, priority)}
  {
    SameQueue(s, s', job, priority);
    TriggerPutsIff(s', job.id, priority, Step(s', Trigger(job.id, priority)));
  }

  /** A trigger puts an entry of the job that was registered last under its id, */
  lemma RegisteredTriggers(s: State, job: JobDefinition, priority: Option<int>)
    requires !Locked(s, KeyOf(job)) && job.enabled
    ensures Active(Step(Step(s, Register(job)), Trigger(job.id, priority)))
         == Active(s) + multiset{NextEntry(s, job, priority)}
  {
    Triggers(s, Step(s, Register(job)), job, priority);
  }

  /** or of one that was enabled again, */
  lemma EnabledTriggers(s: State, job: JobDefinition, priority: Option<int>)
    requires job.id in s.jobs && s.jobs[job.id].(enabled := true) == job && !Locked(s, KeyOf(job))
    ensures Active(Step(Step(s, SetEnabled(job.id, true)), Trigger(job.id, priority)))
         == Active(s) + multiset{NextEntry(s, job, priority)}
  {
    Triggers(s, Step(s, SetEnabled(job.id, true)), job, priority);
  }

  /** and none of a job that was disabled or unregistered. */
  lemma DisabledDoesNotTrigger(s: State, s': State, id: string, priority: Option<int>)
    requires s' == Step(s, SetEnabled(id, false)) || s' == Step(s, Unregister(id))
    ensures Step(s', Trigger(id, priority)) == s' && s'.heap == s.heap && s'.workers == s.workers
  {
  }

  /** The lock that a trigger takes lasts for the timeout of the job and a minute. */
  lemma LockTermIs(s: State, job: JobDefinition, priority: Option<int>, d: real)
    requires 0.0 <= d
    ensures Locked(Step(Triggered(s, job, priority), Tick(d)), KeyOf(job)) <==> d < job.timeout + 60.0
  {
  }

  lemma FinishFrees(s: State, w: nat, status: Option<Status>)
    requires w < |s.workers| && s.workers[w].Busy?
    ensures var s' := Step(s, Finish(w, status));
            && !Locked(s', KeyOf(s.workers[w].entry.job)) && s'.jobs == s.jobs && s'.heap == s.heap
            && (forall key :: key != KeyOf(s.workers[w].entry.job) ==> (Locked(s', key) <==> Locked(s, key)))
  {
    FinishStep(s, w, status);
  }

  /** However a job ended, an enabled job with its key can be triggered again at once. */
  lemma EndedCanBeTriggered(s: State, w: nat, status: Option<Status>, id: string, priority: Option<int>)
    requires w < |s.workers| && s.workers[w].Busy?
    requires id in s.jobs && s.jobs[id].enabled && KeyOf(s.jobs[id]) == KeyOf(s.workers[w].entry.job)
    ensures var done := Step(s, Finish(w, status));
            Active(Step(done, Trigger(id, priority))) == Active(done) + multiset{NextEntry(done, s.jobs[id], priority)}
  {
    FinishFrees(s, w, status);
    var done := Step(s, Finish(w, status));
    TriggerPutsIff(done, id, priority, Step(done, Trigger(id, priority)));
  }

  /** A worker whose job came back with a result takes the front of the queue next; */
  lemma WorkerGoesOn(s: State, w: nat, status: Option<Status>, done: State)
    requires w < |s.workers| && s.workers[w].Busy? && s.heap != [] && status.Some? && done == Finished(s, w, status)
    ensures done == Step(s, Finish(w, status)) && Step(done, Take(w)) == Taken(done, w)
    ensures Taken(done, w).workers[w] == Busy(s.heap[0])
  {
    FinishStep(s, w, status);
  }

  /** one whose job did not takes nothing any more. */
  lemma WorkerStops(s: State, w: nat, e: Event, done: State)
    requires w < |s.workers| && s.workers[w].Busy? && done == Finished(s, w, None)
    ensures done == Step(s, Finish(w, None)) && done.workers[w] == Stopped
    ensures w < |Step(done, e).workers| && Step(done, e).workers[w] == Stopped
  {
    FinishStep(s, w, None);
    StoppedStays(done, w, e);
  }

  lemma StoppedStays(s: State, w: nat, e: Event)
    requires w < |s.workers| && s.workers[w] == Stopped
    ensures w < |Step(s, e).workers| && Step(s, e).workers[w] == Stopped
  {
  }

  // ----- runs in which two entries share a key -----

  lemma RunStep(n: nat, events: seq<Event>, e: Event)
    ensures Run(n, events + [e]) == Step(Run(n, events), e)
  {
    assert (events + [e])[..|events|] == events;
  }

  /** Nothing is queued or executing, and the job can be triggered. */
  ghost predicate Ready(s: State, job: JobDefinition) {
    && Conserved(s) && s.heap == [] && Active(s) == multiset{}
    && job.id in s.jobs && s.jobs[job.id] == job && job.enabled && KeyOf(job) !in s.locks
  }

  /** Nothing but one entry of the job is queued, and nothing executing. */
  ghost predicate OneQueued(s: State, job: JobDefinition) {
    && Conserved(s) && |s.heap| == 1 && s.heap[0].job == job && s.heap[0].count == |s.past.put|
    && Active(s) == multiset{s.heap[0]}
    && job.id in s.jobs && s.jobs[job.id] == job
  }

  lemma RegisterReady(n: nat, job: JobDefinition)
    requires job.enabled
    ensures Ready(Step(Start(n), Register(job)), job)
  {
    IdleWorkers(n);
  }

  lemma TriggerStep(s: State, job: JobDefinition)
    requires Ready(s, job)
    ensures Step(s, Trigger(job.id, None)) == Triggered(s, job, None)
  {
  }

  lemma TriggeredIsOne(s: State, s': State, job: JobDefinition, x: Entry)
    requires Ready(s, job) && s' == Triggered(s, job, None) && x == NextEntry(s, job, None)
    ensures s'.heap == [x] && |s'.past.put| == x.count == |s.past.put| + 1 && Active(s') == multiset{x}
  {
    TriggerAdds(s, job, None);
    assert s'.heap == HeapPush([], x) == [x];
    assert multiset{} + multiset{x} == multiset{x};
  }

  lemma TriggerQueuesOne(s: State, job: JobDefinition, s': State)
    requires Ready(s, job) && s' == Triggered(s, job, None)
    ensures OneQueued(s', job) && s'.workers == s.workers && s'.dead == s.dead && s'.jobs == s.jobs
    ensures |s'.past.put| == |s.past.put| + 1
  {
    TriggeredIsOne(s, s', job, NextEntry(s, job, None));
    TriggerConserves(s, job, None);
  }

  lemma KeyInUse(s: State, job: JobDefinition)
    requires OneQueued(s, job)
    ensures Distinct(Active(s)) && !Unused(Active(s), KeyOf(job))
  {
    assert s.heap[0] in Active(s);
  }

  lemma IntervalShares(s: State, job: JobDefinition)
    requires OneQueued(s, job) && job.enabled
    ensures !Distinct(Active(Step(s, Interval(job))))
  {
    KeyInUse(s, job);
    IntervalKeepsOnePerKeyIff(s, job);
  }

  lemma ReplayShares(s: State, job: JobDefinition, run: nat)
    requires OneQueued(s, job) && Find(s.dead, run) < |s.dead| && s.dead[Find(s.dead, run)].jobId == job.id
    ensures !Distinct(Active(Step(s, Replay(run))))
  {
    KeyInUse(s, job);
    ReplayKeepsOnePerKeyIff(s, run);
  }

  lemma Registered(n: nat, job: JobDefinition)
    requires job.enabled
    ensures var s := Run(n, [Register(job)]);
            Ready(s, job) && s.dead == [] && s.workers == Start(n).workers && s.past.put == []
  {
    RegisterReady(n, job);
    assert [Register(job)][..0] == [];
  }

  lemma TriggeredOnce(n: nat, events: seq<Event>, job: JobDefinition, before: State, after: State)
    requires before == Run(n, events) && after == Run(n, events + [Trigger(job.id, None)]) && Ready(before, job)
    ensures OneQueued(after, job) && after.workers == before.workers && after.dead == before.dead
    ensures after.jobs == before.jobs && |after.past.put| == |before.past.put| + 1
  {
    RunStep(n, events, Trigger(job.id, None));
    TriggerStep(before, job);
    TriggerQueuesOne(before, job, after);
  }

  /** An interval timer that fires after a trigger of its job. */
  lemma IntervalSharesKey(n: nat, job: JobDefinition)
    requires job.enabled
    ensures !Distinct(Active(Run(n, [Register(job)] + [Trigger(job.id, None)] + [Interval(job)])))
  {
    var events := [Register(job)] + [Trigger(job.id, None)];
    Registered(n, job);
    TriggeredOnce(n, [Register(job)], job, Run(n, [Register(job)]), Run(n, events));
    RunStep(n, events, Interval(job));
    IntervalShares(Run(n, events), job);
  }

  lemma TakeOne(s: State, job: JobDefinition)
    requires OneQueued(s, job) && 0 < |s.workers| && s.workers[0].Idle?
    ensures var s' := Step(s, Take(0));
            && Conserved(s') && s'.heap == [] && Active(s') == multiset{s.heap[0]}
            && s'.workers == s.workers[0 := Busy(s.heap[0])]
            && s'.jobs == s.jobs && s'.dead == s.dead && s'.past.put == s.past.put
  {
    TakeStep(s);
    TakeConserves(s, 0);
    TakenMoves(s, 0);
    assert HeapPop(s.heap) == [];
  }

  lemma TakeStep(s: State)
    requires 0 < |s.workers| && s.workers[0].Idle? && s.heap != []
    ensures Step(s, Take(0)) == Taken(s, 0)
  {
  }

  lemma NothingLeft(active: multiset<Entry>, x: Entry)
    requires multiset{x} == active + multiset{x}
    ensures active == multiset{}
  {
    assert |multiset{x}| == |active| + 1;
  }

  lemma FailedFrame(s: State, s': State, x: Entry)
    requires 0 < |s.workers| && s.workers[0] == Busy(x) && s' == Finished(s, 0, Some(DeadLetter))
    ensures s'.heap == s.heap && s'.jobs == s.jobs && KeyOf(x.job) !in s'.locks
    ensures s'.dead == s.dead + [Dead(x.count, x.job.id)] && s'.past.put == s.past.put
  {
  }

  lemma FailOne(s: State, s': State, x: Entry)
    requires Conserved(s) && s.heap == [] && Active(s) == multiset{x} && x.job.enabled
    requires 0 < |s.workers| && s.workers[0] == Busy(x) && x.job.id in s.jobs && s.jobs[x.job.id] == x.job
    requires s' == Finished(s, 0, Some(DeadLetter))
    ensures Ready(s', x.job) && s'.dead == s.dead + [Dead(x.count, x.job.id)]
  {
    FinishConserves(s, 0, Some(DeadLetter));
    FinishedLeaves(s, 0, Some(DeadLetter));
    NothingLeft(Active(s'), x);
    FailedFrame(s, s', x);
  }

  /** What ends in a dead letter. */
  function Failing(job: JobDefinition): seq<Event> {
    [Register(job)] + [Trigger(job.id, None)] + [Take(0)] + [Finish(0, Some(DeadLetter))]
  }

  lemma FailedReady(n: nat, job: JobDefinition)
    requires 0 < n && job.enabled
    ensures Ready(Run(n, Failing(job)), job) && Run(n, Failing(job)).dead == [Dead(1, job.id)]
  {
    var triggered := [Register(job)] + [Trigger(job.id, None)];
    Registered(n, job);
    TriggeredOnce(n, [Register(job)], job, Run(n, [Register(job)]), Run(n, triggered));
    RunStep(n, triggered, Take(0));
    TakeOne(Run(n, triggered), job);
    RunStep(n, triggered + [Take(0)], Finish(0, Some(DeadLetter)));
    FinishStep(Run(n, triggered + [Take(0)]), 0, Some(DeadLetter));
    FailOne(Run(n, triggered + [Take(0)]), Run(n, Failing(job)), Run(n, triggered).heap[0]);
  }

  /** A dead letter that is replayed after another trigger of its job. */
  lemma ReplaySharesKey(n: nat, job: JobDefinition)
    requires 0 < n && job.enabled
    ensures !Distinct(Active(Run(n, Failing(job) + [Trigger(job.id, None)] + [Replay(1)])))
  {
    var events := Failing(job) + [Trigger(job.id, None)];
    FailedReady(n, job);
    TriggeredOnce(n, Failing(job), job, Run(n, Failing(job)), Run(n, events));
    RunStep(n, events, Replay(1));
    ReplayShares(Run(n, events), job, 1);
  }

  // ----- the objects -----

  /** The in-memory lock table; every lock belongs to this scheduler. */
  class DistributedLock {
    var locks: map<string, real>

    constructor ()
      ensures locks == map[]
    {
      locks := map[];
    }

    method Acquire(key: string, now: real, ttl: real) returns (ok: bool)
      modifies this
      ensures ok <==> !(key in old(locks) && old(locks)[key] > now)
      ensures locks == if ok then old(locks)[key := now + ttl] else old(locks)
    {
      if key in locks && locks[key] > now {
        return false;
      }
      locks := locks[key := now + ttl];
      ok := true;
    }

    method Release(key: string)
      modifies this
      ensures locks == old(locks) - {key}
    {
      locks := locks - {key};
    }
  }

  /** What each worker executes, as the scheduler shows it. */
  ghost predicate Shows(current: seq<Option<JobDefinition>>, workers: seq<Worker>) {
    && |current| == |workers|
    && forall w :: 0 <= w < |workers| ==>
         current[w] == if workers[w].Busy? then Some(workers[w].entry.job) else None
  }

  lemma ShowsAfter(current: seq<Option<JobDefinition>>, workers: seq<Worker>, w: nat, x: Worker)
    requires Shows(current, workers) && w < |workers|
    ensures Shows(current[w := if x.Busy? then Some(x.entry.job) else None], workers[w := x])
  {
  }

  class Scheduler {
    const lock: DistributedLock
    const queue: PriorityJobQueue
    var jobs: map<string, JobDefinition>
    var current: seq<Option<JobDefinition>>   // what each worker executes
    var deadLetters: seq<Dead>
    ghost var workers: seq<Worker>
    ghost var past: Past

    ghost predicate Valid()
      reads this, queue
    {
      queue.Valid() && queue.counter == |past.put| && Shows(current, workers)
    }

    ghost function Value(now: real): State
      reads this, lock, queue
    {
      State(now, jobs, lock.locks, queue.heap, workers, deadLetters, past)
    }

    constructor (n: nat)
      ensures Valid() && fresh(lock) && fresh(queue) && Value(0.0) == Start(n)
    {
      lock := new DistributedLock();
      queue := new PriorityJobQueue();
      jobs, deadLetters := map[], [];
      current := seq(n, (_: nat) => None);
      workers, past := Start(n).workers, NO_PAST;
    }

    method Put(job: JobDefinition, priority: Option<int>, ghost now: real)
      requires Valid()
      modifies queue, `past
      ensures Valid() && Value(now) == Enqueue(old(Value(now)), job, priority)
      ensures past == old(past).(put := past.put) && |past.put| == |old(past.put)| + 1
    {
      ghost var e := NextEntry(Value(now), job, priority);
      queue.Put(job, priority);
      past := past.(put := past.put + [e]);
    }

    /** Queues a job under its lock; Ok(false) if it is disabled or locked, Err if it is unknown. */
    method RunTrigger(id: string, priority: Option<int>, now: real) returns (r: Result<bool, string>)
      requires Valid()
      modifies lock, queue, `past
      ensures Valid() && Value(now) == Step(old(Value(now)), Trigger(id, priority))
      ensures r.Err? <==> id !in old(jobs)
      ensures r == Ok(true) <==> |past.put| == |old(past.put)| + 1
    {
      if id !in jobs {
        return Err("not found");
      }
      var job := jobs[id];
      if !job.enabled {
        return Ok(false);
      }
      var ok := Lock(job, priority, now);
      r := Ok(ok);
    }

    /** Takes the key of an enabled job and queues the job, if the key is free. */
    method Lock(job: JobDefinition, priority: Option<int>, now: real) returns (ok: bool)
      requires Valid()
      modifies lock, queue, `past
      ensures Valid() && (ok <==> !Locked(old(Value(now)), KeyOf(job)))
      ensures Value(now) == if ok then Triggered(old(Value(now)), job, priority) else old(Value(now))
      ensures |past.put| == |old(past.put)| + if ok then 1 else 0
    {
      ghost var s := Value(now);
      ok := lock.Acquire(KeyOf(job), now, job.timeout + 60.0);
      if ok {
        past := past.(terms := past.terms[|past.put| + 1 := LockEnd(s, job)]);
        assert Value(now) == Held(s, job);
        Put(job, priority, now);
      }
    }

    /** An interval timer fires. */
    method RunInterval(job: JobDefinition, ghost now: real)
      requires Valid()
      modifies queue, `past
      ensures Valid() && Value(now) == Step(old(Value(now)), Interval(job))
    {
      if job.enabled {
        Put(job, None, now);
      }
    }

    method CancelJob(id: string, now: real)
      requires Valid()
      modifies this, queue
      ensures Valid() && Value(now) == Step(old(Value(now)), Cancel(id))
    {
      past := past.(cancelled := past.cancelled + Matching(queue.heap, id));
      queue.Cancel(id);
    }

    method Pop() returns (job: Option<JobDefinition>)
      requires Valid()
      modifies queue
      ensures Valid() && (job == None <==> old(queue.heap) == [])
      ensures old(queue.heap) == [] ==> queue.heap == []
      ensures old(queue.heap) != [] ==> job == Some(old(queue.heap)[0].job) && queue.heap == HeapPop(old(queue.heap))
    {
      job := queue.Get();
    }

    /** An idle worker asks the queue for a job. */
    method StartJob(w: nat, ghost now: real) returns (job: Option<JobDefinition>)
      requires Valid() && w < |workers| && workers[w].Idle?
      modifies this, queue
      ensures Valid() && Value(now) == Step(old(Value(now)), Take(w))
      ensures job == None <==> old(queue.heap) == []
      ensures job == current[w]
    {
      ghost var s := Value(now);
      job := Pop();
      if job.Some? {
        ShowsAfter(current, workers, w, Busy(s.heap[0]));
        current := current[w := job];
        workers := workers[w := Busy(s.heap[0])];
        assert Value(now) == Taken(s, w);
      }
    }

    /** A worker's job runs to its end, with the fetches turning out as ok says: a dead letter is kept
        under the number of its run, and the lock is released whatever came. */
    method EndJob(w: nat, run: nat, known: bool, ok: nat -> bool, now: real) returns (r: Option<Execution>)
      requires Valid() && w < |workers| && workers[w].Busy? && run == workers[w].entry.count
      modifies this, lock
      ensures var job := old(workers[w].entry.job);
              && IsExecution(job, known, ok, r)
              && Value(now) == Step(old(Value(now)), Finish(w, if r.Some? then Some(r.value.status) else None))
      ensures Valid() && KeyOf(old(workers[w].entry.job)) !in lock.locks
    {
      var job := current[w].value;
      ghost var e := workers[w].entry;
      r := ExecuteJob(job, known, ok);
      ghost var letters := [];
      if r.Some? && r.value.status == DeadLetter {
        deadLetters := deadLetters + [Dead(run, job.id)];
        letters := [Dead(run, job.id)];
      }
      lock.Release(KeyOf(job));
      ShowsAfter(current, workers, w, if r == None then Stopped else Idle);
      current := current[w := None];
      workers := workers[w := if r == None then Stopped else Idle];
      past := past.(ended := past.ended + [e], made := past.made + letters);
    }

    /** The position of a run in the dead letters, or their number. */
    method FindRun(run: nat) returns (k: nat)
      ensures k == Find(deadLetters, run)
    {
      k := 0;
      while k < |deadLetters| && deadLetters[k].run != run
        invariant k <= |deadLetters|
        invariant forall l :: 0 <= l < k ==> deadLetters[l].run != run
      {
        k := k + 1;
      }
    }

    /** Removes the run from the dead letters and queues its job again, without a lock. */
    method ReplayDeadLetter(run: nat, ghost now: real) returns (r: Option<string>)
      requires Valid()
      modifies queue, `past, `deadLetters
      ensures Valid() && Value(now) == Step(old(Value(now)), Replay(run))
      ensures r.Some? <==> |past.put| == |old(past.put)| + 1
      ensures r.Some? ==> r.value in jobs
    {
      ghost var s := Value(now);
      var k := FindRun(run);
      if k == |deadLetters| {
        return None;
      }
      ReplayStep(s, run);
      var d := deadLetters[k];
      deadLetters := deadLetters[..k] + deadLetters[k + 1..];
      if d.jobId !in jobs {
        past := past.(dropped := past.dropped + [d]);
        assert Value(now) == Dropped(s, k);
        return None;
      }
      past := past.(replayed := past.replayed + [d]);
      assert Value(now) == Unqueued(s, k);
      Put(jobs[d.jobId], Some(NORMAL), now);
      r := Some(d.jobId);
    }

    method PurgeDeadLetters(now: real) returns (count: nat)
      modifies this
      requires Valid()
      ensures Valid() && Value(now) == Step(old(Value(now)), Purge) && count == |old(deadLetters)|
    {
      count := |deadLetters|;
      past := past.(purged := past.purged + deadLetters);
      deadLetters := [];
    }
  }
}
