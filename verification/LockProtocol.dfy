/**
 Timer-driven job runs in many processes that share one Redis server
 (backend/src/scheduler/manager.py, _execute_job, over backend/src/scheduler/locks.py).

 Every task is one coroutine that runs one job in one process.  A process keeps one lock object,
 hence one token field, per job, and the _running_jobs guard.  Each await is a separate step:
 between sending a command and its effect, time passes, other tasks move, and processes crash with
 commands still under way.
 */
module LockProtocol {
  import opened Wrappers
  import opened RedisLocks

  type Process = nat
  type Task = nat
  type Slot = (Process, Job)

  /** Who runs what; ttl is the lock term of a job.  guarded switches the in-process guard. */
  datatype Config = Config(proc: Task -> Process, job: Task -> Job, ttl: Job -> nat, guarded: bool) {
    function Slot(t: Task): Slot {
      (proc(t), job(t))
    }
  }

  datatype Phase =
    | Idle
    | Guarded                                       // past the guard, no lock yet
    | Setting(token: Token)                         // SET NX under way
    | Denied                                        // SET NX refused
    | Running(token: Token, deadline: nat)          // inside the job
    | Releasing(token: Token, deadline: nat, arg: Option<Token>) // script under way, with this argument
    | Released
    | LostSet(token: Token)                         // crashed, SET NX still under way
    | LostRelease(token: Token, arg: Option<Token>) // crashed, script still under way
    | Gone                                          // crashed
  {
    /** Inside _execute_job of a live process. */
    predicate Active() {
      Guarded? || Setting? || Denied? || Running? || Releasing? || Released?
    }

    /** Holds the job: from Redis granting the key to the release taking effect. */
    predicate InRun() {
      Running? || Releasing?
    }

    predicate HasToken() {
      Setting? || Running? || Releasing? || LostSet? || LostRelease?
    }

    function AfterCrash(): Phase {
      match this
      case Setting(k) => LostSet(k)
      case Releasing(k, _, arg) => LostRelease(k, arg)
      case LostSet(k) => LostSet(k)
      case LostRelease(k, arg) => LostRelease(k, arg)
      case _ => Gone
    }
  }

  datatype State = State(
    now: nat,
    store: Store,
    phases: map<Task, Phase>,
    running: set<Slot>,          // _running_jobs of every process
    tokens: map<Slot, Token>,    // _token of every lock object
    used: set<Token>,            // tokens drawn so far
    dead: set<Process>)
  {
    function Phase(t: Task): Phase {
      if t in phases then phases[t] else Idle
    }
  }

  datatype Event =
    | Tick(d: nat)
    | Enter(t: Task)                  // the guard: skip, or mark the job as running
    | Draw(t: Task, token: Token)     // _token = uuid4(), SET sent
    | RedisSet(t: Task)               // Redis runs SET NX EX
    | Finish(t: Task)                 // job done, script sent with the current _token
    | RedisRelease(t: Task)           // Redis runs the script
    | Leave(t: Task)                  // finally: forget the token, drop the guard
    | Crash(p: Process)

  const START := State(0, map[], map[], {}, map[], {}, {})

  function Lookup(tokens: map<Slot, Token>, slot: Slot): Option<Token> {
    if slot in tokens then Some(tokens[slot]) else None
  }

  predicate Enabled(c: Config, s: State, e: Event) {
    match e
    case Tick(_) => true
    case Enter(t) => s.Phase(t).Idle? && c.proc(t) !in s.dead
    case Draw(t, token) => s.Phase(t).Guarded? && token !in s.used
    case RedisSet(t) => s.Phase(t).Setting? || s.Phase(t).LostSet?
    case Finish(t) => s.Phase(t).Running?
    case RedisRelease(t) => s.Phase(t).Releasing? || s.Phase(t).LostRelease?
    case Leave(t) => s.Phase(t).Guarded? || s.Phase(t).Denied? || s.Phase(t).Released?
    case Crash(_) => true
  }

  function Apply(c: Config, s: State, e: Event): State
    requires Enabled(c, s, e)
  {
    match e
    case Tick(d) => s.(now := s.now + d)
    case Enter(t) =>
      if c.guarded && c.Slot(t) in s.running then s
      else s.(running := s.running + {c.Slot(t)}, phases := s.phases[t := Guarded])
    case Draw(t, token) =>
      s.(tokens := s.tokens[c.Slot(t) := token], used := s.used + {token},
         phases := s.phases[t := Setting(token)])
    case RedisSet(t) =>
      var j, token := c.job(t), s.Phase(t).token;
      var granted := !Live(s.store, j, s.now);
      s.(store := SetNx(s.store, j, token, s.now, c.ttl(j)),
         phases := s.phases[t := if s.Phase(t).LostSet? then Gone
                                 else if granted then Running(token, s.now + c.ttl(j))
                                 else Denied])
    case Finish(t) =>
      s.(phases := s.phases[t := Releasing(s.Phase(t).token, s.Phase(t).deadline, Lookup(s.tokens, c.Slot(t)))])
    case RedisRelease(t) =>
      var arg := s.Phase(t).arg;
      s.(store := if arg == None then s.store
                  else CompareAndDelete(s.store, c.job(t), arg.value, s.now),
         phases := s.phases[t := if s.Phase(t).LostRelease? then Gone else Released])
    case Leave(t) =>
      s.(phases := s.phases[t := Idle], running := s.running - {c.Slot(t)},
         tokens := if s.Phase(t).Released? then s.tokens - {c.Slot(t)} else s.tokens)
    case Crash(p) =>
      s.(dead := s.dead + {p},
         running := (set slot | slot in s.running && slot.0 != p),
         tokens := (map slot | slot in s.tokens && slot.0 != p :: s.tokens[slot]),
         phases := (map t | t in s.phases :: if c.proc(t) == p then s.phases[t].AfterCrash() else s.phases[t]))
  }

  /** The state after a run, if every event of it was enabled. */
  function Run(c: Config, events: seq<Event>): Option<State> {
    if events == [] then Some(START)
    else
      var last := |events| - 1;
      match Run(c, events[..last])
      case None => None
      case Some(s) => if Enabled(c, s, events[last]) then Some(Apply(c, s, events[last])) else None
  }

  // ----- the invariant -----

  /** t is inside a timer-driven run whose lock term has not run out. */
  predicate InTerm(s: State, t: Task) {
    s.Phase(t).InRun() && s.now < s.Phase(t).deadline
  }

  /** Whoever is inside a job has marked it as running in its process, */
  ghost predicate Marked(c: Config, s: State) {
    forall t :: s.Phase(t).Active() ==> c.Slot(t) in s.running && c.proc(t) !in s.dead
  }

  /** and is the only one there. */
  ghost predicate Alone(c: Config, s: State) {
    forall t, u :: s.Phase(t).Active() && s.Phase(u).Active() && c.Slot(t) == c.Slot(u) ==> t == u
  }

  /** The guard admits one task per process and job. */
  ghost predicate GuardHolds(c: Config, s: State) {
    Marked(c, s) && Alone(c, s)
  }

  /** So the shared token field is the task's own from drawing it, */
  ghost predicate FieldOwned(c: Config, s: State) {
    forall t :: s.Phase(t).Setting? || s.Phase(t).Running? ==>
      Lookup(s.tokens, c.Slot(t)) == Some(s.Phase(t).token)
  }

  /** and what it releases is its own. */
  ghost predicate ArgumentOwned(s: State) {
    forall t :: s.Phase(t).Releasing? || s.Phase(t).LostRelease? ==> s.Phase(t).arg == Some(s.Phase(t).token)
  }

  ghost predicate TokensOwned(c: Config, s: State) {
    FieldOwned(c, s) && ArgumentOwned(s)
  }

  /** Tokens are drawn once. */
  ghost predicate TokensDistinct(s: State) {
    && (forall t :: s.Phase(t).HasToken() ==> s.Phase(t).token in s.used)
    && (forall t, u ::
          s.Phase(t).HasToken() && s.Phase(u).HasToken() && s.Phase(t).token == s.Phase(u).token ==> t == u)
  }

  ghost predicate StoreUsed(s: State) {
    forall j :: j in s.store ==> s.store[j].token in s.used
  }

  ghost predicate NotYetSet(s: State) {
    forall t, j :: (s.Phase(t).Setting? || s.Phase(t).LostSet?) && j in s.store ==>
      s.store[j].token != s.Phase(t).token
  }

  /** Tokens reach the store only through their own SET. */
  ghost predicate StoreFresh(s: State) {
    StoreUsed(s) && NotYetSet(s)
  }

  /** A run within its term still has its key. */
  ghost predicate KeysKept(c: Config, s: State) {
    forall t :: InTerm(s, t) ==>
      c.job(t) in s.store && s.store[c.job(t)] == Entry(s.Phase(t).token, s.Phase(t).deadline)
  }

  /** No key outlives the term of its lock. */
  ghost predicate KeysExpire(c: Config, s: State) {
    forall j :: j in s.store ==> s.store[j].expires <= s.now + c.ttl(j)
  }

  ghost predicate Inv(c: Config, s: State) {
    && GuardHolds(c, s) && TokensOwned(c, s) && TokensDistinct(s) && StoreFresh(s)
    && KeysKept(c, s) && KeysExpire(c, s)
  }

  /** The task that an event moves. */
  ghost predicate Moves(e: Event, t: Task) {
    !e.Tick? && !e.Crash? && e.t == t
  }

  lemma OthersStay(c: Config, s: State, e: Event)
    requires Enabled(c, s, e) && !e.Crash?
    ensures forall u :: !Moves(e, u) ==> Apply(c, s, e).Phase(u) == s.Phase(u)
  {
  }

  lemma CrashPhases(c: Config, s: State, p: Process)
    ensures forall u :: Apply(c, s, Crash(p)).Phase(u)
                        == if u in s.phases && c.proc(u) == p then s.Phase(u).AfterCrash() else s.Phase(u)
  {
  }

  lemma MarkedKept(c: Config, s: State, e: Event)
    requires c.guarded && Inv(c, s) && Enabled(c, s, e)
    ensures Marked(c, Apply(c, s, e))
  {
    if e.Crash? {
      CrashPhases(c, s, e.p);
    } else {
      OthersStay(c, s, e);
    }
  }

  lemma AloneKept(c: Config, s: State, e: Event)
    requires c.guarded && Inv(c, s) && Enabled(c, s, e)
    ensures Alone(c, Apply(c, s, e))
  {
    if e.Crash? {
      CrashPhases(c, s, e.p);
    } else {
      OthersStay(c, s, e);
    }
  }

  lemma FieldKept(c: Config, s: State, e: Event)
    requires c.guarded && Inv(c, s) && Enabled(c, s, e)
    ensures FieldOwned(c, Apply(c, s, e))
  {
    if e.Crash? {
      CrashPhases(c, s, e.p);
    } else {
      OthersStay(c, s, e);
    }
  }

  lemma ArgumentKept(c: Config, s: State, e: Event)
    requires c.guarded && Inv(c, s) && Enabled(c, s, e)
    ensures ArgumentOwned(Apply(c, s, e))
  {
    if e.Crash? {
      CrashPhases(c, s, e.p);
    } else {
      OthersStay(c, s, e);
    }
  }

  /** A task's token is the one it had, or the one it draws now. */
  lemma TokenOrigin(c: Config, s: State, e: Event, t: Task)
    requires Enabled(c, s, e) && Apply(c, s, e).Phase(t).HasToken()
    ensures var token := Apply(c, s, e).Phase(t).token;
            e == Draw(t, token) || (s.Phase(t).HasToken() && s.Phase(t).token == token)
  {
  }

  lemma TokensDistinctKept(c: Config, s: State, e: Event)
    requires Inv(c, s) && Enabled(c, s, e)
    ensures TokensDistinct(Apply(c, s, e))
  {
    var s' := Apply(c, s, e);
    forall t | s'.Phase(t).HasToken()
      ensures s'.Phase(t).token in s'.used
    {
      TokenOrigin(c, s, e, t);
    }
    forall t, u | s'.Phase(t).HasToken() && s'.Phase(u).HasToken() && s'.Phase(t).token == s'.Phase(u).token
      ensures t == u
    {
      TokenOrigin(c, s, e, t);
      TokenOrigin(c, s, e, u);
    }
  }

  lemma StoreUsedKept(c: Config, s: State, e: Event)
    requires Inv(c, s) && Enabled(c, s, e)
    ensures StoreUsed(Apply(c, s, e))
  {
  }

  lemma NotYetSetKept(c: Config, s: State, e: Event)
    requires Inv(c, s) && Enabled(c, s, e)
    ensures NotYetSet(Apply(c, s, e))
  {
    if e.Crash? {
      CrashPhases(c, s, e.p);
    } else {
      OthersStay(c, s, e);
    }
  }

  lemma KeyKeptFor(c: Config, s: State, e: Event, t: Task)
    requires Inv(c, s) && Enabled(c, s, e)
    requires InTerm(Apply(c, s, e), t)
    ensures var s' := Apply(c, s, e);
            c.job(t) in s'.store && s'.store[c.job(t)] == Entry(s'.Phase(t).token, s'.Phase(t).deadline)
  {
    if e == RedisSet(t) {
    } else {
      assert InTerm(s, t) && Apply(c, s, e).Phase(t).token == s.Phase(t).token;
    }
  }

  lemma KeysKeptKept(c: Config, s: State, e: Event)
    requires Inv(c, s) && Enabled(c, s, e)
    ensures KeysKept(c, Apply(c, s, e)) && KeysExpire(c, Apply(c, s, e))
  {
    forall t | InTerm(Apply(c, s, e), t)
      ensures var s' := Apply(c, s, e);
              c.job(t) in s'.store && s'.store[c.job(t)] == Entry(s'.Phase(t).token, s'.Phase(t).deadline)
    {
      KeyKeptFor(c, s, e, t);
    }
  }

  ghost predicate Runs(c: Config, s: State, t: Task, slot: Slot) {
    s.Phase(t).Active() && c.Slot(t) == slot
  }

  /** What is marked as running is run by an active task. */
  ghost predicate Occupied(c: Config, s: State) {
    forall slot :: slot in s.running ==> exists t :: Runs(c, s, t, slot)
  }

  lemma StaysOccupied(c: Config, s: State, e: Event, slot: Slot)
    requires Occupied(c, s) && Enabled(c, s, e) && slot in Apply(c, s, e).running
    ensures exists t :: Runs(c, Apply(c, s, e), t, slot)
  {
    var s' := Apply(c, s, e);
    if slot in s.running {
      var t :| Runs(c, s, t, slot);
      if e.Crash? {
        CrashPhases(c, s, e.p);
      } else {
        OthersStay(c, s, e);
      }
      assert Runs(c, s', t, slot);
    } else {
      assert Runs(c, s', e.t, slot);
    }
  }

  lemma OccupiedKept(c: Config, s: State, e: Event)
    requires Occupied(c, s) && Enabled(c, s, e)
    ensures Occupied(c, Apply(c, s, e))
  {
    forall slot | slot in Apply(c, s, e).running
      ensures exists t :: Runs(c, Apply(c, s, e), t, slot)
    {
      StaysOccupied(c, s, e, slot);
    }
  }

  lemma StepKeepsInv(c: Config, s: State, e: Event)
    requires c.guarded && Inv(c, s) && Occupied(c, s) && Enabled(c, s, e)
    ensures Inv(c, Apply(c, s, e)) && Occupied(c, Apply(c, s, e))
  {
    OccupiedKept(c, s, e);
    MarkedKept(c, s, e);
    AloneKept(c, s, e);
    FieldKept(c, s, e);
    ArgumentKept(c, s, e);
    TokensDistinctKept(c, s, e);
    StoreUsedKept(c, s, e);
    NotYetSetKept(c, s, e);
    KeysKeptKept(c, s, e);
  }

  lemma {:induction false} RunKeepsInv(c: Config, events: seq<Event>)
    requires c.guarded && Run(c, events).Some?
    ensures Inv(c, Run(c, events).value) && Occupied(c, Run(c, events).value)
  {
    if events != [] {
      var last := |events| - 1;
      RunKeepsInv(c, events[..last]);
      StepKeepsInv(c, Run(c, events[..last]).value, events[last]);
    }
  }

  // ----- what every guarded run guarantees -----

  ghost predicate Reachable(c: Config, s: State) {
    exists events :: Run(c, events) == Some(s)
  }

  /** At most one task anywhere is inside an unexpired run of a job. */
  lemma MutualExclusion(c: Config, s: State, t: Task, u: Task)
    requires c.guarded && Reachable(c, s)
    requires InTerm(s, t) && InTerm(s, u) && c.job(t) == c.job(u)
    ensures t == u
  {
    var events :| Run(c, events) == Some(s);
    RunKeepsInv(c, events);
  }

  /** A release, however late and even from a crashed process, removes no key but its own: the run
      of any other task keeps its key, and a key is removed only if the releasing task set it. */
  lemma ReleaseSparesOthers(c: Config, s: State, t: Task)
    requires c.guarded && Reachable(c, s) && Enabled(c, s, RedisRelease(t))
    ensures var s' := Apply(c, s, RedisRelease(t));
            && (forall j :: j in s.store && j !in s'.store ==>
                  j == c.job(t) && s.store[j].token == s.Phase(t).token)
            && (forall j :: j in s'.store ==> j in s.store && s'.store[j] == s.store[j])
            && (forall u :: u != t && InTerm(s, u) ==>
                  InTerm(s', u) && Holds(s'.store, c.job(u), s'.Phase(u).token, s'.now))
  {
    var events :| Run(c, events) == Some(s);
    RunKeepsInv(c, events);
    StepKeepsInv(c, s, RedisRelease(t));
    OthersStay(c, s, RedisRelease(t));
  }

  /** A release within the term gives the lock back at once. */
  lemma ReleaseInTermFreesLock(c: Config, s: State, t: Task)
    requires c.guarded && Reachable(c, s) && s.Phase(t).Releasing? && InTerm(s, t)
    ensures c.job(t) !in Apply(c, s, RedisRelease(t)).store
  {
    var events :| Run(c, events) == Some(s);
    RunKeepsInv(c, events);
  }

  /** Whatever crashed, the lock is free again once its term has passed. */
  lemma LockFreedAfterTerm(c: Config, s: State, j: Job, d: nat)
    requires c.guarded && Reachable(c, s) && c.ttl(j) <= d
    ensures !Live(s.store, j, s.now + d) && !Live(Apply(c, s, Tick(d)).store, j, Apply(c, s, Tick(d)).now)
  {
    var events :| Run(c, events) == Some(s);
    RunKeepsInv(c, events);
  }

  // ----- jobs run again -----

  /** In every guarded run a task that wants to start a job gets past the guard exactly when no active task
      of its process runs the job; otherwise it skips and nothing changes. */
  lemma EntersIff(c: Config, s: State, t: Task)
    requires c.guarded && Reachable(c, s) && Enabled(c, s, Enter(t))
    ensures Apply(c, s, Enter(t)).Phase(t).Guarded? <==> forall u :: !Runs(c, s, u, c.Slot(t))
    ensures !Apply(c, s, Enter(t)).Phase(t).Guarded? ==> Apply(c, s, Enter(t)) == s
  {
    var events :| Run(c, events) == Some(s);
    RunKeepsInv(c, events);
  }

  lemma Next(c: Config, s: State, e: Event) returns (s': State)
    requires Reachable(c, s) && Enabled(c, s, e)
    ensures Reachable(c, s') && s' == Apply(c, s, e)
  {
    var events :| Run(c, events) == Some(s);
    assert (events + [e])[..|events|] == events;
    s' := Apply(c, s, e);
    assert Run(c, events + [e]) == Some(s');
  }

  /** No other task has moved. */
  ghost predicate OnlyMoved(s: State, s': State, t: Task) {
    s'.dead == s.dead && forall u :: u != t ==> s'.Phase(u) == s.Phase(u)
  }

  /** Whenever the lock of a job is free and no task of a live process runs it, a task that enters runs the
      job for a full term. */
  lemma FreeJobStarts(c: Config, s: State, t: Task, token: Token) returns (s': State)
    requires c.guarded && Reachable(c, s) && Enabled(c, s, Enter(t)) && token !in s.used
    requires !Live(s.store, c.job(t), s.now) && forall u :: !Runs(c, s, u, c.Slot(t))
    ensures Enabled(c, Apply(c, s, Enter(t)), Draw(t, token))
    ensures Enabled(c, Apply(c, Apply(c, s, Enter(t)), Draw(t, token)), RedisSet(t))
    ensures s' == Apply(c, Apply(c, Apply(c, s, Enter(t)), Draw(t, token)), RedisSet(t)) && Reachable(c, s')
    ensures s'.Phase(t) == Running(token, s.now + c.ttl(c.job(t))) && OnlyMoved(s, s', t)
  {
    EntersIff(c, s, t);
    var entered := Next(c, s, Enter(t));
    var drawn := Next(c, entered, Draw(t, token));
    s' := Next(c, drawn, RedisSet(t));
  }

  lemma Leaves(c: Config, s: State, t: Task) returns (s': State)
    requires c.guarded && Reachable(c, s) && s.Phase(t).Released?
    ensures s' == Apply(c, s, Leave(t)) && Reachable(c, s') && s'.Phase(t).Idle? && OnlyMoved(s, s', t)
    ensures s'.store == s.store && s'.now == s.now && c.proc(t) !in s'.dead
    ensures c.Slot(t) !in s'.tokens && forall u :: !Runs(c, s', u, c.Slot(t))
  {
    var events :| Run(c, events) == Some(s);
    RunKeepsInv(c, events);
    s' := Next(c, s, Leave(t));
  }

  /** A run that ends within its term leaves everything as it was before: the lock free, the guard open and
      the task idle, so that it can enter again and start again. */
  lemma EndedJobCanRunAgain(c: Config, s: State, t: Task) returns (s': State)
    requires c.guarded && Reachable(c, s) && s.Phase(t).Running? && InTerm(s, t)
    ensures Enabled(c, Apply(c, s, Finish(t)), RedisRelease(t))
    ensures Enabled(c, Apply(c, Apply(c, s, Finish(t)), RedisRelease(t)), Leave(t))
    ensures s' == Apply(c, Apply(c, Apply(c, s, Finish(t)), RedisRelease(t)), Leave(t)) && Reachable(c, s')
    ensures c.job(t) !in s'.store && c.Slot(t) !in s'.tokens && OnlyMoved(s, s', t)
    ensures Enabled(c, s', Enter(t)) && forall u :: !Runs(c, s', u, c.Slot(t))
  {
    var done := Next(c, s, Finish(t));
    ReleaseInTermFreesLock(c, done, t);
    var released := Next(c, done, RedisRelease(t));
    s' := Leaves(c, released, t);
  }

  lemma DeadStays(c: Config, s: State, e: Event, p: Process)
    requires p in s.dead && Enabled(c, s, e)
    ensures p in Apply(c, s, e).dead
  {
  }

  /** A crashed process runs nothing, and no task of it ever enters again. */
  lemma {:induction false} CrashedStaysDown(c: Config, events: seq<Event>, k: nat, t: Task)
    requires c.guarded && Run(c, events).Some? && k < |events| && events[k] == Crash(c.proc(t))
    ensures c.proc(t) in Run(c, events).value.dead
    ensures !Run(c, events).value.Phase(t).Active() && !Enabled(c, Run(c, events).value, Enter(t))
    decreases |events|
  {
    var last := |events| - 1;
    RunKeepsInv(c, events);
    if k < last {
      CrashedStaysDown(c, events[..last], k, t);
      DeadStays(c, Run(c, events[..last]).value, events[last], c.proc(t));
    }
  }

  // ----- why the guard is needed -----

  /** Tasks 0 and 1 share process 0, task 2 runs in process 1; all run job 0 for at most 10 ticks. */
  function Unguarded(): Config {
    Config((t: Task) => if t < 2 then 0 else 1, (t: Task) => 0, (j: Job) => 10, false)
  }

  lemma FirstRunExpires() returns (s: State)
    ensures Reachable(Unguarded(), s)
    ensures s == State(10, map[0 := Entry(100, 10)], map[0 := Running(100, 10)],
                       {(0, 0)}, map[(0, 0) := 100], {100}, {})
  {
    var c := Unguarded();
    assert Run(c, []) == Some(START);
    s := Next(c, START, Enter(0));
    s := Next(c, s, Draw(0, 100));
    s := Next(c, s, RedisSet(0));
    s := Next(c, s, Tick(10));
  }

  lemma SecondRunEnters() returns (s: State)
    ensures Reachable(Unguarded(), s)
    ensures s == State(10, map[0 := Entry(100, 10)], map[0 := Running(100, 10), 1 := Guarded],
                       {(0, 0)}, map[(0, 0) := 100], {100}, {})
  {
    s := FirstRunExpires();
    s := Next(Unguarded(), s, Enter(1));
  }

  lemma SecondRunDraws() returns (s: State)
    ensures Reachable(Unguarded(), s)
    ensures s == State(10, map[0 := Entry(100, 10)], map[0 := Running(100, 10), 1 := Setting(101)],
                       {(0, 0)}, map[(0, 0) := 101], {100, 101}, {})
  {
    var c := Unguarded();
    s := SecondRunEnters();
    s := Next(c, s, Draw(1, 101));
  }

  lemma SecondRunStarts() returns (s: State)
    ensures Reachable(Unguarded(), s)
    ensures s == State(10, map[0 := Entry(101, 20)], map[0 := Running(100, 10), 1 := Running(101, 20)],
                       {(0, 0)}, map[(0, 0) := 101], {100, 101}, {})
  {
    s := SecondRunDraws();
    s := Next(Unguarded(), s, RedisSet(1));
  }

  lemma FirstRunFinishes() returns (s: State)
    ensures Reachable(Unguarded(), s)
    ensures s == State(10, map[0 := Entry(101, 20)],
                       map[0 := Releasing(100, 10, Some(101)), 1 := Running(101, 20)],
                       {(0, 0)}, map[(0, 0) := 101], {100, 101}, {})
  {
    s := SecondRunStarts();
    s := Next(Unguarded(), s, Finish(0));
  }

  lemma FirstRunReleases() returns (s: State)
    ensures Reachable(Unguarded(), s)
    ensures s == State(10, map[], map[0 := Released, 1 := Running(101, 20)],
                       {(0, 0)}, map[(0, 0) := 101], {100, 101}, {})
  {
    var c := Unguarded();
    s := FirstRunFinishes();
    s := Next(c, s, RedisRelease(0));
  }

  /** Without the guard, a second run in the same process overwrites the token of the first, whose
      late release then frees the second run's key for a third. */
  lemma UnguardedRunBreaksExclusion()
    ensures exists s :: Reachable(Unguarded(), s) && InTerm(s, 1) && InTerm(s, 2)
  {
    var c := Unguarded();
    var s := FirstRunReleases();
    s := Next(c, s, Enter(2));
    s := Next(c, s, Draw(2, 102));
    s := Next(c, s, RedisSet(2));
    assert InTerm(s, 1) && InTerm(s, 2);
  }
}
