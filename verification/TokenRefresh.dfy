/**
 Single-flight token refresh of the mobile client (mobile/services/api.ts, response interceptor).

 A client has finitely many requests.  A 401 on an unmarked request either starts the one refresh
 or parks the request behind it; a parked request holds a promise that the refresh settles.  The
 state machine below is the event loop's view, one event per callback; ApiClient is the module
 itself, with its two variables.
 */
module TokenRefresh {
  import opened Wrappers

  type Request = nat

  datatype Phase =
    | Unsent
    | Sent        // waiting for the server
    | Parked      // waiting on failedQueue
    | Refreshing  // the request whose callback runs the refresh
    | Resumed     // promise resolved, about to be sent again
    | Resolved
    | Rejected
  {
    predicate Settled() {
      Resolved? || Rejected?
    }

    /** How much a request still has to do before the next refresh has to happen. */
    function Weight(): nat {
      match this
      case Unsent => 3
      case Resumed => 2
      case Sent => 1
      case _ => 0
    }
  }

  /** One entry of failedQueue: a promise and the request that waits on it. */
  datatype Waiter = Waiter(promise: nat, request: Request)

  datatype State = State(
    phases: seq<Phase>,          // per request
    retried: set<Request>,       // _retry
    isRefreshing: bool,
    failedQueue: seq<Waiter>,
    promises: nat,               // promises made so far
    settled: seq<nat>,           // promises settled so far, in order
    refreshes: nat)              // refresh calls made so far

  datatype Event =
    | Send(r: Request)
    | Success(r: Request)
    | Failure(r: Request, unauthorized: bool, hasRefreshToken: bool)
    | RefreshOk(r: Request)     // the refresh call that r started succeeded
    | RefreshFailed(r: Request)

  function Start(n: nat): State {
    State(seq(n, (_: nat) => Unsent), {}, false, [], 0, [], 0)
  }

  predicate At(s: State, r: Request, p: Phase) {
    r < |s.phases| && s.phases[r] == p
  }

  predicate Enabled(s: State, e: Event) {
    match e
    case Send(r) => At(s, r, Unsent) || At(s, r, Resumed)
    case Success(r) => At(s, r, Sent)
    case Failure(r, _, _) => At(s, r, Sent)
    case RefreshOk(r) => At(s, r, Refreshing)
    case RefreshFailed(r) => At(s, r, Refreshing)
  }

  predicate Waits(queue: seq<Waiter>, r: Request) {
    exists k :: 0 <= k < |queue| && queue[k].request == r
  }

  /** processQueue: every waiter's promise is settled, and its request moves on. */
  function Process(phases: seq<Phase>, queue: seq<Waiter>, to: Phase): (r: seq<Phase>)
    ensures |r| == |phases|
  {
    seq(|phases|, i requires 0 <= i < |phases| =>
          if Waits(queue, i) then to else phases[i])
  }

  function Promises(queue: seq<Waiter>): (r: seq<nat>)
    ensures |r| == |queue| && forall k :: 0 <= k < |r| ==> r[k] == queue[k].promise
  {
    seq(|queue|, k requires 0 <= k < |queue| => queue[k].promise)
  }

  /** The end of r's callback: the queue is processed, r moves on, the flag is cleared. */
  function FinishRefresh(s: State, r: Request, waiters: Phase, leader: Phase): State
    requires r < |s.phases|
  {
    s.(phases := Process(s.phases, s.failedQueue, waiters)[r := leader],
       isRefreshing := false,
       failedQueue := [],
       settled := s.settled + Promises(s.failedQueue))
  }

  function Apply(s: State, e: Event): State
    requires Enabled(s, e)
  {
    match e
    case Send(r) => s.(phases := s.phases[r := Sent])
    case Success(r) => s.(phases := s.phases[r := Resolved])
    case Failure(r, unauthorized, hasRefreshToken) =>
      if !unauthorized || r in s.retried then
        s.(phases := s.phases[r := Rejected])
      else if s.isRefreshing then
        s.(phases := s.phases[r := Parked],
           failedQueue := s.failedQueue + [Waiter(s.promises, r)], promises := s.promises + 1)
      else if hasRefreshToken then
        s.(phases := s.phases[r := Refreshing], retried := s.retried + {r},
           isRefreshing := true, refreshes := s.refreshes + 1)
      else
        // throws before the call: the empty queue is processed and the request rejected at once
        FinishRefresh(s.(retried := s.retried + {r}), r, Rejected, Rejected)
    case RefreshOk(r) => FinishRefresh(s, r, Resumed, Sent)
    case RefreshFailed(r) => FinishRefresh(s, r, Rejected, Rejected)
  }

  function Run(n: nat, events: seq<Event>): Option<State> {
    if events == [] then Some(Start(n))
    else
      var last := |events| - 1;
      match Run(n, events[..last])
      case None => None
      case Some(s) => if Enabled(s, events[last]) then Some(Apply(s, events[last])) else None
  }

  // ----- the invariant -----

  /** Only the requests on the queue are parked, each once. */
  ghost predicate QueueMatches(s: State) {
    && (forall k, l :: 0 <= k < l < |s.failedQueue| ==> s.failedQueue[k].request != s.failedQueue[l].request)
    && (forall r :: At(s, r, Parked) <==> Waits(s.failedQueue, r))
  }

  /** One request leads the refresh while there is one, and none does otherwise. */
  ghost predicate OneLeader(s: State) {
    && (forall q, r :: At(s, q, Refreshing) && At(s, r, Refreshing) ==> q == r)
    && (s.isRefreshing <==> exists r :: At(s, r, Refreshing))
    && (s.failedQueue != [] ==> s.isRefreshing)
    && (forall r :: At(s, r, Refreshing) ==> r in s.retried)
  }

  /** Every promise made so far is either settled, once, or waiting, once. */
  ghost predicate PromisesKept(s: State) {
    var all := s.settled + Promises(s.failedQueue);
    |all| == s.promises && forall k :: 0 <= k < |all| ==> all[k] == k
  }

  ghost predicate RefreshesCounted(s: State) {
    s.refreshes <= |s.retried| && forall r :: r in s.retried ==> r < |s.phases|
  }

  ghost predicate Inv(s: State) {
    QueueMatches(s) && OneLeader(s) && PromisesKept(s) && RefreshesCounted(s)
  }

  predicate Parks(s: State, e: Event)
    requires Enabled(s, e)
  {
    e.Failure? && e.unauthorized && e.r !in s.retried && s.isRefreshing
  }

  lemma JoinQueue(queue: seq<Waiter>, w: Waiter)
    ensures forall r :: Waits(queue + [w], r) <==> Waits(queue, r) || r == w.request
    ensures Promises(queue + [w]) == Promises(queue) + [w.promise]
  {
    forall r | Waits(queue, r)
      ensures Waits(queue + [w], r)
    {
      var k :| 0 <= k < |queue| && queue[k].request == r;
      assert (queue + [w])[k] == queue[k];
    }
    assert (queue + [w])[|queue|] == w;
  }

  lemma QueueKept(s: State, e: Event)
    requires Inv(s) && Enabled(s, e)
    ensures QueueMatches(Apply(s, e))
  {
    if Parks(s, e) {
      JoinQueue(s.failedQueue, Waiter(s.promises, e.r));
      assert !Waits(s.failedQueue, e.r);
    } else {
      forall r: Request | r < |s.phases|
        ensures At(Apply(s, e), r, Parked) <==> Waits(Apply(s, e).failedQueue, r)
      {
        assert At(s, r, Parked) <==> Waits(s.failedQueue, r);
      }
    }
  }

  lemma LeaderKept(s: State, e: Event)
    requires Inv(s) && Enabled(s, e)
    ensures OneLeader(Apply(s, e))
  {
    var s' := Apply(s, e);
    forall r | At(s', r, Refreshing)
      ensures At(s, r, Refreshing) || e == Failure(r, true, true)
    {
    }
    if s'.isRefreshing && s.isRefreshing {
      var r :| At(s, r, Refreshing);
      assert At(s', r, Refreshing);
    } else if s'.isRefreshing {
      assert At(s', e.r, Refreshing);
    } else if s.isRefreshing {
      assert At(s, e.r, Refreshing);
    }
  }

  lemma PromisesKeptOn(s: State, e: Event)
    requires Inv(s) && Enabled(s, e)
    ensures PromisesKept(Apply(s, e))
  {
    var s' := Apply(s, e);
    if Parks(s, e) {
      JoinQueue(s.failedQueue, Waiter(s.promises, e.r));
      assert s'.settled + Promises(s'.failedQueue) == s.settled + Promises(s.failedQueue) + [s.promises];
    } else {
      assert s'.settled + Promises(s'.failedQueue) == s.settled + Promises(s.failedQueue);
    }
  }

  lemma {:induction false} StepKeepsInv(s: State, e: Event)
    requires Inv(s) && Enabled(s, e)
    ensures Inv(Apply(s, e)) && |Apply(s, e).phases| == |s.phases|
  {
    QueueKept(s, e);
    LeaderKept(s, e);
    PromisesKeptOn(s, e);
  }

  lemma {:induction false} RunKeepsInv(n: nat, events: seq<Event>)
    requires Run(n, events).Some?
    ensures Inv(Run(n, events).value) && |Run(n, events).value.phases| == n
  {
    if events != [] {
      var last := |events| - 1;
      RunKeepsInv(n, events[..last]);
      StepKeepsInv(Run(n, events[..last]).value, events[last]);
    }
  }

  // ----- termination -----

  function Weights(phases: seq<Phase>): nat {
    if phases == [] then 0 else phases[0].Weight() + Weights(phases[1..])
  }

  lemma {:induction false} WeightsBound(phases: seq<Phase>)
    ensures Weights(phases) <= 3 * |phases|
  {
    if phases != [] {
      WeightsBound(phases[1..]);
    }
  }

  lemma {:induction false} WeightsUpdate(phases: seq<Phase>, r: Request, p: Phase)
    requires r < |phases|
    ensures Weights(phases[r := p]) == Weights(phases) - phases[r].Weight() + p.Weight()
  {
    if r == 0 {
      assert phases[r := p][1..] == phases[1..];
    } else {
      assert phases[r := p][1..] == phases[1..][r - 1 := p];
      WeightsUpdate(phases[1..], r - 1, p);
    }
  }

  /** Twice the requests that may still start a refresh, plus one while a refresh runs. */
  function Rounds(s: State): int {
    2 * (|s.phases| - |s.retried|) + if s.isRefreshing then 1 else 0
  }

  function Measure(s: State): int {
    Rounds(s) * (3 * |s.phases| + 1) + Weights(s.phases)
  }

  lemma {:induction false} RetriedBound(retried: set<Request>, n: nat)
    requires forall r :: r in retried ==> r < n
    ensures |retried| <= n
  {
    if n > 0 {
      var fewer := retried - {n - 1};
      assert forall r :: r in fewer ==> r < n - 1;
      RetriedBound(fewer, n - 1);
    }
  }

  lemma FewerRounds(x: int, y: int, n: nat, v: nat, w: nat)
    requires x < y && v <= 3 * n
    ensures x * (3 * n + 1) + v < y * (3 * n + 1) + w
  {
    assert x * (3 * n + 1) <= (y - 1) * (3 * n + 1) == y * (3 * n + 1) - (3 * n + 1);
  }

  lemma StepDecreases(s: State, e: Event)
    requires Inv(s) && Enabled(s, e)
    ensures Measure(Apply(s, e)) < Measure(s)
  {
    var s' := Apply(s, e);
    if Rounds(s') < Rounds(s) {
      WeightsBound(s'.phases);
      FewerRounds(Rounds(s'), Rounds(s), |s.phases|, Weights(s'.phases), Weights(s.phases));
    } else {
      assert s'.phases == s.phases[e.r := s'.phases[e.r]];
      WeightsUpdate(s.phases, e.r, s'.phases[e.r]);
    }
  }

  lemma MeasureNonNegative(s: State)
    requires Inv(s)
    ensures 0 <= Measure(s)
  {
    RetriedBound(s.retried, |s.phases|);
    assert 0 <= Rounds(s) * (3 * |s.phases| + 1);
  }

  lemma {:induction false} RunUsesMeasure(n: nat, events: seq<Event>)
    requires Run(n, events).Some?
    ensures Measure(Run(n, events).value) + |events| <= Measure(Start(n))
  {
    if events != [] {
      var last := |events| - 1;
      RunUsesMeasure(n, events[..last]);
      RunKeepsInv(n, events[..last]);
      StepDecreases(Run(n, events[..last]).value, events[last]);
    }
  }

  lemma StartMeasure(n: nat)
    ensures Measure(Start(n)) <= 2 * n * (3 * n + 1) + 3 * n
  {
    WeightsBound(Start(n).phases);
    assert Rounds(Start(n)) == 2 * n;
  }

  // ----- what every run guarantees -----

  /** No run of n requests takes more than 2n(3n + 1) + 3n callbacks. */
  lemma EveryRunEnds(n: nat, events: seq<Event>)
    requires Run(n, events).Some?
    ensures |events| <= 2 * n * (3 * n + 1) + 3 * n
  {
    RunUsesMeasure(n, events);
    RunKeepsInv(n, events);
    MeasureNonNegative(Run(n, events).value);
    StartMeasure(n);
  }

  /** At any point at most one refresh is under way; requests are parked only while it is; and no
      more refreshes were made than there are requests. */
  lemma SingleFlight(n: nat, events: seq<Event>)
    requires Run(n, events).Some?
    ensures var s := Run(n, events).value;
            && (forall q, r :: At(s, q, Refreshing) && At(s, r, Refreshing) ==> q == r)
            && (s.isRefreshing <==> exists r :: At(s, r, Refreshing))
            && (s.failedQueue != [] ==> s.isRefreshing)
            && s.refreshes <= n
  {
    RunKeepsInv(n, events);
    RetriedBound(Run(n, events).value.retried, n);
  }

  /** The promises settled so far are the first ones made, each once and in order; the others wait
      on the queue. */
  lemma {:induction false} PromisesSettleOnce(n: nat, events: seq<Event>)
    requires Run(n, events).Some?
    ensures var s := Run(n, events).value;
            && |s.settled| + |s.failedQueue| == s.promises
            && (forall k :: 0 <= k < |s.settled| ==> s.settled[k] == k)
            && (forall k :: 0 <= k < |s.failedQueue| ==> s.failedQueue[k].promise == |s.settled| + k)
  {
    RunKeepsInv(n, events);
    var s := Run(n, events).value;
    forall k | 0 <= k < |s.failedQueue|
      ensures s.failedQueue[k].promise == |s.settled| + k
    {
      assert (s.settled + Promises(s.failedQueue))[|s.settled| + k] == s.failedQueue[k].promise;
    }
    forall k | 0 <= k < |s.settled|
      ensures s.settled[k] == k
    {
      assert (s.settled + Promises(s.failedQueue))[k] == s.settled[k];
    }
  }

  /** A run can stop only when every request is settled, and every promise with it. */
  lemma StuckMeansSettled(n: nat, events: seq<Event>)
    requires Run(n, events).Some?
    requires forall e :: !Enabled(Run(n, events).value, e)
    ensures var s := Run(n, events).value;
            && |s.phases| == n && (forall r :: 0 <= r < n ==> s.phases[r].Settled())
            && !s.isRefreshing && s.failedQueue == [] && |s.settled| == s.promises
  {
    RunKeepsInv(n, events);
    var s := Run(n, events).value;
    if s.isRefreshing {
      var r :| At(s, r, Refreshing);
      assert Enabled(s, RefreshOk(r));
    }
    forall r | 0 <= r < n
      ensures s.phases[r].Settled()
    {
      assert !Enabled(s, Send(r)) && !Enabled(s, Success(r)) && !Enabled(s, RefreshOk(r));
      assert At(s, r, Parked) <==> Waits(s.failedQueue, r);
    }
  }

  // ----- what becomes of each request -----

  /** Request r led a refresh that went well. */
  ghost predicate Led(events: seq<Event>, r: Request) {
    RefreshOk(r) in events
  }

  /** The event in state s, after these events, rejects request r. */
  ghost predicate Rejects(s: State, events: seq<Event>, e: Event, r: Request) {
    match e
    case Failure(q, unauthorized, hasRefreshToken) =>
      q == r && (!unauthorized || Led(events, r) || (!s.isRefreshing && !hasRefreshToken))
    case RefreshFailed(q) => q == r || At(s, r, Parked)
    case _ => false
  }

  /** The requests that are marked have led a refresh, lead one now, or are rejected. */
  ghost predicate Marks(s: State, events: seq<Event>) {
    && (forall r :: r in s.retried ==> Led(events, r) || At(s, r, Refreshing) || At(s, r, Rejected))
    && (forall r :: Led(events, r) ==> r in s.retried)
  }

  lemma StepMarks(s: State, events: seq<Event>, e: Event, after: seq<Event>)
    requires Inv(s) && Marks(s, events) && Enabled(s, e) && after == events + [e]
    ensures Marks(Apply(s, e), after)
  {
    var s' := Apply(s, e);
    assert forall r :: Led(after, r) <==> Led(events, r) || e == RefreshOk(r);
    forall r | r in s'.retried
      ensures Led(after, r) || At(s', r, Refreshing) || At(s', r, Rejected)
    {
      assert At(s, r, Parked) <==> Waits(s.failedQueue, r);
    }
  }

  lemma RunStep(n: nat, events: seq<Event>, before: seq<Event>, e: Event)
    requires Run(n, events).Some? && events != [] && before == events[..|events| - 1] && e == events[|events| - 1]
    ensures Run(n, before).Some? && Enabled(Run(n, before).value, e) && events == before + [e]
    ensures Run(n, events) == Some(Apply(Run(n, before).value, e))
  {
  }

  lemma {:induction false} RunMarks(n: nat, events: seq<Event>)
    requires Run(n, events).Some?
    ensures Marks(Run(n, events).value, events)
  {
    if events != [] {
      var before, e := events[..|events| - 1], events[|events| - 1];
      RunStep(n, events, before, e);
      RunMarks(n, before);
      RunKeepsInv(n, before);
      StepMarks(Run(n, before).value, before, e, events);
    }
  }

  /** What an event makes of request r, from the phases of the requests alone: without the queue, the
      promises and the marks. */
  ghost function Fate(s: State, events: seq<Event>, e: Event, r: Request): Phase
    requires r < |s.phases|
  {
    if Rejects(s, events, e, r) then Rejected
    else
      match e
      case Send(q) => if q == r then Sent else s.phases[r]
      case Success(q) => if q == r then Resolved else s.phases[r]
      case Failure(q, _, _) =>
        if q != r then s.phases[r] else if exists l :: At(s, l, Refreshing) then Parked else Refreshing
      case RefreshOk(q) => if q == r then Sent else if s.phases[r] == Parked then Resumed else s.phases[r]
      case RefreshFailed(_) => s.phases[r]
  }

  lemma StepMeans(s: State, events: seq<Event>, e: Event, r: Request)
    requires Inv(s) && Marks(s, events) && Enabled(s, e) && r < |s.phases|
    ensures Apply(s, e).phases[r] == Fate(s, events, e, r)
  {
    assert At(s, r, Parked) <==> Waits(s.failedQueue, r);
    assert s.isRefreshing <==> exists l :: At(s, l, Refreshing);
  }

  /** In every run each event moves each request as its phase says.  A refresh that goes well resumes
      every parked request and sends its leader again; one that fails rejects them all. */
  lemma RequestsFollowFate(n: nat, events: seq<Event>, e: Event, r: Request)
    requires Run(n, events).Some? && Enabled(Run(n, events).value, e) && r < n
    ensures r < |Run(n, events).value.phases|
    ensures Apply(Run(n, events).value, e).phases[r] == Fate(Run(n, events).value, events, e, r)
  {
    RunKeepsInv(n, events);
    RunMarks(n, events);
    StepMeans(Run(n, events).value, events, e, r);
  }

  /** Event k of the run rejects r. */
  ghost predicate RejectsAt(n: nat, events: seq<Event>, k: nat, r: Request) {
    && k < |events| && Run(n, events[..k]).Some?
    && Rejects(Run(n, events[..k]).value, events[..k], events[k], r)
  }

  ghost predicate RejectedDuring(n: nat, events: seq<Event>, r: Request) {
    exists k: nat :: RejectsAt(n, events, k, r)
  }

  lemma RejectsAtSame(n: nat, events: seq<Event>, before: seq<Event>, k: nat, r: Request)
    requires |before| <= |events| && before == events[..|before|] && k < |before|
    ensures RejectsAt(n, events, k, r) <==> RejectsAt(n, before, k, r)
  {
    assert before[..k] == events[..k];
  }

  lemma RejectedOneMore(n: nat, events: seq<Event>, before: seq<Event>, r: Request)
    requires events != [] && before == events[..|events| - 1]
    ensures RejectedDuring(n, events, r) <==> RejectedDuring(n, before, r) || RejectsAt(n, events, |before|, r)
  {
    if RejectedDuring(n, events, r) {
      var k: nat :| RejectsAt(n, events, k, r);
      if k < |before| {
        RejectsAtSame(n, events, before, k, r);
      }
    }
    if RejectedDuring(n, before, r) {
      var k: nat :| RejectsAt(n, before, k, r);
      RejectsAtSame(n, events, before, k, r);
    }
  }

  lemma SettledStays(s: State, events: seq<Event>, e: Event, r: Request)
    requires Inv(s) && Marks(s, events) && Enabled(s, e) && r < |s.phases| && s.phases[r].Settled()
    ensures Apply(s, e).phases[r] == s.phases[r] && !Rejects(s, events, e, r)
  {
    StepMeans(s, events, e, r);
  }

  /** In every run a request is rejected exactly by a failure that is not a 401, by one that follows a
      refresh it led, by one that finds neither a refresh under way nor a token to start one, or by a
      refresh that fails while it leads it or waits for it. */
  lemma {:induction false} RejectedIff(n: nat, events: seq<Event>, r: Request)
    requires Run(n, events).Some?
    ensures At(Run(n, events).value, r, Rejected) <==> r < n && RejectedDuring(n, events, r)
  {
    if events == [] {
      assert forall k: nat :: !RejectsAt(n, events, k, r);
    } else {
      var last := |events| - 1;
      var s := Run(n, events[..last]).value;
      RejectedIff(n, events[..last], r);
      RejectedOneMore(n, events, events[..last], r);
      RunKeepsInv(n, events[..last]);
      RunMarks(n, events[..last]);
      StepKeepsInv(s, events[last]);
      if r < n {
        StepMeans(s, events[..last], events[last], r);
        if At(s, r, Rejected) {
          SettledStays(s, events[..last], events[last], r);
        }
      }
    }
  }

  /** It is resolved exactly when the server answered it. */
  lemma {:induction false} ResolvedIff(n: nat, events: seq<Event>, r: Request)
    requires Run(n, events).Some?
    ensures At(Run(n, events).value, r, Resolved) <==> Success(r) in events
  {
    if events != [] {
      var last := |events| - 1;
      var s := Run(n, events[..last]).value;
      ResolvedIff(n, events[..last], r);
      RunKeepsInv(n, events[..last]);
      RunMarks(n, events[..last]);
      StepKeepsInv(s, events[last]);
      assert Success(r) in events <==> Success(r) in events[..last] || events[last] == Success(r);
      if r < n {
        StepMeans(s, events[..last], events[last], r);
        if At(s, r, Resolved) {
          SettledStays(s, events[..last], events[last], r);
        }
      }
    }
  }

  /** Every failure is a 401 that finds a refresh token, no refresh fails, and no request fails twice. */
  ghost predicate Recoverable(events: seq<Event>) {
    && (forall k :: 0 <= k < |events| ==> !events[k].RefreshFailed?)
    && (forall k :: 0 <= k < |events| && events[k].Failure? ==> events[k].unauthorized && events[k].hasRefreshToken)
    && (forall j, k :: 0 <= j < k < |events| && events[j].Failure? && events[k].Failure? ==> events[j].r != events[k].r)
  }

  ghost predicate HasNotFailed(events: seq<Event>, r: Request) {
    forall k :: 0 <= k < |events| && events[k].Failure? ==> events[k].r != r
  }

  lemma {:induction false} OnlyFailedAreMarked(n: nat, events: seq<Event>, r: Request)
    requires Run(n, events).Some? && HasNotFailed(events, r)
    ensures r !in Run(n, events).value.retried
  {
    if events != [] {
      OnlyFailedAreMarked(n, events[..|events| - 1], r);
    }
  }

  lemma FirstFailure(n: nat, events: seq<Event>, k: nat)
    requires Recoverable(events) && k < |events| && events[k].Failure? && Run(n, events[..k]).Some?
    ensures !Led(events[..k], events[k].r)
  {
    RunMarks(n, events[..k]);
    OnlyFailedAreMarked(n, events[..k], events[k].r);
  }

  lemma RecoverableSpares(n: nat, events: seq<Event>, k: nat, r: Request)
    requires Recoverable(events)
    ensures !RejectsAt(n, events, k, r)
  {
    if k < |events| && events[k].Failure? && Run(n, events[..k]).Some? {
      FirstFailure(n, events, k);
    }
  }

  /** Then the user never sees a failure: no request is rejected, and a run that stops has resolved all. */
  lemma RecoverableRunRejectsNone(n: nat, events: seq<Event>, r: Request)
    requires Run(n, events).Some? && Recoverable(events) && r < n
    ensures !At(Run(n, events).value, r, Rejected)
    ensures (forall e :: !Enabled(Run(n, events).value, e)) ==> At(Run(n, events).value, r, Resolved)
  {
    RejectedIff(n, events, r);
    forall k: nat ensures !RejectsAt(n, events, k, r) { RecoverableSpares(n, events, k, r); }
    if forall e :: !Enabled(Run(n, events).value, e) {
      StuckMeansSettled(n, events);
    }
  }

  function RefreshEnds(events: seq<Event>): nat {
    if events == [] then 0
    else
      var last := events[|events| - 1];
      RefreshEnds(events[..|events| - 1]) + if last.RefreshOk? || last.RefreshFailed? then 1 else 0
  }

  /** The refresh calls are those that came back and the one under way. */
  lemma {:induction false} RefreshesAreCounted(n: nat, events: seq<Event>)
    requires Run(n, events).Some?
    ensures var s := Run(n, events).value; s.refreshes == RefreshEnds(events) + if s.isRefreshing then 1 else 0
  {
    if events != [] {
      var last := |events| - 1;
      RefreshesAreCounted(n, events[..last]);
      RunKeepsInv(n, events[..last]);
    }
  }

  // ----- the module -----

  /** The interceptor's module variables, and the requests it has seen. */
  class ApiClient {
    var phases: seq<Phase>
    var retried: set<Request>
    var isRefreshing: bool
    var failedQueue: seq<Waiter>
    var promises: nat
    var settled: seq<nat>
    var refreshes: nat

    ghost function Value(): State
      reads this
    {
      State(phases, retried, isRefreshing, failedQueue, promises, settled, refreshes)
    }

    constructor (n: nat)
      ensures Value() == Start(n)
    {
      phases := seq(n, (_: nat) => Unsent);
      retried, isRefreshing, failedQueue, promises, settled, refreshes := {}, false, [], 0, [], 0;
    }

    method ProcessQueue(to: Phase)
      requires forall k :: 0 <= k < |failedQueue| ==> failedQueue[k].request < |phases|
      modifies `phases, `failedQueue, `settled
      ensures phases == Process(old(phases), old(failedQueue), to)
      ensures settled == old(settled) + Promises(old(failedQueue))
      ensures failedQueue == []
    {
      for k := 0 to |failedQueue|
        invariant failedQueue == old(failedQueue) && |phases| == |old(phases)|
        invariant phases == Process(old(phases), failedQueue[..k], to)
        invariant settled == old(settled) + Promises(failedQueue[..k])
      {
        var p := failedQueue[k];
        JoinQueue(failedQueue[..k], p);
        assert failedQueue[..k] + [p] == failedQueue[..k + 1];
        phases := phases[p.request := to];
        settled := settled + [p.promise];
      }
      assert failedQueue[..|failedQueue|] == failedQueue;
      failedQueue := [];
    }

    method RunRefreshEnd(r: Request, waiters: Phase, leader: Phase)
      requires r < |phases| && forall k :: 0 <= k < |failedQueue| ==> failedQueue[k].request < |phases|
      modifies this
      ensures Value() == FinishRefresh(old(Value()), r, waiters, leader)
    {
      ProcessQueue(waiters);
      phases := phases[r := leader];
      isRefreshing := false;
    }

    /** The error callback of request r, up to the refresh call if it makes one. */
    method OnError(r: Request, unauthorized: bool, hasRefreshToken: bool)
      requires Inv(Value()) && At(Value(), r, Sent)
      modifies this
      ensures Value() == Apply(old(Value()), Failure(r, unauthorized, hasRefreshToken))
      ensures Inv(Value())
    {
      StepKeepsInv(Value(), Failure(r, unauthorized, hasRefreshToken));
      WaitersKnown(Value());
      if unauthorized && r !in retried {
        if isRefreshing {
          failedQueue := failedQueue + [Waiter(promises, r)];
          promises := promises + 1;
          phases := phases[r := Parked];
          return;
        }
        retried := retried + {r};
        if !hasRefreshToken {
          RunRefreshEnd(r, Rejected, Rejected);
          return;
        }
        isRefreshing := true;
        refreshes := refreshes + 1;
        phases := phases[r := Refreshing];
        return;
      }
      phases := phases[r := Rejected];
    }

    /** The refresh call of r's callback came back. */
    method OnRefreshed(r: Request, ok: bool)
      requires Inv(Value()) && At(Value(), r, Refreshing)
      modifies this
      ensures Value() == Apply(old(Value()), if ok then RefreshOk(r) else RefreshFailed(r))
      ensures Inv(Value())
    {
      StepKeepsInv(Value(), if ok then RefreshOk(r) else RefreshFailed(r));
      WaitersKnown(Value());
      if ok {
        RunRefreshEnd(r, Resumed, Sent);
      } else {
        RunRefreshEnd(r, Rejected, Rejected);
      }
    }
  }

  lemma WaitersKnown(s: State)
    requires QueueMatches(s)
    ensures forall k :: 0 <= k < |s.failedQueue| ==> s.failedQueue[k].request < |s.phases|
  {
    forall k | 0 <= k < |s.failedQueue|
      ensures s.failedQueue[k].request < |s.phases|
    {
      assert Waits(s.failedQueue, s.failedQueue[k].request);
      assert At(s, s.failedQueue[k].request, Parked);
    }
  }
}
