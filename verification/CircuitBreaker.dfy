/**
 The connector circuit breaker (data_platform/connectors/__init__.py, BaseConnector.fetch).

 Fetches interleave: any number may be in flight, and each ends in a success or a failure at any
 later time.  Checking the circuit, waiting for a token and counting the request is one step: the
 token bucket sleeps without yielding to the event loop.
 */
module CircuitBreaker {
  import opened Wrappers

  datatype Circuit = Closed | Open | HalfOpen

  datatype Config = Config(threshold: int, reset: real)

  datatype State = State(
    now: real,
    total: nat,              // requests_total
    success: nat,
    failed: nat,
    consecutive: nat,        // consecutive_failures
    circuit: Circuit,
    openSince: Option<real>, // when the circuit last opened
    inFlight: nat)

  datatype Event =
    | Tick(d: real)
    | Fetch(wait: real)      // check the circuit, wait for a token, send
    | Succeed
    | Fail

  const START := State(0.0, 0, 0, 0, 0, Closed, None, 0)

  /** The circuit check refuses the fetch. */
  predicate Refused(c: Config, s: State) {
    s.circuit.Open? && s.now - (if s.openSince.Some? then s.openSince.value else 0.0) < c.reset
  }

  predicate Enabled(s: State, e: Event) {
    match e
    case Tick(d) => 0.0 <= d
    case Fetch(wait) => 0.0 <= wait
    case _ => 0 < s.inFlight
  }

  function RecordSuccess(s: State): State {
    s.(success := s.success + 1, consecutive := 0, circuit := if s.circuit.HalfOpen? then Closed else s.circuit)
  }

  function RecordFailure(c: Config, s: State): State {
    var opens := s.consecutive + 1 >= c.threshold;
    s.(failed := s.failed + 1, consecutive := s.consecutive + 1,
       circuit := if opens then Open else s.circuit,
       openSince := if opens then Some(s.now) else s.openSince)
  }

  function Step(c: Config, s: State, e: Event): State {
    if !Enabled(s, e) then s
    else
      match e
      case Tick(d) => s.(now := s.now + d)
      case Fetch(wait) =>
        if Refused(c, s) then s
        else s.(circuit := if s.circuit.Open? then HalfOpen else s.circuit,
                now := s.now + wait, total := s.total + 1, inFlight := s.inFlight + 1)
      case Succeed => RecordSuccess(s).(inFlight := s.inFlight - 1)
      case Fail => RecordFailure(c, s).(inFlight := s.inFlight - 1)
  }

  function Run(c: Config, events: seq<Event>): State {
    if events == [] then START else Step(c, Run(c, events[..|events| - 1]), events[|events| - 1])
  }

  // ----- every run -----

  ghost predicate Counted(s: State) {
    s.total == s.success + s.failed + s.inFlight
  }

  /** Unless the circuit is open, it last opened at least the reset time ago. */
  ghost predicate Rested(c: Config, s: State) {
    && (s.openSince == None ==> s.circuit.Closed?)
    && (!s.circuit.Open? && s.openSince.Some? ==> c.reset <= s.now - s.openSince.value)
  }

  ghost predicate ClosedBelow(c: Config, s: State) {
    s.circuit.Closed? ==> s.consecutive < c.threshold
  }

  lemma {:induction false} RunCountsAndRests(c: Config, events: seq<Event>)
    ensures Counted(Run(c, events)) && Rested(c, Run(c, events))
  {
    if events != [] {
      RunCountsAndRests(c, events[..|events| - 1]);
    }
  }

  /** A fetch that is not refused starts no sooner than the reset time after the circuit last
      opened, whatever else is in flight. */
  lemma {:induction false} NoEarlyFetch(c: Config, events: seq<Event>, wait: real)
    requires 0.0 <= wait && !Refused(c, Run(c, events))
    ensures var s, s' := Run(c, events), Step(c, Run(c, events), Fetch(wait));
            && s'.total == s.total + 1
            && (s.openSince.Some? ==> c.reset <= s'.now - s.openSince.value)
  {
    RunCountsAndRests(c, events);
  }

  lemma {:induction false} RunClosedBelow(c: Config, events: seq<Event>)
    requires 1 <= c.threshold
    ensures ClosedBelow(c, Run(c, events))
  {
    if events != [] {
      RunClosedBelow(c, events[..|events| - 1]);
    }
  }

  /** A closed circuit has seen fewer consecutive failures than the threshold, in every run, exactly
      for positive thresholds. */
  lemma ClosedBelowIffPositive(c: Config)
    ensures (forall events :: ClosedBelow(c, Run(c, events))) <==> 1 <= c.threshold
  {
    if 1 <= c.threshold {
      forall events ensures ClosedBelow(c, Run(c, events)) { RunClosedBelow(c, events); }
    } else {
      assert !ClosedBelow(c, Run(c, []));
    }
  }

  // ----- the circuit in terms of the events -----

  /** Event k of the run ends a fetch in flight. */
  predicate Ends(c: Config, events: seq<Event>, k: nat)
    requires k < |events|
  {
    (events[k].Succeed? || events[k].Fail?) && 0 < Run(c, events[..k]).inFlight
  }

  /** The failures since the last success, of those that end a fetch. */
  function FailuresInARow(c: Config, events: seq<Event>): nat {
    if events == [] then 0
    else
      var last := |events| - 1;
      if !Ends(c, events, last) then FailuresInARow(c, events[..last])
      else if events[last].Succeed? then 0
      else FailuresInARow(c, events[..last]) + 1
  }

  /** The connector counts consecutive failures. */
  lemma {:induction false} CountsFailuresInARow(c: Config, events: seq<Event>)
    ensures Run(c, events).consecutive == FailuresInARow(c, events)
  {
    if events != [] {
      CountsFailuresInARow(c, events[..|events| - 1]);
    }
  }

  /** Event k is a failure that brings their number to the threshold or beyond. */
  ghost predicate Trips(c: Config, events: seq<Event>, k: nat) {
    k < |events| && events[k].Fail? && Ends(c, events, k) && c.threshold <= FailuresInARow(c, events[..k]) + 1
  }

  /** Event k is a fetch that is sent. */
  ghost predicate Sends(c: Config, events: seq<Event>, k: nat) {
    k < |events| && events[k].Fetch? && Run(c, events[..k + 1]).total == Run(c, events[..k]).total + 1
  }

  /** Event k is a success. */
  ghost predicate Succeeds(c: Config, events: seq<Event>, k: nat) {
    k < |events| && events[k].Succeed? && Ends(c, events, k)
  }

  ghost predicate NoneSentAfter(c: Config, events: seq<Event>, k: nat) {
    forall i: nat :: k < i ==> !Sends(c, events, i)
  }

  ghost predicate SentAndSucceededAfter(c: Config, events: seq<Event>, k: nat) {
    exists i: nat, j: nat :: k < i < j && Sends(c, events, i) && Succeeds(c, events, j)
  }

  /** The run tripped, and no fetch was sent since. */
  ghost predicate Resting(c: Config, events: seq<Event>) {
    exists k: nat :: Trips(c, events, k) && NoneSentAfter(c, events, k)
  }

  /** Whenever it tripped, a fetch was sent later and then one succeeded. */
  ghost predicate Recovered(c: Config, events: seq<Event>) {
    forall k: nat :: Trips(c, events, k) ==> SentAndSucceededAfter(c, events, k)
  }

  lemma SamePast(c: Config, events: seq<Event>, before: seq<Event>, k: nat)
    requires |before| <= |events| && before == events[..|before|] && k < |before|
    ensures Trips(c, events, k) <==> Trips(c, before, k)
    ensures Sends(c, events, k) <==> Sends(c, before, k)
    ensures Succeeds(c, events, k) <==> Succeeds(c, before, k)
  {
    assert before[..k] == events[..k] && before[..k + 1] == events[..k + 1];
  }

  lemma RestingStep(c: Config, events: seq<Event>, before: seq<Event>)
    requires events != [] && before == events[..|events| - 1]
    ensures Resting(c, events) <==>
      Trips(c, events, |before|) || (Resting(c, before) && !Sends(c, events, |before|))
  {
    var last := |before|;
    if Trips(c, events, last) {
      assert NoneSentAfter(c, events, last);
    }
    if Resting(c, before) && !Sends(c, events, last) {
      var k: nat :| Trips(c, before, k) && NoneSentAfter(c, before, k);
      forall i: nat | k < i ensures !Sends(c, events, i) {
        if i < last {
          SamePast(c, events, before, i);
        }
      }
      SamePast(c, events, before, k);
      assert NoneSentAfter(c, events, k);
    }
    if Resting(c, events) && !Trips(c, events, last) {
      var k: nat :| Trips(c, events, k) && NoneSentAfter(c, events, k);
      SamePast(c, events, before, k);
      forall i: nat | k < i ensures !Sends(c, before, i) {
        if i < last {
          SamePast(c, events, before, i);
        }
      }
      assert NoneSentAfter(c, before, k);
    }
  }

  lemma RecoveredLater(c: Config, events: seq<Event>, before: seq<Event>, k: nat)
    requires events != [] && before == events[..|events| - 1] && SentAndSucceededAfter(c, before, k)
    ensures SentAndSucceededAfter(c, events, k)
  {
    var i: nat, j: nat :| k < i < j && Sends(c, before, i) && Succeeds(c, before, j);
    SamePast(c, events, before, i);
    SamePast(c, events, before, j);
  }

  /** The last event completes a recovery that had begun. */
  lemma RecoversNow(c: Config, events: seq<Event>, before: seq<Event>, k: nat)
    requires events != [] && before == events[..|events| - 1] && !Resting(c, before)
    requires Trips(c, before, k) && Succeeds(c, events, |before|)
    ensures SentAndSucceededAfter(c, events, k)
  {
    assert !NoneSentAfter(c, before, k);
    var i: nat :| k < i && Sends(c, before, i);
    SamePast(c, events, before, i);
  }

  lemma RecoveryBegan(c: Config, events: seq<Event>, before: seq<Event>, k: nat)
    requires events != [] && before == events[..|events| - 1] && SentAndSucceededAfter(c, events, k)
    ensures !NoneSentAfter(c, before, k)
    ensures SentAndSucceededAfter(c, before, k) || Succeeds(c, events, |before|)
  {
    var i: nat, j: nat :| k < i < j && Sends(c, events, i) && Succeeds(c, events, j);
    SamePast(c, events, before, i);
    if j < |before| {
      SamePast(c, events, before, j);
    }
  }

  lemma RecoveredStep(c: Config, events: seq<Event>, before: seq<Event>)
    requires events != [] && before == events[..|events| - 1]
    ensures Recovered(c, events) <==>
      !Trips(c, events, |before|) && (Recovered(c, before) || (Succeeds(c, events, |before|) && !Resting(c, before)))
  {
    var last := |before|;
    if Recovered(c, events) {
      forall k: nat | Trips(c, before, k)
        ensures !NoneSentAfter(c, before, k)
        ensures SentAndSucceededAfter(c, before, k) || Succeeds(c, events, last)
      {
        SamePast(c, events, before, k);
        RecoveryBegan(c, events, before, k);
      }
    } else if !Trips(c, events, last) {
      var k: nat :| Trips(c, events, k) && !SentAndSucceededAfter(c, events, k);
      SamePast(c, events, before, k);
      if SentAndSucceededAfter(c, before, k) {
        RecoveredLater(c, events, before, k);
      } else if Succeeds(c, events, last) && !Resting(c, before) {
        RecoversNow(c, events, before, k);
      }
    }
  }

  /** In every run the circuit is open exactly while the connector rests after it tripped, and closed exactly
      when it recovered from every time it did; else it is half-open. */
  lemma {:induction false} CircuitIsHistory(c: Config, events: seq<Event>)
    ensures Run(c, events).circuit.Open? <==> Resting(c, events)
    ensures Run(c, events).circuit.Closed? <==> Recovered(c, events)
  {
    if events != [] {
      var before := events[..|events| - 1];
      CircuitIsHistory(c, before);
      CountsFailuresInARow(c, before);
      RestingStep(c, events, before);
      RecoveredStep(c, events, before);
      assert events[..|before| + 1] == events;
    }
  }

  ghost predicate LastTrip(c: Config, events: seq<Event>, k: nat) {
    Trips(c, events, k) && forall i: nat :: k < i ==> !Trips(c, events, i)
  }

  /** The time that is kept is that of the last trip. */
  lemma {:induction false} OpenSinceLastTrip(c: Config, events: seq<Event>, k: nat)
    requires LastTrip(c, events, k)
    ensures Run(c, events).openSince == Some(Run(c, events[..k]).now)
  {
    var last := |events| - 1;
    var before := events[..last];
    CountsFailuresInARow(c, before);
    if k < last {
      forall i: nat | k < i ensures !Trips(c, before, i) {
        if i < last {
          SamePast(c, events, before, i);
        }
      }
      SamePast(c, events, before, k);
      OpenSinceLastTrip(c, before, k);
      assert before[..k] == events[..k];
      assert !Trips(c, events, last);
    }
  }

  /** A fetch is sent in every run exactly when the connector is not resting or the reset time has passed
      since it last tripped. */
  lemma SentIff(c: Config, events: seq<Event>, wait: real, k: nat)
    requires 0.0 <= wait && LastTrip(c, events, k)
    ensures Sends(c, events + [Fetch(wait)], |events|) <==>
      !Resting(c, events) || c.reset <= Run(c, events).now - Run(c, events[..k]).now
  {
    var more := events + [Fetch(wait)];
    assert more[..|events|] == events && more[..|events| + 1] == more;
    CircuitIsHistory(c, events);
    OpenSinceLastTrip(c, events, k);
  }

  /** While it never tripped every fetch is sent. */
  lemma UntrippedSends(c: Config, events: seq<Event>, wait: real)
    requires 0.0 <= wait && forall k: nat :: !Trips(c, events, k)
    ensures Sends(c, events + [Fetch(wait)], |events|)
  {
    var more := events + [Fetch(wait)];
    assert more[..|events|] == events && more[..|events| + 1] == more;
    CircuitIsHistory(c, events);
  }

  // ----- half-open probes -----

  /** One fetch at a time. */
  ghost predicate OneAtATime(c: Config, events: seq<Event>) {
    forall k :: 0 <= k < |events| && events[k].Fetch? ==> Run(c, events[..k]).inFlight == 0
  }

  ghost predicate SequentialInv(c: Config, s: State) {
    && s.inFlight <= 1
    && (s.circuit.Open? ==> s.inFlight == 0 && c.threshold <= s.consecutive)
    && (s.circuit.HalfOpen? ==> s.inFlight == 1 && c.threshold <= s.consecutive)
  }

  lemma {:induction false} SequentialRun(c: Config, events: seq<Event>)
    requires OneAtATime(c, events)
    ensures SequentialInv(c, Run(c, events))
  {
    if events != [] {
      var last := |events| - 1;
      forall k | 0 <= k < last && events[..last][k].Fetch?
        ensures Run(c, events[..last][..k]).inFlight == 0
      {
        assert events[..last][..k] == events[..k];
      }
      SequentialRun(c, events[..last]);
      assert events[last].Fetch? ==> Run(c, events[..last]).inFlight == 0;
    }
  }

  /** When fetches run one at a time, one failed probe always reopens the circuit, and one
      successful probe closes it. */
  lemma SequentialProbeDecides(c: Config, events: seq<Event>)
    requires OneAtATime(c, events) && Run(c, events).circuit.HalfOpen?
    ensures Step(c, Run(c, events), Fail).circuit.Open?
    ensures Step(c, Run(c, events), Fail).openSince == Some(Run(c, events).now)
    ensures Step(c, Run(c, events), Succeed).circuit.Closed?
  {
    SequentialRun(c, events);
  }

  ghost predicate Reachable(c: Config, s: State) {
    exists events :: Run(c, events) == s
  }

  lemma Next(c: Config, s: State, e: Event) returns (s': State)
    requires Reachable(c, s)
    ensures Reachable(c, s') && s' == Step(c, s, e)
  {
    var events :| Run(c, events) == s;
    assert (events + [e])[..|events|] == events;
    s' := Step(c, s, e);
    assert Run(c, events + [e]) == s';
  }

  lemma {:induction false} ManyFetches(c: Config, n: nat)
    ensures Reachable(c, START.(total := n, inFlight := n))
  {
    if n == 0 {
      assert Run(c, []) == START;
    } else {
      ManyFetches(c, n - 1);
      var s := Next(c, START.(total := n - 1, inFlight := n - 1), Fetch(0.0));
    }
  }

  /** k failures, which do not reach the threshold, of n fetches in flight. */
  lemma {:induction false} ManyFailures(c: Config, n: nat, k: nat)
    requires k <= n && k < c.threshold
    ensures Reachable(c, START.(total := n, failed := k, consecutive := k, inFlight := n - k))
  {
    if k == 0 {
      ManyFetches(c, n);
    } else {
      ManyFailures(c, n, k - 1);
      var s := Next(c, START.(total := n, failed := k - 1, consecutive := k - 1, inFlight := n - k + 1), Fail);
    }
  }

  /** One fetch more than the threshold is in flight when enough of them fail to open the circuit; the
      last succeeds and clears the count, so the next probe fails alone. */
  lemma OverlappingProbe(c: Config) returns (s: State)
    requires 2 <= c.threshold
    ensures Reachable(c, s) && s.circuit.HalfOpen? && 0 < s.inFlight && Step(c, s, Fail).circuit.HalfOpen?
  {
    var n := c.threshold;
    ManyFailures(c, n + 1, n - 1);
    s := START.(total := n + 1, failed := n - 1, consecutive := n - 1, inFlight := 2);
    s := Next(c, s, Fail);
    s := Next(c, s, Succeed);
    s := Next(c, s, Tick(if c.reset < 0.0 then 0.0 else c.reset));
    s := Next(c, s, Fetch(0.0));
  }

  /** A failed half-open probe reopens the circuit in every run, however fetches overlap, exactly for
      thresholds of at most one. */
  lemma ProbeAlwaysReopensIff(c: Config)
    ensures (forall s :: Reachable(c, s) && s.circuit.HalfOpen? && 0 < s.inFlight ==> Step(c, s, Fail).circuit.Open?)
            <==> c.threshold <= 1
  {
    if 2 <= c.threshold {
      var s := OverlappingProbe(c);
    }
  }

  // ----- the object -----

  class Connector {
    const config: Config
    var total: nat
    var success: nat
    var failed: nat
    var consecutive: nat
    var circuit: Circuit
    var openSince: Option<real>
    ghost var inFlight: nat

    constructor (config: Config)
      ensures this.config == config && Value(0.0) == START
    {
      this.config := config;
      total, success, failed, consecutive, circuit, openSince, inFlight := 0, 0, 0, 0, Closed, None, 0;
    }

    ghost function Value(now: real): State
      reads this
    {
      State(now, total, success, failed, consecutive, circuit, openSince, inFlight)
    }

    /** Checks the circuit and, unless it refuses, sends the request after waiting for a token. */
    method StartFetch(now: real, wait: real) returns (sent: bool)
      requires 0.0 <= wait
      modifies this
      ensures sent == !Refused(config, old(Value(now)))
      ensures Value(if sent then now + wait else now) == Step(config, old(Value(now)), Fetch(wait))
    {
      if circuit.Open? {
        var elapsed := now - (if openSince.Some? then openSince.value else 0.0);
        if elapsed >= config.reset {
          circuit := HalfOpen;
        } else {
          return false;
        }
      }
      total := total + 1;
      inFlight := inFlight + 1;
      sent := true;
    }

    method EndFetch(now: real, ok: bool)
      requires 0 < inFlight
      modifies this
      ensures Value(now) == Step(config, old(Value(now)), if ok then Succeed else Fail)
    {
      inFlight := inFlight - 1;
      if ok {
        success := success + 1;
        consecutive := 0;
        if circuit.HalfOpen? {
          circuit := Closed;
        }
      } else {
        failed := failed + 1;
        consecutive := consecutive + 1;
        if consecutive >= config.threshold {
          circuit := Open;
          openSince := Some(now);
        }
      }
    }
  }
}
