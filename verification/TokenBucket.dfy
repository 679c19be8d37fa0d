/**
 The connector rate limiter (data_platform/connectors/__init__.py, _TokenBucket).

 acquire records the refill time before it sleeps, so the time slept is refilled again by the next
 call.  It sleeps without yielding to the event loop, so calls never overlap.  The bucket therefore
 grants at up to twice its rate, and the bounds below say so exactly.
 */
module TokenBucket {

  /** rate is tokens per second. */
  datatype Config = Config(rate: real, burst: nat) {
    ghost predicate Valid() {
      0.0 < rate
    }
  }

  datatype Bucket = Bucket(tokens: real, lastRefill: real)

  /** One call: when it is made, and by how much a sleep overruns the time asked for. */
  datatype Call = Call(now: real, overrun: real)

  /** The tokens that flow in time t. */
  function Flow(rate: real, t: real): real {
    t * rate
  }

  function Refilled(c: Config, b: Bucket, now: real): real {
    var full := b.tokens + Flow(c.rate, now - b.lastRefill);
    if c.burst as real <= full then c.burst as real else full
  }

  /** The state after a call. */
  function Acquired(c: Config, b: Bucket, now: real): Bucket {
    var tokens := Refilled(c, b, now);
    Bucket(if tokens < 1.0 then 0.0 else tokens - 1.0, now)
  }

  /** When the call returns. */
  function Granted(c: Config, b: Bucket, call: Call): real
    requires c.rate != 0.0
  {
    var tokens := Refilled(c, b, call.now);
    if tokens < 1.0 then call.now + (1.0 - tokens) / c.rate + call.overrun else call.now
  }

  class Limiter {
    const config: Config
    var tokens: real
    var lastRefill: real

    ghost function Value(): Bucket
      reads this
    {
      Bucket(tokens, lastRefill)
    }

    constructor (config: Config, now: real)
      ensures this.config == config && Value() == Bucket(config.burst as real, now)
    {
      this.config, tokens, lastRefill := config, config.burst as real, now;
    }

    method Acquire(call: Call) returns (granted: real)
      requires config.Valid()
      modifies this
      ensures Value() == Acquired(config, old(Value()), call.now)
      ensures granted == Granted(config, old(Value()), call)
    {
      granted := call.now;
      var elapsed := call.now - lastRefill;
      var full := tokens + elapsed * config.rate;
      tokens := if config.burst as real <= full then config.burst as real else full;
      lastRefill := call.now;
      if tokens < 1.0 {
        granted := call.now + (1.0 - tokens) / config.rate + call.overrun;
        tokens := 0.0;
      } else {
        tokens := tokens - 1.0;
      }
    }
  }

  // ----- whole runs -----

  /** The bucket before call k of a run that starts full at time start. */
  function At(c: Config, start: real, calls: seq<Call>, k: nat): Bucket
    requires k <= |calls|
  {
    if k == 0 then Bucket(c.burst as real, start)
    else Acquired(c, At(c, start, calls, k - 1), calls[k - 1].now)
  }

  function Grant(c: Config, start: real, calls: seq<Call>, k: nat): real
    requires k < |calls| && c.rate != 0.0
  {
    Granted(c, At(c, start, calls, k), calls[k])
  }

  /** Calls block: each is made no earlier than the one before returned, and its sleep lasts at least
      as long as asked. */
  ghost predicate InTurn(c: Config, start: real, calls: seq<Call>, k: nat)
    requires c.Valid() && k < |calls|
  {
    && 0.0 <= calls[k].overrun
    && (if k == 0 then start else Grant(c, start, calls, k - 1)) <= calls[k].now
  }

  ghost predicate Sequential(c: Config, start: real, calls: seq<Call>)
    requires c.Valid()
  {
    forall k: nat :: k < |calls| ==> InTurn(c, start, calls, k)
  }

  lemma FlowSubtracts(rate: real, x: real, y: real)
    ensures Flow(rate, x - y) == Flow(rate, x) - Flow(rate, y)
  {
  }

  lemma FlowGrows(rate: real, x: real, y: real)
    requires 0.0 < rate && x <= y
    ensures Flow(rate, x) <= Flow(rate, y)
  {
  }

  lemma SleepEarns(rate: real, short: real, overrun: real)
    requires 0.0 < rate && 0.0 < short && 0.0 <= overrun
    ensures 0.0 <= short / rate + overrun
    ensures short <= Flow(rate, short / rate + overrun)
  {
    var wait := short / rate;
    assert wait * rate == short;
    assert 0.0 < wait;
    assert (wait + overrun) * rate == wait * rate + overrun * rate;
  }

  /** One call, with times counted in tokens. */
  lemma OneCall(c: Config, b: Bucket, call: Call)
    requires c.Valid() && 0.0 <= call.overrun && 0.0 <= b.tokens && b.lastRefill <= call.now
    ensures var r, granted := Refilled(c, b, call.now), Granted(c, b, call);
            && 0.0 <= r <= c.burst as real
            && r <= b.tokens + Flow(c.rate, call.now) - Flow(c.rate, b.lastRefill)
            && call.now <= granted && Flow(c.rate, call.now) <= Flow(c.rate, granted)
            && (r < 1.0 ==> 1.0 - r <= Flow(c.rate, granted) - Flow(c.rate, call.now))
  {
    var r, granted := Refilled(c, b, call.now), Granted(c, b, call);
    FlowSubtracts(c.rate, call.now, b.lastRefill);
    FlowGrows(c.rate, 0.0, call.now - b.lastRefill);
    if r < 1.0 {
      SleepEarns(c.rate, 1.0 - r, call.overrun);
      assert granted - call.now == (1.0 - r) / c.rate + call.overrun;
    }
    FlowSubtracts(c.rate, granted, call.now);
    FlowGrows(c.rate, call.now, granted);
  }

  /** A call that finds a token returns at once and leaves one less; one that finds part of a token returns,
      but for the overrun, when just the missing part has flowed, and leaves none. */
  lemma WaitsForMissingPart(c: Config, b: Bucket, call: Call, found: real)
    requires c.Valid() && found == Refilled(c, b, call.now)
    ensures 1.0 <= found ==> Granted(c, b, call) == call.now && Acquired(c, b, call.now).tokens == found - 1.0
    ensures found < 1.0 ==> Flow(c.rate, Granted(c, b, call) - call.overrun - call.now) == 1.0 - found
                            && Acquired(c, b, call.now).tokens == 0.0
  {
    if found < 1.0 {
      var wait := (1.0 - found) / c.rate;
      assert wait * c.rate == 1.0 - found;
      assert Granted(c, b, call) - call.overrun - call.now == wait;
    }
  }

  /** What it finds is what was left and what flowed since, but no more than a full bucket. */
  lemma FindsWhatFlowed(c: Config, b: Bucket, now: real)
    ensures Refilled(c, b, now) <= c.burst as real && Refilled(c, b, now) <= b.tokens + Flow(c.rate, now - b.lastRefill)
    ensures Refilled(c, b, now) == c.burst as real
            || Refilled(c, b, now) == b.tokens + Flow(c.rate, now - b.lastRefill)
    ensures Acquired(c, b, now).lastRefill == now
  {
  }

  /** The tokens stay between none and a full bucket. */
  lemma {:induction false} TokensInRange(c: Config, start: real, calls: seq<Call>, k: nat)
    requires c.Valid() && Sequential(c, start, calls) && k <= |calls|
    ensures 0.0 <= At(c, start, calls, k).tokens <= c.burst as real
    ensures k < |calls| ==> At(c, start, calls, k).lastRefill <= calls[k].now
  {
    assert k < |calls| ==> InTurn(c, start, calls, k);
    if k > 0 {
      assert InTurn(c, start, calls, k - 1);
      TokensInRange(c, start, calls, k - 1);
      OneCall(c, At(c, start, calls, k - 1), calls[k - 1]);
    }
  }

  /** What a run looks like with times counted in tokens: when each call is made and returns, and
      the tokens it finds and leaves. */
  datatype Visit = Visit(now: real, granted: real, found: real, left: real)

  ghost predicate Plausible(burst: real, v: Visit) {
    && v.now <= v.granted && v.found <= burst && 0.0 <= v.left
    && (v.found < 1.0 ==> 1.0 - v.found <= v.granted - v.now)
    && v.left == if v.found < 1.0 then 0.0 else v.found - 1.0
  }

  ghost predicate Follows(u: Visit, v: Visit) {
    u.granted <= v.now && v.found <= u.left + v.now - u.now
  }

  /** n grants are covered by a full bucket and two counts of the span since the first call. */
  lemma {:induction false} VisitsCovered(burst: real, visits: seq<Visit>, i: nat, j: nat)
    requires i <= j < |visits|
    requires forall k :: i <= k <= j ==> Plausible(burst, visits[k])
    requires forall k :: i < k <= j ==> Follows(visits[k - 1], visits[k])
    ensures (j - i + 1) as real
         <= burst + visits[j].granted + visits[j].now - 2.0 * visits[i].now - visits[j].left
  {
    if j > i {
      VisitsCovered(burst, visits, i, j - 1);
      assert Follows(visits[j - 1], visits[j]);
    }
  }

  function VisitOf(c: Config, start: real, calls: seq<Call>, k: nat): Visit
    requires k < |calls| && c.rate != 0.0
  {
    Visit(Flow(c.rate, calls[k].now), Flow(c.rate, Grant(c, start, calls, k)),
          Refilled(c, At(c, start, calls, k), calls[k].now), At(c, start, calls, k + 1).tokens)
  }

  lemma VisitFits(c: Config, start: real, calls: seq<Call>, k: nat)
    requires c.Valid() && Sequential(c, start, calls) && k < |calls|
    ensures Plausible(c.burst as real, VisitOf(c, start, calls, k))
    ensures 0 < k ==> Follows(VisitOf(c, start, calls, k - 1), VisitOf(c, start, calls, k))
  {
    assert InTurn(c, start, calls, k);
    TokensInRange(c, start, calls, k);
    TokensInRange(c, start, calls, k + 1);
    OneCall(c, At(c, start, calls, k), calls[k]);
    if 0 < k {
      FlowGrows(c.rate, Grant(c, start, calls, k - 1), calls[k].now);
    }
  }

  /** From the moment one call is made to the moment a later one returns, the bucket grants at most
      burst + 2 * rate * span requests. */
  lemma GrantsBounded(c: Config, start: real, calls: seq<Call>, i: nat, j: nat)
    requires c.Valid() && Sequential(c, start, calls) && i <= j < |calls|
    ensures (j - i + 1) as real
         <= c.burst as real + 2.0 * Flow(c.rate, Grant(c, start, calls, j) - calls[i].now)
  {
    var visits := seq(|calls|, k requires 0 <= k < |calls| => VisitOf(c, start, calls, k));
    forall k | 0 <= k < |calls|
      ensures Plausible(c.burst as real, visits[k]) && (0 < k ==> Follows(visits[k - 1], visits[k]))
    {
      VisitFits(c, start, calls, k);
    }
    VisitsCovered(c.burst as real, visits, i, j);
    FlowSubtracts(c.rate, Grant(c, start, calls, j), calls[i].now);
  }

  /** Any span of time at all sees at most burst + 1 + 2 * rate * span calls return: the one more may
      have been asleep when the span began. */
  lemma ReturnsBounded(c: Config, start: real, calls: seq<Call>, i: nat, j: nat, from: real, span: real)
    requires c.Valid() && Sequential(c, start, calls) && i <= j < |calls| && 0.0 <= span
    requires from <= Grant(c, start, calls, i) && Grant(c, start, calls, j) <= from + span
    ensures (j - i + 1) as real <= c.burst as real + 1.0 + 2.0 * Flow(c.rate, span)
  {
    if i == j {
      Widened(c, 0, 0.0, span);
    } else {
      GrantsBounded(c, start, calls, i + 1, j);
      var left, made, right := Grant(c, start, calls, i), calls[i + 1].now, Grant(c, start, calls, j);
      assert InTurn(c, start, calls, i + 1);
      Widened(c, j - i, right - made, span);
    }
  }

  lemma Widened(c: Config, n: nat, inner: real, span: real)
    requires c.Valid() && inner <= span
    requires n as real <= c.burst as real + 2.0 * Flow(c.rate, inner)
    ensures n as real <= c.burst as real + 2.0 * Flow(c.rate, span)
  {
    FlowGrows(c.rate, inner, span);
  }

  // ----- the bounds are attained -----

  /** The time in which q tokens flow. */
  function Ticks(c: Config, q: nat): real
    requires c.rate != 0.0
  {
    q as real / c.rate
  }

  lemma TickFlows(c: Config, q: nat)
    requires c.Valid()
    ensures Flow(c.rate, Ticks(c, q)) == q as real
    ensures Ticks(c, q + 1) == Ticks(c, q) + 1.0 / c.rate
    ensures Ticks(c, q) < Ticks(c, q + 1)
  {
    var t, rate := 1.0 / c.rate, c.rate;
    assert t * rate == 1.0 && 0.0 < t;
    assert (q as real) / rate == (q as real) * t;
    assert (q as real + 1.0) / rate == (q as real + 1.0) * t == (q as real) * t + t;
  }

  /** A caller that calls again whenever it is served: a full bucket at time 0, then two calls for
      every tick. */
  function BusyCall(c: Config, m: nat): Call
    requires c.rate != 0.0
  {
    Call(if m < c.burst then 0.0 else Ticks(c, (m - c.burst + 1) / 2), 0.0)
  }

  function BusyBucket(c: Config, m: nat): Bucket
    requires c.rate != 0.0
  {
    if m <= c.burst then Bucket((c.burst - m) as real, 0.0) else Bucket(0.0, Ticks(c, (m - c.burst) / 2))
  }

  function BusyGrant(c: Config, m: nat): real
    requires c.rate != 0.0
  {
    if m < c.burst then 0.0 else Ticks(c, (m - c.burst) / 2 + 1)
  }

  lemma BusyStep(c: Config, m: nat)
    requires c.Valid() && 1 <= c.burst
    ensures Acquired(c, BusyBucket(c, m), BusyCall(c, m).now) == BusyBucket(c, m + 1)
    ensures Granted(c, BusyBucket(c, m), BusyCall(c, m)) == BusyGrant(c, m)
    ensures BusyGrant(c, m) <= BusyCall(c, m + 1).now
  {
    var b, call := BusyBucket(c, m), BusyCall(c, m);
    TickFlows(c, 0);
    assert Ticks(c, 0) == 0.0;
    FlowSubtracts(c.rate, call.now, b.lastRefill);
    if c.burst <= m {
      var q := (m - c.burst) / 2;
      TickFlows(c, q);
      TickFlows(c, q + 1);
      assert b.lastRefill == Ticks(c, q) && b.tokens == 0.0;
      if (m - c.burst) % 2 == 0 {
        assert call.now == Ticks(c, q);
        assert Refilled(c, b, call.now) == 0.0;
      } else {
        assert call.now == Ticks(c, q + 1);
        assert Refilled(c, b, call.now) == 1.0;
      }
    }
  }

  function Busy(c: Config, n: nat): (calls: seq<Call>)
    requires c.rate != 0.0
    ensures |calls| == n && forall m :: 0 <= m < n ==> calls[m] == BusyCall(c, m)
  {
    seq(n, (m: nat) => BusyCall(c, m))
  }

  lemma {:induction false} BusyAt(c: Config, n: nat, k: nat)
    requires c.Valid() && 1 <= c.burst && k <= n
    ensures At(c, 0.0, Busy(c, n), k) == BusyBucket(c, k)
  {
    if k > 0 {
      BusyAt(c, n, k - 1);
      BusyStep(c, k - 1);
    }
  }

  lemma BusyGrants(c: Config, n: nat, m: nat)
    requires c.Valid() && 1 <= c.burst && m < n
    ensures Grant(c, 0.0, Busy(c, n), m) == BusyGrant(c, m) <= BusyCall(c, m + 1).now
  {
    BusyAt(c, n, m);
    BusyStep(c, m);
  }

  /** Its calls form a sequential run. */
  lemma BusySequential(c: Config, n: nat)
    requires c.Valid() && 1 <= c.burst
    ensures Sequential(c, 0.0, Busy(c, n))
  {
    forall m: nat | m < n
      ensures InTurn(c, 0.0, Busy(c, n), m)
    {
      if 0 < m {
        BusyGrants(c, n, m - 1);
      }
    }
  }

  /** The factor of two is what the code gives: for every k there is a run whose first burst + 2k
      calls are made and served between time 0 and k / rate. */
  lemma BoundAttained(c: Config, k: nat, n: nat)
    requires c.Valid() && 1 <= c.burst && 1 <= k && n == c.burst + 2 * k
    ensures Busy(c, n)[0].now == 0.0
    ensures Grant(c, 0.0, Busy(c, n), n - 1) == Ticks(c, k)
  {
    BusyGrants(c, n, n - 1);
    var odd := n - 1 - c.burst;
    assert odd / 2 + 1 == k;
  }

  /** A caller that oversleeps once: a burst at time 0, one call that sleeps for a burst's worth of ticks,
      another burst, and then two calls for every tick. */
  function LateCall(c: Config, m: nat): Call
    requires c.rate != 0.0 && 1 <= c.burst
  {
    var b := c.burst;
    if m < b then Call(0.0, 0.0)
    else if m == b then Call(0.0, Ticks(c, b - 1))
    else Call(Ticks(c, if m <= 2 * b then b else b + (m - 2 * b) / 2), 0.0)
  }

  function LateBucket(c: Config, m: nat): Bucket
    requires c.rate != 0.0
  {
    var b := c.burst;
    if m <= b then Bucket((b - m) as real, 0.0)
    else if m == b + 1 then Bucket(0.0, 0.0)
    else if m <= 2 * b + 1 then Bucket((2 * b + 1 - m) as real, Ticks(c, b))
    else Bucket(0.0, Ticks(c, b + (m - 2 * b - 1) / 2))
  }

  function LateGrant(c: Config, m: nat): real
    requires c.rate != 0.0
  {
    var b := c.burst;
    if m < b then 0.0
    else if m <= 2 * b then Ticks(c, b)
    else Ticks(c, b + (m - 2 * b - 1) / 2 + 1)
  }

  lemma LateFirst(c: Config, m: nat)
    requires c.Valid() && 1 <= c.burst && m <= c.burst
    ensures Acquired(c, LateBucket(c, m), LateCall(c, m).now) == LateBucket(c, m + 1)
    ensures Granted(c, LateBucket(c, m), LateCall(c, m)) == LateGrant(c, m)
  {
    FlowSubtracts(c.rate, 0.0, 0.0);
    if m == c.burst {
      TickFlows(c, c.burst - 1);
      assert Refilled(c, LateBucket(c, m), 0.0) == 0.0;
    }
  }

  lemma LateSecond(c: Config, m: nat)
    requires c.Valid() && 1 <= c.burst && c.burst < m <= 2 * c.burst
    ensures Acquired(c, LateBucket(c, m), LateCall(c, m).now) == LateBucket(c, m + 1)
    ensures Granted(c, LateBucket(c, m), LateCall(c, m)) == LateGrant(c, m)
  {
    var b, call := LateBucket(c, m), LateCall(c, m);
    TickFlows(c, c.burst);
    FlowSubtracts(c.rate, call.now, b.lastRefill);
    if m == c.burst + 1 {
      assert Refilled(c, b, call.now) == c.burst as real;
    } else {
      assert Refilled(c, b, call.now) == b.tokens;
    }
  }

  lemma LateThird(c: Config, m: nat, q: nat)
    requires c.Valid() && 1 <= c.burst && 2 * c.burst < m && q == c.burst + (m - 2 * c.burst - 1) / 2
    ensures Acquired(c, LateBucket(c, m), LateCall(c, m).now) == LateBucket(c, m + 1)
    ensures Granted(c, LateBucket(c, m), LateCall(c, m)) == LateGrant(c, m)
  {
    var b, call := LateBucket(c, m), LateCall(c, m);
    TickFlows(c, q);
    TickFlows(c, q + 1);
    FlowSubtracts(c.rate, call.now, b.lastRefill);
    assert b == Bucket(0.0, Ticks(c, q));
    if m % 2 == 0 {
      assert call.now == Ticks(c, q + 1) && Refilled(c, b, call.now) == 1.0;
    } else {
      assert call.now == Ticks(c, q) && Refilled(c, b, call.now) == 0.0;
    }
  }

  lemma LateStep(c: Config, m: nat)
    requires c.Valid() && 1 <= c.burst
    ensures Acquired(c, LateBucket(c, m), LateCall(c, m).now) == LateBucket(c, m + 1)
    ensures Granted(c, LateBucket(c, m), LateCall(c, m)) == LateGrant(c, m)
  {
    if m <= c.burst {
      LateFirst(c, m);
    } else if m <= 2 * c.burst {
      LateSecond(c, m);
    } else {
      LateThird(c, m, c.burst + (m - 2 * c.burst - 1) / 2);
    }
  }

  lemma LateNext(c: Config, m: nat)
    requires c.Valid() && 1 <= c.burst
    ensures LateGrant(c, m) <= LateCall(c, m + 1).now && 0.0 <= LateCall(c, m).overrun
  {
    assert 0.0 <= (c.burst - 1) as real / c.rate;
    if 2 * c.burst < m {
      assert (m - 2 * c.burst - 1) / 2 + 1 == (m + 1 - 2 * c.burst) / 2;
    }
  }

  function Late(c: Config, n: nat): (calls: seq<Call>)
    requires c.rate != 0.0 && 1 <= c.burst
    ensures |calls| == n && forall m :: 0 <= m < n ==> calls[m] == LateCall(c, m)
  {
    seq(n, (m: nat) => LateCall(c, m))
  }

  lemma {:induction false} LateAt(c: Config, n: nat, k: nat)
    requires c.Valid() && 1 <= c.burst && k <= n
    ensures At(c, 0.0, Late(c, n), k) == LateBucket(c, k)
  {
    if k > 0 {
      LateAt(c, n, k - 1);
      LateStep(c, k - 1);
    }
  }

  lemma LateGrants(c: Config, n: nat, m: nat)
    requires c.Valid() && 1 <= c.burst && m < n
    ensures Grant(c, 0.0, Late(c, n), m) == LateGrant(c, m) <= LateCall(c, m + 1).now
  {
    LateAt(c, n, m);
    LateStep(c, m);
    LateNext(c, m);
  }

  lemma LateSequential(c: Config, n: nat)
    requires c.Valid() && 1 <= c.burst
    ensures Sequential(c, 0.0, Late(c, n))
  {
    forall m: nat | m < n
      ensures InTurn(c, 0.0, Late(c, n), m)
    {
      LateNext(c, m);
      if 0 < m {
        LateGrants(c, n, m - 1);
      }
    }
  }

  /** So is the bound on returns, for every bucket that holds a token: there is a run in which burst + 1 + 2k
      calls return between burst / rate and (burst + k) / rate. */
  lemma ReturnBoundAttained(c: Config, k: nat, n: nat)
    requires c.Valid() && 1 <= c.burst && n == 2 * c.burst + 2 * k + 1
    ensures Sequential(c, 0.0, Late(c, n))
    ensures Grant(c, 0.0, Late(c, n), c.burst) == Ticks(c, c.burst)
    ensures Grant(c, 0.0, Late(c, n), n - 1) == Ticks(c, c.burst + k)
    ensures (n - c.burst) as real
         == c.burst as real + 1.0 + 2.0 * Flow(c.rate, Ticks(c, c.burst + k) - Ticks(c, c.burst))
  {
    LateSequential(c, n);
    LateGrants(c, n, c.burst);
    LateGrants(c, n, n - 1);
    if 0 < k {
      assert (2 * k - 1) / 2 + 1 == k;
    }
    TickFlows(c, c.burst + k);
    TickFlows(c, c.burst);
    FlowSubtracts(c.rate, Ticks(c, c.burst + k), Ticks(c, c.burst));
  }
}
