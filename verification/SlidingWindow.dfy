/**
 The API rate limiter (backend/src/middleware/rate_limit.py): a list of recent request times for
 each client, trimmed and appended to on every request.
 */
module SlidingWindow {

  datatype Config = Config(maxRequests: int, window: int)

  /** IndexError is what reading the first entry of an empty list raises. */
  datatype Answer = Accepted | Rejected(retryAfter: int) | IndexError

  datatype Request = Request(ip: string, now: real)

  /** The times after the cutoff, in order. */
  function Kept(times: seq<real>, cutoff: real): (kept: seq<real>)
    ensures |kept| <= |times|
  {
    if times == [] then []
    else
      var last := times[|times| - 1];
      Kept(times[..|times| - 1], cutoff) + if last > cutoff then [last] else []
  }

  function Cutoff(c: Config, now: real): real {
    now - c.window as real
  }

  /** Python's int(): towards zero. */
  function Truncated(x: real): int {
    if 0.0 <= x then x.Floor else -(-x).Floor
  }

  /** The answer to a request at time now, given the client's log. */
  function Answered(c: Config, log: seq<real>, now: real): Answer {
    var kept := Kept(log, Cutoff(c, now));
    if |kept| < c.maxRequests then Accepted
    else if kept == [] then IndexError
    else Rejected(Truncated(kept[0] + c.window as real - now))
  }

  function Logged(c: Config, log: seq<real>, now: real): seq<real> {
    var kept := Kept(log, Cutoff(c, now));
    if Answered(c, log, now).Accepted? then kept + [now] else kept
  }

  function Log(clients: map<string, seq<real>>, ip: string): seq<real> {
    if ip in clients then clients[ip] else []
  }

  class RateLimiter {
    const config: Config
    var clients: map<string, seq<real>>

    constructor (config: Config)
      ensures this.config == config && clients == map[]
    {
      this.config, clients := config, map[];
    }

    method Trim(times: seq<real>, cutoff: real) returns (kept: seq<real>)
      ensures kept == Kept(times, cutoff)
    {
      kept := [];
      for i := 0 to |times|
        invariant kept == Kept(times[..i], cutoff)
      {
        assert times[..i + 1][..i] == times[..i];
        if times[i] > cutoff {
          kept := kept + [times[i]];
        }
      }
      assert times[..|times|] == times;
    }

    method Dispatch(r: Request) returns (answer: Answer)
      modifies this
      ensures answer == Answered(config, Log(old(clients), r.ip), r.now)
      ensures clients == old(clients)[r.ip := Logged(config, Log(old(clients), r.ip), r.now)]
    {
      var kept := Trim(if r.ip in clients then clients[r.ip] else [], r.now - config.window as real);
      clients := clients[r.ip := kept];
      if |clients[r.ip]| >= config.maxRequests {
        if |clients[r.ip]| == 0 {
          return IndexError;
        }
        return Rejected(Truncated(clients[r.ip][0] + config.window as real - r.now));
      }
      clients := clients[r.ip := clients[r.ip] + [r.now]];
      answer := Accepted;
    }
  }

  // ----- whole runs -----

  ghost predicate Ordered(reqs: seq<Request>) {
    forall i, j :: 0 <= i <= j < |reqs| ==> reqs[i].now <= reqs[j].now
  }

  /** The limiter's table after a run. */
  function After(c: Config, reqs: seq<Request>): map<string, seq<real>> {
    if reqs == [] then map[]
    else
      var clients, r := After(c, reqs[..|reqs| - 1]), reqs[|reqs| - 1];
      clients[r.ip := Logged(c, Log(clients, r.ip), r.now)]
  }

  /** When a client's accepted requests of a run were made. */
  function AcceptedTimes(c: Config, reqs: seq<Request>, ip: string): seq<real> {
    if reqs == [] then []
    else
      var before, r := reqs[..|reqs| - 1], reqs[|reqs| - 1];
      AcceptedTimes(c, before, ip)
      + if r.ip == ip && Answered(c, Log(After(c, before), ip), r.now).Accepted? then [r.now] else []
  }

  /** How many of the times lie in (lo, hi]. */
  function Count(times: seq<real>, lo: real, hi: real): nat {
    if times == [] then 0
    else Count(times[..|times| - 1], lo, hi) + if lo < times[|times| - 1] <= hi then 1 else 0
  }

  ghost predicate Sorted(times: seq<real>) {
    forall i, j :: 0 <= i <= j < |times| ==> times[i] <= times[j]
  }

  /** Where the times after the cutoff begin. */
  ghost predicate SplitsAt(times: seq<real>, cutoff: real, k: nat) {
    && k <= |times|
    && (forall i :: 0 <= i < k ==> times[i] <= cutoff)
    && (forall i :: k <= i < |times| ==> times[i] > cutoff)
  }

  lemma SplitPoint(times: seq<real>, cutoff: real) returns (k: nat)
    requires Sorted(times)
    ensures SplitsAt(times, cutoff, k)
  {
    k := |times|;
    while 0 < k && times[k - 1] > cutoff
      invariant k <= |times|
      invariant forall i :: k <= i < |times| ==> times[i] > cutoff
    {
      k := k - 1;
    }
  }

  lemma {:induction false} KeptFrom(times: seq<real>, cutoff: real, k: nat)
    requires SplitsAt(times, cutoff, k)
    ensures Kept(times, cutoff) == times[k..]
  {
    if times != [] {
      var rest, last := times[..|times| - 1], times[|times| - 1];
      if k == |times| {
        KeptFrom(rest, cutoff, k - 1);
        assert rest[k - 1..] == [];
      } else {
        KeptFrom(rest, cutoff, k);
        assert times[k..] == rest[k..] + [last];
      }
    }
  }

  /** Trimming an ordered list drops a prefix. */
  lemma KeptIsTail(times: seq<real>, cutoff: real) returns (k: nat)
    requires Sorted(times)
    ensures SplitsAt(times, cutoff, k) && Kept(times, cutoff) == times[k..]
  {
    k := SplitPoint(times, cutoff);
    KeptFrom(times, cutoff, k);
  }

  /** What was dropped before would be dropped now. */
  lemma {:induction false} KeptForgets(times: seq<real>, m: nat, cutoff: real)
    requires m <= |times| && forall i :: 0 <= i < m ==> times[i] <= cutoff
    ensures Kept(times[m..], cutoff) == Kept(times, cutoff)
  {
    if m < |times| {
      KeptForgets(times[..|times| - 1], m, cutoff);
      assert times[m..][..|times[m..]| - 1] == times[..|times| - 1][m..];
    } else if m > 0 {
      KeptForgets(times[..m - 1], m - 1, cutoff);
      assert times[..m - 1][m - 1..] == [] == times[m..];
    }
  }

  lemma {:induction false} KeptIsCount(times: seq<real>, lo: real, hi: real)
    requires forall i :: 0 <= i < |times| ==> times[i] <= hi
    ensures |Kept(times, lo)| == Count(times, lo, hi)
  {
    if times != [] {
      KeptIsCount(times[..|times| - 1], lo, hi);
    }
  }

  /** Any maxRequests + 1 accepted requests in a row take at least the window. */
  ghost predicate Spaced(c: Config, times: seq<real>) {
    forall i: int, j: int :: 0 <= i && j == i + c.maxRequests && i <= j < |times| ==>
      times[i] <= Cutoff(c, times[j])
  }

  /** The log is the end of the accepted list, and what it lacks is out of reach of every later
      window. */
  ghost predicate LogInv(c: Config, times: seq<real>, log: seq<real>, now: real) {
    && |log| <= |times| && log == times[|times| - |log|..]
    && (forall i :: 0 <= i < |times| - |log| ==> times[i] <= Cutoff(c, now))
    && (forall i :: 0 <= i < |times| ==> times[i] <= now)
    && Sorted(times) && Spaced(c, times)
    && (if 0 <= c.maxRequests then |log| <= c.maxRequests else times == [])
  }

  /** A request accepted with room in the window keeps the list ordered and spaced. */
  lemma AcceptKeepsSpaced(c: Config, times: seq<real>, k: nat, now: real)
    requires Sorted(times) && Spaced(c, times) && forall i :: 0 <= i < |times| ==> times[i] <= now
    requires k <= |times| && forall i :: 0 <= i < k ==> times[i] <= Cutoff(c, now)
    requires |times| - k < c.maxRequests
    ensures Sorted(times + [now]) && Spaced(c, times + [now])
  {
    var longer := times + [now];
    forall i: int, j: int | 0 <= i && j == i + c.maxRequests && i <= j < |longer|
      ensures longer[i] <= Cutoff(c, longer[j])
    {
      if j < |times| {
        assert times[i] <= Cutoff(c, times[j]);
      } else {
        assert i < k;
      }
    }
  }

  lemma LaterKeepsInv(c: Config, times: seq<real>, log: seq<real>, now: real, later: real)
    requires LogInv(c, times, log, now) && now <= later
    ensures LogInv(c, times, log, later)
  {
  }

  /** What a request finds in the log: the end of the accepted list, from k on. */
  lemma Trimmed(c: Config, times: seq<real>, log: seq<real>, now: real) returns (k: nat)
    requires LogInv(c, times, log, now)
    ensures SplitsAt(times, Cutoff(c, now), k)
    ensures Kept(log, Cutoff(c, now)) == Kept(times, Cutoff(c, now)) == times[k..]
  {
    KeptForgets(times, |times| - |log|, Cutoff(c, now));
    k := KeptIsTail(times, Cutoff(c, now));
  }

  lemma TailKeepsInv(c: Config, times: seq<real>, tail: seq<real>, k: nat, now: real)
    requires k <= |times| && tail == times[k..] && Sorted(times) && Spaced(c, times)
    requires forall i :: 0 <= i < |times| ==> times[i] <= now
    requires forall i :: 0 <= i < k ==> times[i] <= Cutoff(c, now)
    requires if 0 <= c.maxRequests then |tail| <= c.maxRequests else times == []
    ensures LogInv(c, times, tail, now)
  {
  }

  lemma TrimKeepsInv(c: Config, times: seq<real>, log: seq<real>, now: real) returns (k: nat)
    requires LogInv(c, times, log, now)
    ensures SplitsAt(times, Cutoff(c, now), k) && Kept(log, Cutoff(c, now)) == times[k..]
    ensures LogInv(c, times, Kept(log, Cutoff(c, now)), now)
  {
    k := Trimmed(c, times, log, now);
    TailKeepsInv(c, times, Kept(log, Cutoff(c, now)), k, now);
  }

  lemma AcceptedKeepsInv(c: Config, times: seq<real>, kept: seq<real>, k: nat, now: real)
    requires LogInv(c, times, kept, now) && SplitsAt(times, Cutoff(c, now), k) && kept == times[k..]
    requires |kept| < c.maxRequests
    ensures LogInv(c, times + [now], kept + [now], now)
  {
    AcceptKeepsSpaced(c, times, k, now);
    var longer := times + [now];
    assert longer[k..] == kept + [now];
    TailKeepsInv(c, longer, kept + [now], k, now);
  }

  lemma RequestKeepsInv(c: Config, times: seq<real>, log: seq<real>, now: real)
    requires LogInv(c, times, log, now)
    ensures LogInv(c, if Answered(c, log, now).Accepted? then times + [now] else times,
                   Logged(c, log, now), now)
  {
    var k := TrimKeepsInv(c, times, log, now);
    if Answered(c, log, now).Accepted? {
      AcceptedKeepsInv(c, times, Kept(log, Cutoff(c, now)), k, now);
    }
  }

  lemma LastRequest(c: Config, reqs: seq<Request>, ip: string)
    requires reqs != []
    ensures var before, r := reqs[..|reqs| - 1], reqs[|reqs| - 1];
            var times, log := AcceptedTimes(c, before, ip), Log(After(c, before), ip);
            && Log(After(c, reqs), ip) == (if r.ip == ip then Logged(c, log, r.now) else log)
            && AcceptedTimes(c, reqs, ip)
               == if r.ip == ip && Answered(c, log, r.now).Accepted? then times + [r.now] else times
  {
  }

  lemma {:induction false} RunKeepsInv(c: Config, reqs: seq<Request>, ip: string, now: real)
    requires Ordered(reqs) && (reqs != [] ==> reqs[|reqs| - 1].now <= now)
    ensures LogInv(c, AcceptedTimes(c, reqs, ip), Log(After(c, reqs), ip), now)
  {
    if reqs != [] {
      var before, r := reqs[..|reqs| - 1], reqs[|reqs| - 1];
      RunKeepsInv(c, before, ip, r.now);
      LastRequest(c, reqs, ip);
      if r.ip == ip {
        RequestKeepsInv(c, AcceptedTimes(c, before, ip), Log(After(c, before), ip), r.now);
      }
      LaterKeepsInv(c, AcceptedTimes(c, reqs, ip), Log(After(c, reqs), ip), r.now, now);
    }
  }

  /** The limiter refines its rule: a request is accepted exactly when fewer than maxRequests of the
      client's accepted requests lie within the window that ends with it. */
  lemma AcceptsIffRoom(c: Config, reqs: seq<Request>, ip: string, now: real)
    requires Ordered(reqs) && (reqs != [] ==> reqs[|reqs| - 1].now <= now)
    ensures Answered(c, Log(After(c, reqs), ip), now).Accepted?
       <==> Count(AcceptedTimes(c, reqs, ip), Cutoff(c, now), now) < c.maxRequests
    ensures Answered(c, Log(After(c, reqs), ip), now).IndexError? <==> c.maxRequests <= 0
  {
    RunKeepsInv(c, reqs, ip, now);
    KeptCounts(c, AcceptedTimes(c, reqs, ip), Log(After(c, reqs), ip), now);
  }

  lemma KeptCounts(c: Config, times: seq<real>, log: seq<real>, now: real)
    requires LogInv(c, times, log, now)
    ensures |Kept(log, Cutoff(c, now))| == Count(times, Cutoff(c, now), now)
    ensures c.maxRequests <= 0 ==> Kept(log, Cutoff(c, now)) == []
  {
    var k := Trimmed(c, times, log, now);
    KeptIsCount(times, Cutoff(c, now), now);
  }

  lemma {:induction false} CountAtMost(times: seq<real>, m: nat, lo: real, hi: real)
    requires m <= |times| && forall i :: 0 <= i < m ==> times[i] <= lo
    ensures Count(times, lo, hi) <= |times| - m
  {
    if times != [] {
      CountAtMost(times[..|times| - 1], if m < |times| then m else m - 1, lo, hi);
    }
  }

  lemma {:induction false} SpacedFits(c: Config, times: seq<real>, x: real)
    requires Sorted(times) && Spaced(c, times) && 0 <= c.maxRequests
    ensures Count(times, x, x + c.window as real) <= c.maxRequests
  {
    if |times| <= c.maxRequests {
      CountAtMost(times, 0, x, x + c.window as real);
    } else if x < times[|times| - 1] <= x + c.window as real {
      assert times[|times| - 1 - c.maxRequests] <= Cutoff(c, times[|times| - 1]) <= x;
      CountAtMost(times, |times| - c.maxRequests, x, x + c.window as real);
    } else {
      SpacedFits(c, times[..|times| - 1], x);
    }
  }

  /** In every run with a clock that never goes back, and for every client, any half-open window
      holds at most maxRequests accepted requests, wherever it starts. */
  lemma WindowBound(c: Config, reqs: seq<Request>, ip: string, x: real)
    requires Ordered(reqs)
    ensures Count(AcceptedTimes(c, reqs, ip), x, x + c.window as real)
         <= if 0 <= c.maxRequests then c.maxRequests else 0
  {
    RunKeepsInv(c, reqs, ip, if reqs == [] then 0.0 else reqs[|reqs| - 1].now);
    if 0 <= c.maxRequests {
      SpacedFits(c, AcceptedTimes(c, reqs, ip), x);
    }
  }

  // ----- closed windows -----

  /** How many of the times lie in [lo, hi]. */
  function CountClosed(times: seq<real>, lo: real, hi: real): nat {
    if times == [] then 0
    else CountClosed(times[..|times| - 1], lo, hi) + if lo <= times[|times| - 1] <= hi then 1 else 0
  }

  lemma {:induction false} CountClosedAtMost(times: seq<real>, m: nat, lo: real, hi: real)
    requires m <= |times| && forall i :: 0 <= i < m ==> times[i] < lo
    ensures CountClosed(times, lo, hi) <= |times| - m
  {
    if times != [] {
      CountClosedAtMost(times[..|times| - 1], if m < |times| then m else m - 1, lo, hi);
    }
  }

  lemma {:induction false} CountClosedAll(times: seq<real>, lo: real, hi: real)
    requires forall i :: 0 <= i < |times| ==> lo <= times[i] <= hi
    ensures CountClosed(times, lo, hi) == |times|
  {
    if times != [] {
      CountClosedAll(times[..|times| - 1], lo, hi);
    }
  }

  lemma {:induction false} SpacedFitsClosed(c: Config, times: seq<real>, x: real, length: real)
    requires Sorted(times) && Spaced(c, times) && 1 <= c.maxRequests && length < c.window as real
    ensures CountClosed(times, x, x + length) <= c.maxRequests
  {
    if |times| <= c.maxRequests {
      CountClosedAtMost(times, 0, x, x + length);
    } else if x <= times[|times| - 1] <= x + length {
      assert times[|times| - 1 - c.maxRequests] <= Cutoff(c, times[|times| - 1]) < x;
      CountClosedAtMost(times, |times| - c.maxRequests, x, x + length);
    } else {
      SpacedFitsClosed(c, times[..|times| - 1], x, length);
    }
  }

  /** The earliest time at which every request made at time 0 has left the window. */
  function Turn(c: Config): real {
    if 0 < c.window then c.window as real else 0.0
  }

  /** When request n of the two bursts is made: as many as allowed at time 0, and as many again when
      those have left the window. */
  function BurstTime(c: Config, n: nat): real {
    if n < c.maxRequests then 0.0 else Turn(c)
  }

  function Bursts(c: Config, ip: string, n: nat): (reqs: seq<Request>)
    ensures |reqs| == n && forall i :: 0 <= i < n ==> reqs[i] == Request(ip, BurstTime(c, i))
  {
    seq(n, (i: nat) => Request(ip, BurstTime(c, i)))
  }

  function BurstTimes(c: Config, n: nat): (times: seq<real>)
    ensures |times| == n && forall i :: 0 <= i < n ==> times[i] == BurstTime(c, i)
  {
    seq(n, (i: nat) => BurstTime(c, i))
  }

  lemma BurstHasRoom(c: Config, n: nat)
    requires n < 2 * c.maxRequests
    ensures Count(BurstTimes(c, n), Cutoff(c, BurstTime(c, n)), BurstTime(c, n)) < c.maxRequests
  {
    if n < c.maxRequests {
      CountAtMost(BurstTimes(c, n), 0, Cutoff(c, 0.0), 0.0);
    } else {
      CountAtMost(BurstTimes(c, n), c.maxRequests, Cutoff(c, Turn(c)), Turn(c));
    }
  }

  lemma AppendAccepted(c: Config, before: seq<Request>, r: Request)
    requires Ordered(before) && (before != [] ==> before[|before| - 1].now <= r.now)
    requires Count(AcceptedTimes(c, before, r.ip), Cutoff(c, r.now), r.now) < c.maxRequests
    ensures AcceptedTimes(c, before + [r], r.ip) == AcceptedTimes(c, before, r.ip) + [r.now]
  {
    AcceptsIffRoom(c, before, r.ip, r.now);
    var reqs := before + [r];
    assert reqs[..|reqs| - 1] == before && reqs[|reqs| - 1] == r;
  }

  lemma {:induction false} BurstsAccepted(c: Config, ip: string, n: nat)
    requires 1 <= c.maxRequests && n <= 2 * c.maxRequests
    ensures AcceptedTimes(c, Bursts(c, ip, n), ip) == BurstTimes(c, n)
  {
    if 0 < n {
      var before, r := Bursts(c, ip, n - 1), Request(ip, BurstTime(c, n - 1));
      BurstsAccepted(c, ip, n - 1);
      BurstHasRoom(c, n - 1);
      AppendAccepted(c, before, r);
      BurstsGrow(c, ip, n);
    }
  }

  lemma BurstsGrow(c: Config, ip: string, n: nat)
    requires 0 < n
    ensures Bursts(c, ip, n) == Bursts(c, ip, n - 1) + [Request(ip, BurstTime(c, n - 1))]
    ensures BurstTimes(c, n) == BurstTimes(c, n - 1) + [BurstTime(c, n - 1)]
  {
  }

  ghost predicate WithinClosed(c: Config, reqs: seq<Request>, ip: string, x: real, length: real) {
    CountClosed(AcceptedTimes(c, reqs, ip), x, x + length) <= c.maxRequests
  }

  /** In every run, every closed window of this length holds at most maxRequests accepted requests of a
      client. */
  ghost predicate ClosedBound(c: Config, length: real) {
    forall reqs: seq<Request>, ip: string, x: real :: Ordered(reqs) ==> WithinClosed(c, reqs, ip, x, length)
  }

  /** Windows closed at both ends respect the limit exactly when they are shorter than the limiter's. */
  lemma ClosedBoundIffShorter(c: Config, length: real)
    requires 1 <= c.maxRequests && 0.0 <= length
    ensures ClosedBound(c, length) <==> length < c.window as real
  {
    if length < c.window as real {
      forall reqs: seq<Request>, ip: string, x: real | Ordered(reqs)
        ensures WithinClosed(c, reqs, ip, x, length)
      {
        RunKeepsInv(c, reqs, ip, if reqs == [] then 0.0 else reqs[|reqs| - 1].now);
        SpacedFitsClosed(c, AcceptedTimes(c, reqs, ip), x, length);
      }
    } else {
      BurstsExceed(c, length);
    }
  }

  lemma BurstsOrdered(c: Config, ip: string, n: nat)
    ensures Ordered(Bursts(c, ip, n))
  {
  }

  lemma BurstsExceed(c: Config, length: real)
    requires 1 <= c.maxRequests && 0.0 <= length && c.window as real <= length
    ensures var reqs := Bursts(c, "", 2 * c.maxRequests); Ordered(reqs) && !WithinClosed(c, reqs, "", 0.0, length)
  {
    BurstsAccepted(c, "", 2 * c.maxRequests);
    BurstsOrdered(c, "", 2 * c.maxRequests);
    CountClosedAll(BurstTimes(c, 2 * c.maxRequests), 0.0, 0.0 + length);
  }

  // ----- the header -----

  /** After a rejection the client's next request is accepted exactly when the oldest request in its
      log has left the window. */
  lemma RetryAcceptedIff(c: Config, reqs: seq<Request>, ip: string, now: real, later: real)
    requires Ordered(reqs) && (reqs != [] ==> reqs[|reqs| - 1].now <= now) && now <= later
    requires Answered(c, Log(After(c, reqs), ip), now).Rejected?
    ensures var log := Logged(c, Log(After(c, reqs), ip), now);
            && log != []
            && (Answered(c, log, later).Accepted? <==> log[0] + c.window as real <= later)
  {
    RunKeepsInv(c, reqs, ip, now);
    RejectedKeepsFull(c, AcceptedTimes(c, reqs, ip), Log(After(c, reqs), ip), now);
    FullLogReopens(c, Logged(c, Log(After(c, reqs), ip), now), later);
  }

  lemma FullLogReopens(c: Config, log: seq<real>, later: real)
    requires Sorted(log) && |log| == c.maxRequests && log != []
    ensures Answered(c, log, later).Accepted? <==> log[0] + c.window as real <= later
  {
    var k := KeptIsTail(log, Cutoff(c, later));
  }

  /** What a rejected client gets by waiting as told, and by waiting one second more. */
  ghost predicate HeaderRule(c: Config, kept: seq<real>, now: real, wait: int) {
    && 0 <= wait && kept != []
    && (Answered(c, kept, now + wait as real).Accepted?
        <==> wait as real == kept[0] + c.window as real - now)
    && Answered(c, kept, now + wait as real + 1.0).Accepted?
  }

  lemma WaitOrMore(first: real, window: real, now: real, wait: real)
    requires wait <= first + window - now < wait + 1.0
    ensures first + window <= now + wait <==> wait == first + window - now
    ensures first + window <= now + wait + 1.0
  {
  }

  lemma WaitAsTold(c: Config, kept: seq<real>, now: real, wait: int)
    requires Sorted(kept) && |kept| == c.maxRequests && kept != []
    requires wait as real <= kept[0] + c.window as real - now < wait as real + 1.0
    ensures Answered(c, kept, now + wait as real).Accepted? <==> wait as real == kept[0] + c.window as real - now
  {
    FullLogReopens(c, kept, now + wait as real);
    WaitOrMore(kept[0], c.window as real, now, wait as real);
  }

  lemma WaitOneMore(c: Config, kept: seq<real>, now: real, wait: int)
    requires Sorted(kept) && |kept| == c.maxRequests && kept != []
    requires wait as real <= kept[0] + c.window as real - now < wait as real + 1.0
    ensures Answered(c, kept, now + wait as real + 1.0).Accepted?
  {
    FullLogReopens(c, kept, now + wait as real + 1.0);
    WaitOrMore(kept[0], c.window as real, now, wait as real);
  }

  lemma WaitThenRetry(c: Config, kept: seq<real>, now: real, wait: int)
    requires Sorted(kept) && |kept| == c.maxRequests && kept != [] && 0 <= wait
    requires wait as real <= kept[0] + c.window as real - now < wait as real + 1.0
    ensures HeaderRule(c, kept, now, wait)
  {
    WaitAsTold(c, kept, now, wait);
    WaitOneMore(c, kept, now, wait);
  }

  lemma RejectedKeepsFull(c: Config, times: seq<real>, log: seq<real>, now: real)
    requires LogInv(c, times, log, now) && Answered(c, log, now).Rejected?
    ensures var kept := Logged(c, log, now); Sorted(kept) && |kept| == c.maxRequests && kept != []
  {
    RequestKeepsInv(c, times, log, now);
  }

  lemma RejectedWait(c: Config, times: seq<real>, log: seq<real>, now: real)
    requires LogInv(c, times, log, now) && Answered(c, log, now).Rejected?
    ensures var kept, wait := Logged(c, log, now), Answered(c, log, now).retryAfter;
            kept != [] && 0 <= wait && wait as real <= kept[0] + c.window as real - now < wait as real + 1.0
  {
    var k := Trimmed(c, times, log, now);
    assert Logged(c, log, now)[0] > Cutoff(c, now);
  }

  /** The header is cut down to whole seconds: waiting that long is enough exactly when nothing was
      cut off, and one second more always is. */
  lemma HeaderHonestIff(c: Config, reqs: seq<Request>, ip: string, now: real)
    requires Ordered(reqs) && (reqs != [] ==> reqs[|reqs| - 1].now <= now)
    requires Answered(c, Log(After(c, reqs), ip), now).Rejected?
    ensures var log := Log(After(c, reqs), ip);
            HeaderRule(c, Logged(c, log, now), now, Answered(c, log, now).retryAfter)
  {
    RunKeepsInv(c, reqs, ip, now);
    var times, log := AcceptedTimes(c, reqs, ip), Log(After(c, reqs), ip);
    RejectedKeepsFull(c, times, log, now);
    RejectedWait(c, times, log, now);
    WaitThenRetry(c, Logged(c, log, now), now, Answered(c, log, now).retryAfter);
  }
}
