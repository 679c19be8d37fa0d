/**
 The Redis-backed lock (backend/src/scheduler/locks.py).

 Redis is a key store with expiry; its three commands are functions on the store.  RedisLock is
 the client object, with the token field that acquire overwrites even when it fails.
 */
module RedisLocks {
  import opened Wrappers

  type Job = nat
  type Token = nat

  /** A key's value and the clock reading at which Redis drops it. */
  datatype Entry = Entry(token: Token, expires: nat)

  type Store = map<Job, Entry>

  predicate Live(store: Store, j: Job, now: nat) {
    j in store && now < store[j].expires
  }

  /** SET key token NX EX ttl */
  function SetNx(store: Store, j: Job, token: Token, now: nat, ttl: nat): Store {
    if Live(store, j, now) then store else store[j := Entry(token, now + ttl)]
  }

  /** GET key == token */
  predicate Holds(store: Store, j: Job, token: Token, now: nat) {
    Live(store, j, now) && store[j].token == token
  }

  /** The compare-and-delete script. */
  function CompareAndDelete(store: Store, j: Job, token: Token, now: nat): Store {
    if Holds(store, j, token, now) then store - {j} else store
  }

  /** EXPIRE key ttl */
  function Expire(store: Store, j: Job, now: nat, ttl: nat): Store {
    if Live(store, j, now) then store[j := store[j].(expires := now + ttl)] else store
  }

  /** A key that outlives its term is free for the next taker. */
  lemma ExpiredKeyIsTaken(store: Store, j: Job, old_: Token, token: Token, now: nat, ttl: nat)
    requires j in store && store[j].expires <= now && 0 < ttl && old_ != token
    ensures Holds(SetNx(store, j, token, now, ttl), j, token, now)
    ensures CompareAndDelete(SetNx(store, j, token, now, ttl), j, old_, now) == SetNx(store, j, token, now, ttl)
  {
  }

  /** A command of another client, and when Redis runs it. */
  datatype Command =
    | Set(at: nat, job: Job, token: Token, ttl: nat)
    | Delete(at: nat, job: Job, token: Token)

  function Served(store: Store, c: Command): Store {
    match c
    case Set(at, job, token, ttl) => SetNx(store, job, token, at, ttl)
    case Delete(at, job, token) => CompareAndDelete(store, job, token, at)
  }

  function ServedAll(store: Store, commands: seq<Command>): Store {
    if commands == [] then store
    else Served(ServedAll(store, commands[..|commands| - 1]), commands[|commands| - 1])
  }

  /** What clients with other tokens may ask of Redis up to a given time. */
  ghost predicate OthersUntil(commands: seq<Command>, token: Token, from: nat, until: nat) {
    && (forall i :: 0 <= i < |commands| ==> commands[i].token != token && from <= commands[i].at <= until)
    && (forall i, j :: 0 <= i <= j < |commands| ==> commands[i].at <= commands[j].at)
  }

  /** Before it expires a key stays what it is, whatever clients with other tokens do. */
  lemma {:induction false} UnexpiredKeyStays(store: Store, commands: seq<Command>, j: Job, token: Token,
                                             from: nat, until: nat)
    requires Holds(store, j, token, from) && until < store[j].expires && OthersUntil(commands, token, from, until)
    ensures j in ServedAll(store, commands) && ServedAll(store, commands)[j] == store[j]
  {
    if commands != [] {
      UnexpiredKeyStays(store, commands[..|commands| - 1], j, token, from, until);
    }
  }

  /** The caller holds its key after an extension, whatever other clients did between its two commands. */
  ghost predicate ExtensionSafe(store: Store, j: Job, token: Token, read: nat, reset: nat, ttl: nat) {
    forall commands :: OthersUntil(commands, token, read, reset) ==>
      Holds(Expire(ServedAll(store, commands), j, reset, ttl), j, token, reset)
  }

  /** extend reads the key and resets its term in two commands.  For a caller that held the key at the
      read, the extension is safe exactly when it resets the term before the key expires; after that it
      may prolong the key of another holder. */
  lemma ExtensionSafeIffInTerm(store: Store, j: Job, token: Token, read: nat, reset: nat, ttl: nat)
    requires 0 < ttl && read <= reset && Holds(store, j, token, read)
    ensures ExtensionSafe(store, j, token, read, reset, ttl) <==> reset < store[j].expires
  {
    if reset < store[j].expires {
      forall commands | OthersUntil(commands, token, read, reset)
        ensures Holds(Expire(ServedAll(store, commands), j, reset, ttl), j, token, reset)
      {
        UnexpiredKeyStays(store, commands, j, token, read, reset);
      }
    } else {
      assert OthersUntil([], token, read, reset);
      assert ServedAll(store, []) == store;
      assert !Holds(Expire(store, j, reset, ttl), j, token, reset);
    }
  }

  /** Then another client that takes the key is the one whose term is prolonged. */
  lemma LateExtensionHelpsOther(store: Store, j: Job, token: Token, other: Token, reset: nat, ttl: nat)
    requires 0 < ttl && j in store && store[j].expires <= reset && other != token
    ensures var taken := ServedAll(store, [Set(reset, j, other, ttl)]);
            Holds(Expire(taken, j, reset, ttl), j, other, reset)
  {
    var one := [Set(reset, j, other, ttl)];
    assert one[..0] == [];
    assert ServedAll(store, one) == Served(ServedAll(store, []), one[0]);
  }

  /** A shared Redis server; while a caller sleeps other clients may change the store, and the server
      may go down or come back. */
  class Server {
    var store: Store
    var clock: nat
    var up: bool

    constructor ()
      ensures store == map[] && clock == 0 && up
    {
      store, clock, up := map[], 0, true;
    }

    method Sleep(d: nat)
      modifies this
      ensures clock == old(clock) + d
    {
      store, up := *, *;
      clock := clock + d;
    }
  }

  class RedisLock {
    const redis: Option<Server>
    const name: Job
    const ttl: nat
    var token: Option<Token>

    constructor (redis: Option<Server>, name: Job, ttl: nat)
      ensures this.redis == redis && this.name == name && this.ttl == ttl && token == None
    {
      this.redis, this.name, this.ttl, token := redis, name, ttl, None;
    }

    ghost function Footprint(): set<object> {
      if redis.Some? then {this, redis.value} else {this}
    }

    /** One try: with Redis down it claims success. */
    method Try(server: Server, attempt: Token) returns (ok: bool)
      requires 0 < ttl
      modifies server
      ensures server.up == old(server.up) && server.clock == old(server.clock)
      ensures ok == (!server.up || !Live(old(server.store), name, server.clock))
      ensures server.store == if server.up then SetNx(old(server.store), name, attempt, server.clock, ttl)
                              else old(server.store)
    {
      ok := !server.up || !Live(server.store, name, server.clock);
      if server.up {
        server.store := SetNx(server.store, name, attempt, server.clock, ttl);
      }
    }

    /** Tries once, and then every 100 ticks until the deadline.  Without Redis it refuses; with
        Redis down, at first or at a later try, it runs degraded and claims success. */
    method Acquire(fresh_: Token, timeout: nat) returns (ok: bool)
      requires 0 < ttl
      modifies Footprint()
      ensures redis == None ==> !ok && token == old(token)
      ensures redis.Some? ==> token == Some(fresh_)
      ensures redis.Some? && ok && redis.value.up ==>
                Holds(redis.value.store, name, fresh_, redis.value.clock)
                && redis.value.store[name].expires == redis.value.clock + ttl
      ensures redis.Some? && !ok ==>
                redis.value.up && Live(redis.value.store, name, redis.value.clock)
                && redis.value.clock >= old(redis.value.clock) + timeout
      ensures redis.Some? && (timeout == 0 || !old(redis.value.up)) ==>
                && redis.value.clock == old(redis.value.clock) && redis.value.up == old(redis.value.up)
                && ok == (!redis.value.up || !Live(old(redis.value.store), name, redis.value.clock))
                && redis.value.store == if redis.value.up
                                        then SetNx(old(redis.value.store), name, fresh_, redis.value.clock, ttl)
                                        else old(redis.value.store)
    {
      if redis == None {
        return false;
      }
      token := Some(fresh_);
      var server := redis.value;
      var deadline := server.clock + timeout;
      ok := Try(server, fresh_);
      if timeout == 0 {
        return;
      }
      while !ok && server.clock < deadline
        invariant token == Some(fresh_) && server.clock >= old(redis.value.clock)
        invariant ok && server.up ==> Holds(server.store, name, fresh_, server.clock)
                                      && server.store[name].expires == server.clock + ttl
        invariant !ok ==> server.up && Live(server.store, name, server.clock)
        invariant !old(redis.value.up) ==> ok
        invariant !old(redis.value.up) ==> !server.up && server.clock == old(redis.value.clock)
                                           && server.store == old(redis.value.store)
        decreases !ok, deadline - server.clock
      {
        server.Sleep(100);
        ok := Try(server, fresh_);
      }
    }

    /** Deletes the key only if it still carries this object's token, and forgets the token. */
    method Release() returns (released: bool)
      requires redis.Some? || token == None
      modifies Footprint()
      ensures token == None
      ensures released ==> old(token).Some? && redis.Some?
      ensures redis.Some? ==>
                && redis.value.clock == old(redis.value.clock)
                && redis.value.up == old(redis.value.up)
                && released == (old(token).Some? && redis.value.up
                                && Holds(old(redis.value.store), name, old(token).value, redis.value.clock))
                && redis.value.store == if released then old(redis.value.store) - {name} else old(redis.value.store)
    {
      if token == None {
        return false;
      }
      var server := redis.value;
      if !server.up {
        token := None;
        return false;
      }
      released := Holds(server.store, name, token.value, server.clock);
      server.store := CompareAndDelete(server.store, name, token.value, server.clock);
      token := None;
    }

    /** Reads the key and, gap ticks later, resets its term; what the store held in between is not
        in the caller's hands.  If Redis fails at either command nothing is reset. */
    method Extend(extra: nat, gap: nat) returns (ok: bool, ghost between: Store)
      modifies if redis.Some? then {redis.value} else {}
      ensures ok ==> redis.Some? && token.Some? && old(redis.value.up) && redis.value.up
                     && Holds(old(redis.value.store), name, token.value, old(redis.value.clock))
      ensures redis.Some? && token.Some? && old(redis.value.up)
              && Holds(old(redis.value.store), name, token.value, old(redis.value.clock)) ==>
                && ok == redis.value.up
                && redis.value.clock == old(redis.value.clock) + gap
                && redis.value.store == if ok then Expire(between, name, redis.value.clock, ttl + extra) else between
      ensures redis.Some? && !(token.Some? && old(redis.value.up)
                               && Holds(old(redis.value.store), name, token.value, old(redis.value.clock))) ==>
                redis.value.store == old(redis.value.store) && redis.value.clock == old(redis.value.clock)
      ensures ok && gap == 0 ==> between == old(redis.value.store)
    {
      ok, between := false, map[];
      if redis == None || token == None {
        return;
      }
      var server := redis.value;
      if !server.up || !Holds(server.store, name, token.value, server.clock) {
        return;
      }
      if gap > 0 {
        server.Sleep(gap);
      }
      between := server.store;
      if server.up {
        server.store := Expire(server.store, name, server.clock, ttl + extra);
        ok := true;
      }
    }
  }

  /** One lock object per name, so every run of a job in a process shares its token. */
  class LockManager {
    const redis: Option<Server>
    var locks: map<Job, RedisLock>

    ghost predicate Valid()
      reads this
    {
      forall j :: j in locks ==> locks[j].name == j && locks[j].redis == redis
    }

    constructor (redis: Option<Server>)
      ensures Valid() && this.redis == redis && locks == map[]
    {
      this.redis, locks := redis, map[];
    }

    /** The term asked for matters only the first time. */
    method Get(name: Job, ttl: nat) returns (lock: RedisLock)
      requires Valid()
      modifies this
      ensures Valid() && locks == old(locks)[name := lock]
      ensures if name in old(locks) then lock == old(locks)[name]
              else fresh(lock) && lock.ttl == ttl && lock.token == None
    {
      if name !in locks {
        var made := new RedisLock(redis, name, ttl);
        locks := locks[name := made];
      }
      lock := locks[name];
    }
  }
}
