/**
 Who answers a call of the shared store, what is answered, and how long a replica keeps off Redis: each against the
 history of calls instead of the counters, keys and deques that gateway/app/ratestore.py keeps.
 */
module FleetAnswers {
  import opened Prelude
  import opened SharedStore
  import opened Fleet
  import SlidingWindow
  import NonceCache

  // ---- Who answers -------------------------------------------------------------------------------------

  /** The replica has a client for this call: an open one, or a new one once the back-off is over and a ping works. */
  predicate HasClient(s: State, op: Op, u: Setup) {
    u.configured && (ReplicaOf(s, op.replica).connected || (ReplicaOf(s, op.replica).nextTry <= op.at && op.weather.ping))
  }

  /** The command reached the server, whether or not its reply came back. */
  predicate ReachesRedis(s: State, op: Op, u: Setup) {
    HasClient(s, op, u) && op.weather.command != LostBefore
  }

  /** Redis answers exactly when there is a client and nothing is lost: the command, or the expiry after a first INCR. */
  lemma RedisAnswersExactly(run: Trace<Op>, op: Op, u: Setup)
    requires u.window > 0.0
    ensures Result(run, op, u).source == FromRedis <==>
              && HasClient(After(run, u), op, u) && op.weather.command == Works
              && (op.RateCheck? && Bumps(run, op.key, Bucket(op.at, u.window), u) == 0 ==> op.weather.expire == Works)
  {
    if op.RateCheck? {
      CounterCounts(run, op.key, Bucket(op.at, u.window), u);
      CountedCall(After(run, u), op, u, Bumps(run, op.key, Bucket(op.at, u.window), u));
    }
  }

  /** The next INCR of a counter that outlives its window makes it one more. */
  lemma NextBump(redis: Redis, n: nat, key: string, window: real, now: real)
    requires window > 0.0 && Holds(redis, n, key, Bucket(now, window), window)
    ensures Bumped(redis, (key, Bucket(now, window)), now).count == n + 1
  {
    BucketContains(now, window);
  }

  lemma CountedCall(s: State, op: Op, u: Setup, n: nat)
    requires u.window > 0.0 && op.RateCheck? && Holds(s.redis, n, op.key, Bucket(op.at, u.window), u.window)
    ensures Perform(s, op, u).source == FromRedis <==>
              HasClient(s, op, u) && op.weather.command == Works && (n == 0 ==> op.weather.expire == Works)
    ensures Perform(s, op, u).source == FromRedis ==> (Perform(s, op, u).answer <==> n < u.limit(op.key))
  {
    NextBump(s.redis, n, op.key, u.window, op.at);
  }

  /** After a call that Redis answered the line is open; after any other it is closed, and a failed attempt costs five seconds. */
  lemma BackOffExactly(s: State, op: Op, u: Setup)
    requires u.window > 0.0 && u.configured
    ensures var o, r := Perform(s, op, u), ReplicaOf(s, op.replica);
            && (o.source == FromRedis <==> o.replica.connected)
            && (o.source == FromMemory ==>
                  o.replica.nextTry == if !r.connected && op.at < r.nextTry then r.nextTry else op.at + 5.0)
  {
  }

  /** Replica `r` has no line and will not try before `until`. */
  predicate BackingOff(s: State, r: nat, until: real) {
    !ReplicaOf(s, r).connected && ReplicaOf(s, r).nextTry == until
  }

  lemma BackOffStands(s: State, op: Op, r: nat, until: real, u: Setup)
    requires u.window > 0.0 && BackingOff(s, r, until) && op.at < until && op.replica == r
    ensures Perform(s, op, u).source == FromMemory
    ensures !Perform(s, op, u).replica.connected && Perform(s, op, u).replica.nextTry == until
  {
  }

  /** Until the back-off is over every call of the replica is answered from memory, however well the network does. */
  lemma {:induction false} BackOffLasts(run: Trace<Op>, later: Trace<Op>, r: nat, until: real, now: real, u: Setup)
    requires u.window > 0.0 && Follows(later, run) && MonotoneUpTo(later, TimeOf, now) && now < until
    requires BackingOff(After(run, u), r, until)
    ensures BackingOff(After(later, u), r, until)
    ensures forall op: Op :: op.replica == r && op.at == now ==> Result(later, op, u).source == FromMemory
  {
    if later != run {
      var before, op := later.before, later.event;
      BackOffLasts(run, before, r, until, op.at, u);
      if op.replica == r {
        BackOffStands(After(before, u), op, r, until, u);
      } else {
        assert ReplicaOf(After(later, u), r) == ReplicaOf(After(before, u), r);
      }
    }
    forall op: Op | op.replica == r && op.at == now ensures Result(later, op, u).source == FromMemory {
      BackOffStands(After(later, u), op, r, until, u);
    }
  }

  /** A failed attempt keeps the replica off Redis for five seconds. */
  lemma FailureKeepsOff(before: Trace<Op>, failed: Op, later: Trace<Op>, op: Op, u: Setup)
    requires u.window > 0.0 && u.configured && Result(before, failed, u).source == FromMemory
    requires !BackingOffAt(After(before, u), failed)
    requires Follows(later, Then(before, failed)) && MonotoneUpTo(later, TimeOf, op.at)
    requires op.replica == failed.replica && op.at < failed.at + 5.0
    ensures Result(later, op, u).source == FromMemory
  {
    BackOffExactly(After(before, u), failed, u);
    BackOffLasts(Then(before, failed), later, failed.replica, failed.at + 5.0, op.at, u);
  }

  predicate BackingOffAt(s: State, op: Op) {
    !ReplicaOf(s, op.replica).connected && op.at < ReplicaOf(s, op.replica).nextTry
  }

  // ---- What Redis answers ------------------------------------------------------------------------------

  /** How many calls for `key` in aligned window `b` have reached Redis. */
  function Bumps(run: Trace<Op>, key: string, b: int, u: Setup): nat
    requires u.window > 0.0
  {
    match run
    case Start => 0
    case Then(before, op) =>
      Bumps(before, key, b, u)
      + if op.RateCheck? && op.key == key && Bucket(op.at, u.window) == b && ReachesRedis(After(before, u), op, u) then 1 else 0
  }

  /** The counter of a window holds the number of calls that have reached it, and outlives the window. */
  ghost predicate Holds(redis: Redis, n: nat, key: string, b: int, window: real) {
    && ((key, b) in redis.counters <==> n > 0)
    && ((key, b) in redis.counters ==>
          var c := redis.counters[(key, b)]; c.count == n && (c.expiry == None || b as real * window + window <= c.expiry.value))
  }

  lemma BumpHolds(s: State, op: Op, u: Setup, n: nat)
    requires u.window > 0.0 && op.RateCheck? && Holds(s.redis, n, op.key, Bucket(op.at, u.window), u.window)
    ensures Holds(Perform(s, op, u).redis, n + if ReachesRedis(s, op, u) then 1 else 0, op.key, Bucket(op.at, u.window), u.window)
  {
    BucketContains(op.at, u.window);
    assert u.window < Lifetime(u.window);
  }

  lemma {:induction false} CounterCounts(run: Trace<Op>, key: string, b: int, u: Setup)
    requires u.window > 0.0
    ensures Holds(After(run, u).redis, Bumps(run, key, b, u), key, b, u.window)
  {
    match run
    case Start =>
    case Then(before, op) =>
      var s := After(before, u);
      CounterCounts(before, key, b, u);
      match op
      case NonceCheck(r, w, nonce, at) =>
      case RateCheck(r, w, k, at) =>
        if k == key && Bucket(at, u.window) == b {
          BumpHolds(s, op, u, Bumps(before, key, b, u));
        } else {
          AllowElsewhere(ReplicaOf(s, r), s.redis, u.configured, w, k, u.limit(k), u.window, at, (key, b));
        }
  }

  /** Redis lets a call through exactly when fewer than `limit` calls of its key have reached it in the aligned window. */
  lemma RedisAllowsExactly(before: Trace<Op>, op: Op, u: Setup)
    requires u.window > 0.0 && op.RateCheck? && Result(before, op, u).source == FromRedis
    ensures Result(before, op, u).answer <==> Bumps(before, op.key, Bucket(op.at, u.window), u) < u.limit(op.key)
  {
    CounterCounts(before, op.key, Bucket(op.at, u.window), u);
    CountedCall(After(before, u), op, u, Bumps(before, op.key, Bucket(op.at, u.window), u));
  }

  /** When Redis last took `nonce` as new: at a call that reached it while it did not hold the nonce, for so many whole seconds. */
  function LastTaken(run: Trace<Op>, nonce: string, u: Setup): Option<real>
    requires u.window > 0.0
  {
    match run
    case Start => None
    case Then(before, op) =>
      var last := LastTaken(before, nonce, u);
      if op.NonceCheck? && op.nonce == nonce && ReachesRedis(After(before, u), op, u)
         && (last == None || last.value + (u.ttl.Floor + 1) as real <= op.at)
      then Some(op.at) else last
  }

  ghost predicate Keeps(nonces: map<string, real>, nonce: string, last: Option<real>, u: Setup) {
    && (nonce in nonces <==> last.Some?)
    && (last.Some? ==> nonces[nonce] == last.value + (u.ttl.Floor + 1) as real)
  }

  lemma NonceStep(s: State, op: Op, nonce: string, last: Option<real>, u: Setup)
    requires u.window > 0.0 && Keeps(s.redis.nonces, nonce, last, u)
    ensures Keeps(Perform(s, op, u).redis.nonces, nonce,
                  if op.NonceCheck? && op.nonce == nonce && ReachesRedis(s, op, u)
                     && (last == None || last.value + (u.ttl.Floor + 1) as real <= op.at)
                  then Some(op.at) else last, u)
  {
    if op.RateCheck? {
      AllowLeavesNonces(ReplicaOf(s, op.replica), s.redis, op.weather, op.key, op.at, u);
    }
  }

  lemma {:induction false} NonceKeys(run: Trace<Op>, nonce: string, u: Setup)
    requires u.window > 0.0
    ensures Keeps(After(run, u).redis.nonces, nonce, LastTaken(run, nonce, u), u)
  {
    match run
    case Start =>
    case Then(before, op) =>
      NonceKeys(before, nonce, u);
      NonceStep(After(before, u), op, nonce, LastTaken(before, nonce, u), u);
  }

  /** Redis calls a nonce seen exactly when it last took it less than its lifetime ago, rounded up to a whole second. */
  lemma RedisSeesExactly(before: Trace<Op>, op: Op, u: Setup)
    requires u.window > 0.0 && op.NonceCheck? && Result(before, op, u).source == FromRedis
    ensures Result(before, op, u).answer <==>
              var last := LastTaken(before, op.nonce, u); last.Some? && op.at < last.value + (u.ttl.Floor + 1) as real
  {
    NonceKeys(before, op.nonce, u);
  }

  // ---- What memory answers -------------------------------------------------------------------------------

  /** A replica lets a call through from memory exactly when fewer than `limit` of those it let through lie in the window. */
  lemma MemoryAllowsExactly(before: Trace<Op>, op: Op, u: Setup)
    requires u.window > 0.0 && op.RateCheck? && MonotoneUpTo(before, TimeOf, op.at)
    requires Result(before, op, u).source == FromMemory
    ensures Result(before, op, u).answer <==>
              SlidingWindow.CountAfter(MemoryAllowed(before, op.replica, op.key, u), op.at - u.window, op.at) < u.limit(op.key)
  {
    MemoryBound(before, op.replica, op.key, u, op.at);
    MemoryCall(After(before, u), op, u, MemoryAllowed(before, op.replica, op.key, u));
  }

  lemma MemoryCall(s: State, op: Op, u: Setup, past: seq<real>)
    requires u.window > 0.0 && op.RateCheck? && Perform(s, op, u).source == FromMemory
    requires MemorySound(ReplicaOf(s, op.replica), past, op.key, u, op.at)
    ensures Perform(s, op, u).answer <==> SlidingWindow.CountAfter(past, op.at - u.window, op.at) < u.limit(op.key)
  {
    var r := ReplicaOf(s, op.replica);
    AllowUsesMemory(r, s.redis, op.weather, op.key, op.at, u);
    SlidingWindow.AdmitCounts(SlidingWindow.Deque(r.hits, op.key), past, u.limit(op.key), u.window, op.at);
  }

  /** A replica calls a nonce seen exactly when it is among the last 100,000 it took as new, within the time to live. */
  lemma MemorySeesExactly(before: Trace<Op>, op: Op, u: Setup)
    requires u.window > 0.0 && op.NonceCheck? && MonotoneUpTo(before, TimeOf, op.at)
    requires Result(before, op, u).source == FromMemory
    ensures Result(before, op, u).answer <==>
              NonceCache.RecentlyRecorded(RecordedBy(before, MemoryOf(op.replica), u), op.nonce, op.at - u.ttl)
  {
    var r := ReplicaOf(After(before, u), op.replica);
    SeenNonceUsesMemory(r, After(before, u).redis, op.weather, op.nonce, op.at, u);
    CacheMirrors(before, op.replica, u, op.at);
    NonceCache.MirrorSees(r.nonces, RecordedBy(before, MemoryOf(op.replica), u), op.nonce, u.ttl, op.at);
  }
}
