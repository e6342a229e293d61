/**
 Several gateway replicas sharing one Redis, over whole runs with arbitrary network failures: how many
 calls the failover limiter can let through, and how often the failover replay cache can call a nonce new.
 */
module Fleet {
  import opened Prelude
  import opened SharedStore
  import SlidingWindow
  import NonceCache

  /** Settings of a deployment. */
  datatype Setup = Setup(configured: bool, limit: string -> int, window: real, ttl: real)

  /** One call of the store by one replica. */
  datatype Op =
    | RateCheck(replica: nat, weather: Weather, key: string, at: real)
    | NonceCheck(replica: nat, weather: Weather, nonce: string, at: real)

  datatype State = State(replicas: map<nat, Replica>, redis: Redis)

  const FRESH_REPLICA := Replica(map[], [], false, 0.0)

  function TimeOf(op: Op): real {
    op.at
  }

  function ReplicaOf(s: State, r: nat): Replica {
    if r in s.replicas then s.replicas[r] else FRESH_REPLICA
  }

  function Perform(s: State, op: Op, u: Setup): Outcome
    requires u.window > 0.0
  {
    match op
    case RateCheck(r, w, key, at) => Allow(ReplicaOf(s, r), s.redis, u.configured, w, key, u.limit(key), u.window, at)
    case NonceCheck(r, w, nonce, at) => SeenNonce(ReplicaOf(s, r), s.redis, u.configured, w, nonce, u.ttl, at)
  }

  function After(run: Trace<Op>, u: Setup): State
    requires u.window > 0.0
  {
    match run
    case Start => State(map[], Redis(map[], map[]))
    case Then(before, op) =>
      var s := After(before, u);
      var o := Perform(s, op, u);
      State(s.replicas[op.replica := o.replica], o.redis)
  }

  /** How call `op` is answered after the run `before`. */
  function Result(before: Trace<Op>, op: Op, u: Setup): Outcome
    requires u.window > 0.0
  {
    Perform(After(before, u), op, u)
  }

  // ---- Arithmetic of aligned windows -----------------------------------------------------------

  lemma BucketContains(now: real, window: real)
    requires window > 0.0
    ensures Bucket(now, window) as real * window <= now
    ensures now < Bucket(now, window) as real * window + window
  {
    var x := now / window;
    var b := x.Floor as real;
    assert x * window == now;
    Scale(b, x, window);
    ScaleStrict(x, b + 1.0, window);
    assert (b + 1.0) * window == b * window + window;
    assert now < b * window + window;
  }

  lemma Scale(x: real, y: real, w: real)
    requires x <= y && w > 0.0
    ensures x * w <= y * w
  {
  }

  lemma ScaleStrict(x: real, y: real, w: real)
    requires x < y && w > 0.0
    ensures x * w < y * w
  {
  }

  lemma DivideMonotone(a: real, t: real, window: real)
    requires window > 0.0 && a <= t
    ensures a / window <= t / window
  {
    var x, y := a / window, t / window;
    assert x * window == a && y * window == t;
    if y < x {
      ScaleStrict(y, x, window);
    }
  }

  lemma DivideShift(a: real, window: real)
    requires window > 0.0
    ensures (a + window) / window <= a / window + 1.0
  {
    var x, y := a / window, (a + window) / window;
    assert x * window == a && y * window == a + window;
    assert (x + 1.0) * window == x * window + window;
    if x + 1.0 < y {
      ScaleStrict(x + 1.0, y, window);
    }
  }

  /** A half-open interval one window long meets at most two aligned windows. */
  lemma IntervalMeetsTwoBuckets(a: real, t: real, window: real)
    requires window > 0.0 && a <= t < a + window
    ensures Bucket(a, window) <= Bucket(t, window) <= Bucket(a, window) + 1
  {
    DivideMonotone(a, t, window);
    DivideMonotone(t, a + window, window);
    DivideShift(a, window);
  }

  // ---- The Redis path --------------------------------------------------------------------------

  /** Calls for `key` in aligned window `b` that Redis let through. */
  function RedisAllowed(run: Trace<Op>, key: string, b: int, u: Setup): nat
    requires u.window > 0.0
  {
    match run
    case Start => 0
    case Then(before, op) =>
      var o := Result(before, op, u);
      RedisAllowed(before, key, b, u)
      + if op.RateCheck? && op.key == key && Bucket(op.at, u.window) == b && o.answer && o.source == FromRedis then 1 else 0
  }

  /** The counter of window `b` outlives the window and has counted every call Redis let through. */
  ghost predicate Counted(redis: Redis, allowed: nat, key: string, b: int, limit: int, window: real) {
    && allowed <= Max(0, limit)
    && (allowed > 0 ==> (key, b) in redis.counters)
    && ((key, b) in redis.counters ==>
          var c := redis.counters[(key, b)];
          allowed <= c.count && (c.expiry == None || b as real * window + window <= c.expiry.value))
  }

  lemma AllowCounts(r: Replica, redis: Redis, configured: bool, w: Weather, key: string, limit: int,
                    window: real, now: real, allowed: nat)
    requires window > 0.0
    requires Counted(redis, allowed, key, Bucket(now, window), limit, window)
    ensures var o := Allow(r, redis, configured, w, key, limit, window, now);
            Counted(o.redis, allowed + if o.answer && o.source == FromRedis then 1 else 0,
                    key, Bucket(now, window), limit, window)
  {
    var b := Bucket(now, window);
    BucketContains(now, window);
    assert window < Lifetime(window);
  }

  lemma AllowElsewhere(r: Replica, redis: Redis, configured: bool, w: Weather, key: string, limit: int,
                       window: real, now: real, k: (string, int))
    requires window > 0.0 && k != (key, Bucket(now, window))
    ensures var o := Allow(r, redis, configured, w, key, limit, window, now);
            (k in o.redis.counters <==> k in redis.counters)
            && (k in redis.counters ==> o.redis.counters[k] == redis.counters[k])
  {
  }

  lemma {:induction false} RedisBound(run: Trace<Op>, key: string, b: int, u: Setup)
    requires u.window > 0.0
    ensures Counted(After(run, u).redis, RedisAllowed(run, key, b, u), key, b, u.limit(key), u.window)
  {
    match run
    case Start =>
    case Then(before, op) =>
      var s := After(before, u);
      RedisBound(before, key, b, u);
      match op
      case NonceCheck(r, w, nonce, at) =>
      case RateCheck(r, w, k, at) =>
        if k == key && Bucket(at, u.window) == b {
          AllowCounts(ReplicaOf(s, r), s.redis, u.configured, w, key, u.limit(key), u.window, at,
                      RedisAllowed(before, key, b, u));
        } else {
          AllowElsewhere(ReplicaOf(s, r), s.redis, u.configured, w, k, u.limit(k), u.window, at, (key, b));
        }
  }

  // ---- The fallback path -----------------------------------------------------------------------

  /** Times of the calls for `key` that replica `r` let through from its own memory. */
  function MemoryAllowed(run: Trace<Op>, r: nat, key: string, u: Setup): seq<real>
    requires u.window > 0.0
  {
    match run
    case Start => []
    case Then(before, op) =>
      var o := Result(before, op, u);
      var past := MemoryAllowed(before, r, key, u);
      if op.RateCheck? && op.key == key && op.replica == r && o.answer && o.source == FromMemory
      then past + [op.at] else past
  }

  ghost predicate MemorySound(r: Replica, allowed: seq<real>, key: string, u: Setup, now: real) {
    SlidingWindow.Sound(SlidingWindow.Deque(r.hits, key), allowed, u.limit(key), u.window, now)
  }

  /** The fallback memory moves only when it answers, and then by the sliding window's own step. */
  lemma AllowUsesMemory(r: Replica, redis: Redis, w: Weather, key: string, now: real, u: Setup)
    requires u.window > 0.0
    ensures var o := Allow(r, redis, u.configured, w, key, u.limit(key), u.window, now);
            var q := SlidingWindow.Deque(r.hits, key);
            if o.source == FromRedis then o.replica.hits == r.hits
            else o.replica.hits == r.hits[key := SlidingWindow.Admit(q, u.limit(key), u.window, now)]
                 && o.answer == SlidingWindow.HasRoom(q, u.limit(key), u.window, now)
  {
  }

  /** What is watched of one replica's memory moves by one sliding-window step, or not at all. */
  ghost predicate MemoryMoves(q: seq<real>, past: seq<real>, q': seq<real>, all: seq<real>, limit: int, window: real, at: real) {
    || (q' == q && all == past)
    || (q' == SlidingWindow.Admit(q, limit, window, at)
        && all == SlidingWindow.Extend(past, SlidingWindow.HasRoom(q, limit, window, at), at))
  }

  lemma MemoryStep(q: seq<real>, past: seq<real>, q': seq<real>, all: seq<real>, limit: int, window: real, at: real, now: real)
    requires SlidingWindow.Sound(q, past, limit, window, at) && at <= now
    requires MemoryMoves(q, past, q', all, limit, window, at)
    ensures SlidingWindow.Sound(q', all, limit, window, now)
  {
    SlidingWindow.AdmitSound(q, past, limit, window, at);
    SlidingWindow.SoundLater(q', all, limit, window, at, now);
  }

  lemma SeenNonceLeavesHits(r: Replica, redis: Redis, w: Weather, nonce: string, now: real, u: Setup)
    ensures SeenNonce(r, redis, u.configured, w, nonce, u.ttl, now).replica.hits == r.hits
  {
  }

  /** The calls for `key` that one outcome adds to those let through from memory. */
  function AddedBy(op: Op, o: Outcome, key: string): seq<real> {
    if op.RateCheck? && op.key == key && o.answer && o.source == FromMemory then [op.at] else []
  }

  lemma OutcomeMoves(s: State, op: Op, key: string, past: seq<real>, u: Setup)
    requires u.window > 0.0
    ensures var o, q := Perform(s, op, u), SlidingWindow.Deque(ReplicaOf(s, op.replica).hits, key);
            MemoryMoves(q, past, SlidingWindow.Deque(o.replica.hits, key), past + AddedBy(op, o, key),
                        u.limit(key), u.window, op.at)
  {
    var rep := ReplicaOf(s, op.replica);
    if op.RateCheck? {
      AllowUsesMemory(rep, s.redis, op.weather, op.key, op.at, u);
    } else {
      SeenNonceLeavesHits(rep, s.redis, op.weather, op.nonce, op.at, u);
    }
  }

  lemma MemoryFollows(before: Trace<Op>, op: Op, r: nat, key: string, u: Setup)
    requires u.window > 0.0
    ensures MemoryMoves(SlidingWindow.Deque(ReplicaOf(After(before, u), r).hits, key), MemoryAllowed(before, r, key, u),
                        SlidingWindow.Deque(ReplicaOf(After(Then(before, op), u), r).hits, key),
                        MemoryAllowed(Then(before, op), r, key, u), u.limit(key), u.window, op.at)
  {
    if op.replica == r {
      OutcomeMoves(After(before, u), op, key, MemoryAllowed(before, r, key, u), u);
    }
  }

  lemma {:induction false} MemoryBound(run: Trace<Op>, r: nat, key: string, u: Setup, now: real)
    requires u.window > 0.0 && MonotoneUpTo(run, TimeOf, now)
    ensures MemorySound(ReplicaOf(After(run, u), r), MemoryAllowed(run, r, key, u), key, u, now)
  {
    match run
    case Start =>
    case Then(before, op) =>
      var q, past := SlidingWindow.Deque(ReplicaOf(After(before, u), r).hits, key), MemoryAllowed(before, r, key, u);
      var q', all := SlidingWindow.Deque(ReplicaOf(After(run, u), r).hits, key), MemoryAllowed(run, r, key, u);
      MemoryFollows(before, op, r, key, u);
      assert SlidingWindow.Sound(q', all, u.limit(key), u.window, now) by {
        MemoryBound(before, r, key, u, op.at);
        MemoryStep(q, past, q', all, u.limit(key), u.window, op.at, now);
      }
  }

  // ---- Everything together ---------------------------------------------------------------------

  /** Calls for `key` let through at times in [lo, hi), by any replica and either path. */
  function Allowed(run: Trace<Op>, key: string, lo: real, hi: real, u: Setup): nat
    requires u.window > 0.0
  {
    match run
    case Start => 0
    case Then(before, op) =>
      Allowed(before, key, lo, hi, u)
      + if op.RateCheck? && op.key == key && lo <= op.at < hi && Result(before, op, u).answer then 1 else 0
  }

  /** Fallback calls let through by replicas below `n`. */
  function MemoryTotal(run: Trace<Op>, n: nat, key: string, lo: real, hi: real, u: Setup): nat
    requires u.window > 0.0
  {
    if n == 0 then 0
    else MemoryTotal(run, n - 1, key, lo, hi, u) + SlidingWindow.CountFrom(MemoryAllowed(run, n - 1, key, u), lo, hi)
  }

  ghost predicate Below(run: Trace<Op>, replicas: nat) {
    run.Then? ==> run.event.replica < replicas && Below(run.before, replicas)
  }

  lemma CountFromAppend(s: seq<real>, t: real, lo: real, hi: real)
    ensures SlidingWindow.CountFrom(s + [t], lo, hi) == SlidingWindow.CountFrom(s, lo, hi) + if lo <= t < hi then 1 else 0
  {
    assert (s + [t])[..|s|] == s;
  }

  /** One call adds to the fallback total exactly when it was let through from memory inside the interval. */
  lemma {:induction false} MemoryTotalStep(before: Trace<Op>, op: Op, n: nat, key: string, lo: real, hi: real, u: Setup)
    requires u.window > 0.0
    ensures var o := Result(before, op, u);
            MemoryTotal(Then(before, op), n, key, lo, hi, u)
            == MemoryTotal(before, n, key, lo, hi, u)
               + if op.RateCheck? && op.key == key && op.replica < n && lo <= op.at < hi
                    && o.answer && o.source == FromMemory then 1 else 0
  {
    if n > 0 {
      MemoryTotalStep(before, op, n - 1, key, lo, hi, u);
      CountFromAppend(MemoryAllowed(before, n - 1, key, u), op.at, lo, hi);
    }
  }

  lemma {:induction false} EveryCallIsCovered(run: Trace<Op>, replicas: nat, key: string, a: real, u: Setup)
    requires u.window > 0.0 && Below(run, replicas)
    ensures var b := Bucket(a, u.window);
            Allowed(run, key, a, a + u.window, u)
            <= RedisAllowed(run, key, b, u) + RedisAllowed(run, key, b + 1, u)
               + MemoryTotal(run, replicas, key, a, a + u.window, u)
  {
    match run
    case Start =>
    case Then(before, op) =>
      EveryCallIsCovered(before, replicas, key, a, u);
      MemoryTotalStep(before, op, replicas, key, a, a + u.window, u);
      if a <= op.at < a + u.window {
        IntervalMeetsTwoBuckets(a, op.at, u.window);
      }
  }

  /** One replica's fallback memory respects the sliding window. */
  lemma MemoryWindowBound(run: Trace<Op>, r: nat, key: string, a: real, u: Setup, now: real)
    requires u.window > 0.0 && MonotoneUpTo(run, TimeOf, now)
    ensures SlidingWindow.CountFrom(MemoryAllowed(run, r, key, u), a, a + u.window) <= Max(0, u.limit(key))
  {
    var past := MemoryAllowed(run, r, key, u);
    assert SlidingWindow.Sorted(past) && SlidingWindow.Spaced(past, u.limit(key), u.window) by {
      MemoryBound(run, r, key, u, now);
    }
    SlidingWindow.SpacedBounds(past, u.limit(key), u.window, a);
  }

  lemma {:induction false} MemoryTotalBound(run: Trace<Op>, n: nat, key: string, a: real, u: Setup, now: real)
    requires u.window > 0.0 && MonotoneUpTo(run, TimeOf, now)
    ensures MemoryTotal(run, n, key, a, a + u.window, u) <= n * Max(0, u.limit(key))
  {
    if n > 0 {
      MemoryTotalBound(run, n - 1, key, a, u, now);
      MemoryWindowBound(run, n - 1, key, a, u, now);
      OneMore(n - 1, Max(0, u.limit(key)));
    }
  }

  lemma OneMore(n: nat, m: nat)
    ensures (n + 1) * m == n * m + m
  {
  }

  /**
   Whatever the pattern of Redis failures, lost replies and reconnects, any half-open interval one window
   long holds at most (2 + replicas) * limit allowed calls of a key: two aligned Redis windows and one
   sliding window per replica. Without Redis the windows of the replicas are all there is.
   */
  lemma FailoverRateBound(run: Trace<Op>, replicas: nat, key: string, a: real, u: Setup, now: real)
    requires u.window > 0.0 && MonotoneUpTo(run, TimeOf, now) && Below(run, replicas)
    ensures Allowed(run, key, a, a + u.window, u) <= (2 + replicas) * Max(0, u.limit(key))
    ensures !u.configured ==> Allowed(run, key, a, a + u.window, u) <= replicas * Max(0, u.limit(key))
  {
    var b := Bucket(a, u.window);
    EveryCallIsCovered(run, replicas, key, a, u);
    RedisBound(run, key, b, u);
    RedisBound(run, key, b + 1, u);
    MemoryTotalBound(run, replicas, key, a, u, now);
    OneMore(replicas, Max(0, u.limit(key)));
    OneMore(replicas + 1, Max(0, u.limit(key)));
    if !u.configured {
      NothingFromRedis(run, key, b, u);
      NothingFromRedis(run, key, b + 1, u);
    }
  }

  lemma {:induction false} NothingFromRedis(run: Trace<Op>, key: string, bucket: int, u: Setup)
    requires u.window > 0.0 && !u.configured
    ensures RedisAllowed(run, key, bucket, u) == 0
  {
    if run.Then? {
      NothingFromRedis(run.before, key, bucket, u);
    }
  }

  // ---- While Redis answers -----------------------------------------------------------------------

  /** A call on which nothing fails. */
  const FINE := Weather(true, Works, Works)

  /** No replica is in back-off. */
  ghost predicate AllReady(s: State) {
    forall r: nat :: ReadyAt(s, r)
  }

  predicate ReadyAt(s: State, r: nat) {
    ReplicaOf(s, r).connected || ReplicaOf(s, r).nextTry == 0.0
  }

  lemma FineCall(s: State, op: Op, u: Setup)
    requires u.window > 0.0 && u.configured && AllReady(s) && op.weather == FINE && op.at >= 0.0
    ensures Perform(s, op, u).source == FromRedis && Perform(s, op, u).replica.connected
  {
    assert ReadyAt(s, op.replica);
  }

  lemma FineKeepsReady(ops: Trace<Op>, op: Op, u: Setup)
    requires u.window > 0.0 && u.configured && AllReady(After(ops, u))
    requires op.weather == FINE && op.at >= 0.0
    ensures AllReady(After(Then(ops, op), u))
  {
    FineCall(After(ops, u), op, u);
    forall r: nat ensures ReadyAt(After(Then(ops, op), u), r) {
      assert ReadyAt(After(ops, u), r);
    }
  }

  /** Redis answers every call, from the first one on. */
  ghost predicate RedisUp(run: Trace<Op>) {
    run.Then? ==> RedisUp(run.before) && run.event.weather == FINE && run.event.at >= 0.0
  }

  lemma {:induction false} UpMeansReady(run: Trace<Op>, u: Setup)
    requires u.window > 0.0 && u.configured && RedisUp(run)
    ensures AllReady(After(run, u))
  {
    if run.Then? {
      UpMeansReady(run.before, u);
      FineKeepsReady(run.before, run.event, u);
    }
  }

  /** Every call for `key` that was let through was let through by Redis. */
  ghost predicate LetThroughByRedis(run: Trace<Op>, key: string, u: Setup)
    requires u.window > 0.0
  {
    run.Then? ==>
      && LetThroughByRedis(run.before, key, u)
      && (run.event.RateCheck? && run.event.key == key && Result(run.before, run.event, u).answer ==>
            Result(run.before, run.event, u).source == FromRedis)
  }

  lemma {:induction false} RedisCoversAll(run: Trace<Op>, key: string, a: real, u: Setup)
    requires u.window > 0.0 && LetThroughByRedis(run, key, u)
    ensures var b := Bucket(a, u.window);
            Allowed(run, key, a, a + u.window, u) <= RedisAllowed(run, key, b, u) + RedisAllowed(run, key, b + 1, u)
  {
    if run.Then? {
      RedisCoversAll(run.before, key, a, u);
      if a <= run.event.at < a + u.window {
        IntervalMeetsTwoBuckets(a, run.event.at, u.window);
      }
    }
  }

  /** As long as Redis lets every call through, any window holds at most 2 * limit of them, for any number of replicas. */
  lemma RateBoundByRedis(run: Trace<Op>, key: string, a: real, u: Setup)
    requires u.window > 0.0 && LetThroughByRedis(run, key, u)
    ensures Allowed(run, key, a, a + u.window, u) <= 2 * Max(0, u.limit(key))
  {
    RedisCoversAll(run, key, a, u);
    RedisBound(run, key, Bucket(a, u.window), u);
    RedisBound(run, key, Bucket(a, u.window) + 1, u);
  }

  lemma {:induction false} UpMeansByRedis(run: Trace<Op>, key: string, u: Setup)
    requires u.window > 0.0 && u.configured && RedisUp(run)
    ensures LetThroughByRedis(run, key, u)
  {
    if run.Then? {
      UpMeansByRedis(run.before, key, u);
      UpMeansReady(run.before, u);
      FineCall(After(run.before, u), run.event, u);
    }
  }

  /** The deployment as intended: while Redis answers, any window holds at most 2 * limit allowed calls of a key. */
  lemma RateBoundWithRedis(run: Trace<Op>, key: string, a: real, u: Setup)
    requires u.window > 0.0 && u.configured && RedisUp(run)
    ensures Allowed(run, key, a, a + u.window, u) <= 2 * Max(0, u.limit(key))
  {
    UpMeansByRedis(run, key, u);
    RateBoundByRedis(run, key, a, u);
  }

  // ---- Replay protection across the fleet ------------------------------------------------------

  /** Who holds a nonce: the shared Redis, or one replica's own memory. */
  datatype Holder = SharedRedis | MemoryOf(replica: nat)

  function HolderOf(op: Op, o: Outcome): Holder {
    if o.source == FromRedis then SharedRedis else MemoryOf(op.replica)
  }

  /** The nonces that `holder` has answered "new" to, with the times it did. */
  function RecordedBy(run: Trace<Op>, holder: Holder, u: Setup): seq<NonceCache.Entry>
    requires u.window > 0.0
  {
    match run
    case Start => []
    case Then(before, op) =>
      var o, past := Result(before, op, u), RecordedBy(before, holder, u);
      if op.NonceCheck? && !o.answer && HolderOf(op, o) == holder then past + [NonceCache.Entry(op.nonce, op.at)] else past
  }

  lemma SeenNonceUsesMemory(r: Replica, redis: Redis, w: Weather, nonce: string, now: real, u: Setup)
    ensures var o := SeenNonce(r, redis, u.configured, w, nonce, u.ttl, now);
            if o.source == FromRedis then o.replica.nonces == r.nonces
            else o.replica.nonces == NonceCache.Remember(r.nonces, nonce, u.ttl, now)
                 && o.answer == NonceCache.Seen(r.nonces, nonce, u.ttl, now)
  {
  }

  lemma AllowLeavesNonces(r: Replica, redis: Redis, w: Weather, key: string, now: real, u: Setup)
    requires u.window > 0.0
    ensures var o := Allow(r, redis, u.configured, w, key, u.limit(key), u.window, now);
            o.replica.nonces == r.nonces && o.redis.nonces == redis.nonces
  {
  }

  /** One call moves what is watched of replica `r` by one step of the nonce cache, or not at all. */
  lemma CacheFollows(before: Trace<Op>, op: Op, r: nat, u: Setup)
    requires u.window > 0.0
    ensures var cache, past := ReplicaOf(After(before, u), r).nonces, RecordedBy(before, MemoryOf(r), u);
            var cache', all := ReplicaOf(After(Then(before, op), u), r).nonces, RecordedBy(Then(before, op), MemoryOf(r), u);
            || (cache' == cache && all == past)
            || (op.NonceCheck? && cache' == NonceCache.Remember(cache, op.nonce, u.ttl, op.at)
                && all == if NonceCache.Seen(cache, op.nonce, u.ttl, op.at) then past
                          else past + [NonceCache.Entry(op.nonce, op.at)])
  {
    var o := Result(before, op, u);
    if op.replica == r {
      assert ReplicaOf(After(Then(before, op), u), r) == o.replica;
      match op
      case RateCheck(_, w, k, at) => AllowLeavesNonces(ReplicaOf(After(before, u), r), After(before, u).redis, w, k, at, u);
      case NonceCheck(_, w, nonce, at) =>
        SeenNonceUsesMemory(ReplicaOf(After(before, u), r), After(before, u).redis, w, nonce, at, u);
    } else {
      assert ReplicaOf(After(Then(before, op), u), r) == ReplicaOf(After(before, u), r);
    }
  }

  lemma RememberMirrors(cache: seq<NonceCache.Entry>, past: seq<NonceCache.Entry>, e: NonceCache.Entry, ttl: real)
    requires NonceCache.Mirrors(cache, past, ttl, e.at)
    ensures NonceCache.Mirrors(NonceCache.Remember(cache, e.nonce, ttl, e.at),
                               if NonceCache.Seen(cache, e.nonce, ttl, e.at) then past else past + [e], ttl, e.at)
  {
    NonceCache.PurgeMirrors(cache, past, ttl, e.at, e.at);
    if !NonceCache.Seen(cache, e.nonce, ttl, e.at) {
      NonceCache.AppendMirrors(NonceCache.Purge(cache, e.at - ttl), past, e.nonce, ttl, e.at);
    }
  }

  lemma CacheStep(cache: seq<NonceCache.Entry>, past: seq<NonceCache.Entry>, e: NonceCache.Entry, ttl: real, now: real)
    requires NonceCache.Mirrors(cache, past, ttl, e.at) && e.at <= now
    ensures NonceCache.Mirrors(cache, past, ttl, now)
    ensures NonceCache.Mirrors(NonceCache.Remember(cache, e.nonce, ttl, e.at),
                               if NonceCache.Seen(cache, e.nonce, ttl, e.at) then past else past + [e], ttl, now)
  {
    var cache' := NonceCache.Remember(cache, e.nonce, ttl, e.at);
    var all := if NonceCache.Seen(cache, e.nonce, ttl, e.at) then past else past + [e];
    RememberMirrors(cache, past, e, ttl);
    NonceCache.MirrorsLater(cache, past, ttl, e.at, now);
    NonceCache.MirrorsLater(cache', all, ttl, e.at, now);
  }

  lemma {:induction false} CacheMirrors(run: Trace<Op>, r: nat, u: Setup, now: real)
    requires u.window > 0.0 && MonotoneUpTo(run, TimeOf, now)
    ensures NonceCache.Mirrors(ReplicaOf(After(run, u), r).nonces, RecordedBy(run, MemoryOf(r), u), u.ttl, now)
  {
    match run
    case Start =>
    case Then(before, op) =>
      var cache, past := ReplicaOf(After(before, u), r).nonces, RecordedBy(before, MemoryOf(r), u);
      var e := NonceCache.Entry(if op.NonceCheck? then op.nonce else "", op.at);
      CacheFollows(before, op, r, u);
      assert NonceCache.Mirrors(ReplicaOf(After(run, u), r).nonces, RecordedBy(run, MemoryOf(r), u), u.ttl, now) by {
        CacheMirrors(before, r, u, op.at);
        CacheStep(cache, past, e, u.ttl, now);
      }
  }

  /** Redis outlives the time to live of every nonce it has called new. */
  ghost predicate Outlives(redis: Redis, recorded: seq<NonceCache.Entry>, ttl: real) {
    forall e :: e in recorded ==> e.nonce in redis.nonces && e.at + ttl < redis.nonces[e.nonce]
  }

  lemma SeenNonceOutlives(r: Replica, redis: Redis, w: Weather, nonce: string, now: real, u: Setup, recorded: seq<NonceCache.Entry>)
    requires u.ttl >= 0.0 && Outlives(redis, recorded, u.ttl)
    ensures var o := SeenNonce(r, redis, u.configured, w, nonce, u.ttl, now);
            Outlives(o.redis, if !o.answer && o.source == FromRedis then recorded + [NonceCache.Entry(nonce, now)] else recorded,
                     u.ttl)
  {
    assert Lifetime(u.ttl) > u.ttl;
  }

  lemma {:induction false} RedisHolds(run: Trace<Op>, u: Setup)
    requires u.window > 0.0 && u.ttl >= 0.0
    ensures Outlives(After(run, u).redis, RecordedBy(run, SharedRedis, u), u.ttl)
  {
    match run
    case Start =>
    case Then(before, op) =>
      var s := After(before, u);
      RedisHolds(before, u);
      match op
      case RateCheck(r, w, k, at) => AllowLeavesNonces(ReplicaOf(s, r), s.redis, w, k, at, u);
      case NonceCheck(r, w, nonce, at) =>
        SeenNonceOutlives(ReplicaOf(s, r), s.redis, w, nonce, at, u, RecordedBy(before, SharedRedis, u));
  }

  /** A replica's memory is within its capacity: at most 100,000 nonces recorded in the last time to live. */
  ghost predicate WithinCapacity(run: Trace<Op>, holder: Holder, now: real, u: Setup)
    requires u.window > 0.0
  {
    holder.MemoryOf? ==> NonceCache.CountSince(RecordedBy(run, holder, u), now - u.ttl) <= 100_000
  }

  lemma CacheRefuses(cache: seq<NonceCache.Entry>, past: seq<NonceCache.Entry>, e: NonceCache.Entry, ttl: real, now: real)
    requires NonceCache.Mirrors(cache, past, ttl, now)
    requires NonceCache.CountSince(past, now - ttl) <= 100_000
    requires e in past && now - ttl <= e.at
    ensures NonceCache.Seen(cache, e.nonce, ttl, now)
  {
    NonceCache.RecentWithinCapacity(past, e.nonce, ttl, now);
    NonceCache.MirrorSees(cache, past, e.nonce, ttl, now);
  }

  lemma MemoryRefuses(before: Trace<Op>, op: Op, u: Setup, e: NonceCache.Entry)
    requires u.window > 0.0 && op.NonceCheck? && MonotoneUpTo(before, TimeOf, op.at)
    requires Result(before, op, u).source == FromMemory
    requires WithinCapacity(before, MemoryOf(op.replica), op.at, u)
    requires e in RecordedBy(before, MemoryOf(op.replica), u) && e.nonce == op.nonce && op.at - u.ttl <= e.at
    ensures Result(before, op, u).answer
  {
    var rep, past := ReplicaOf(After(before, u), op.replica), RecordedBy(before, MemoryOf(op.replica), u);
    assert NonceCache.Seen(rep.nonces, op.nonce, u.ttl, op.at) by {
      CacheMirrors(before, op.replica, u, op.at);
      CacheRefuses(rep.nonces, past, e, u.ttl, op.at);
    }
    SeenNonceUsesMemory(rep, After(before, u).redis, op.weather, op.nonce, op.at, u);
  }

  lemma RedisRefuses(before: Trace<Op>, op: Op, u: Setup, e: NonceCache.Entry)
    requires u.window > 0.0 && u.ttl >= 0.0 && op.NonceCheck?
    requires Result(before, op, u).source == FromRedis
    requires e in RecordedBy(before, SharedRedis, u) && e.nonce == op.nonce && op.at - u.ttl <= e.at
    ensures Result(before, op, u).answer
  {
    RedisHolds(before, u);
  }

  /**
   No holder calls a nonce new twice within the time to live, whatever fails in between: if this call is
   answered "new", its holder had not recorded the nonce within the last `ttl` seconds.
   */
  lemma NewOncePerHolder(before: Trace<Op>, op: Op, u: Setup, e: NonceCache.Entry)
    requires u.window > 0.0 && u.ttl >= 0.0 && op.NonceCheck? && MonotoneUpTo(before, TimeOf, op.at)
    requires WithinCapacity(before, HolderOf(op, Result(before, op, u)), op.at, u)
    requires !Result(before, op, u).answer
    requires e in RecordedBy(before, HolderOf(op, Result(before, op, u)), u) && e.nonce == op.nonce
    ensures e.at < op.at - u.ttl
  {
    if op.at - u.ttl <= e.at {
      if Result(before, op, u).source == FromRedis {
        RedisRefuses(before, op, u, e);
      } else {
        MemoryRefuses(before, op, u, e);
      }
    }
  }
}
