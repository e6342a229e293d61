/**
 The failover rate bound is exact: for every fleet, every window and every positive limit there is a run that lets
 (2 + replicas) * limit calls through within one window.
 */
module FleetWitness {
  import opened Prelude
  import opened SharedStore
  import opened Fleet
  import SlidingWindow

  /** The same call made `n` times. */
  function Burst(run: Trace<Op>, n: nat, op: Op): Trace<Op> {
    if n == 0 then run else Then(Burst(run, n - 1, op), op)
  }

  /** No reconnect, and an open connection breaks before the command arrives. */
  const CUT := Weather(false, LostBefore, Works)

  lemma {:induction false} BurstInOrder(run: Trace<Op>, n: nat, op: Op, replicas: nat, last: real)
    requires MonotoneUpTo(run, TimeOf, last) && last <= op.at && Below(run, replicas) && op.replica < replicas
    ensures MonotoneUpTo(Burst(run, n, op), TimeOf, op.at) && Below(Burst(run, n, op), replicas)
  {
    if n == 0 {
      MonotoneLater(run, TimeOf, last, op.at);
    } else {
      BurstInOrder(run, n - 1, op, replicas, last);
    }
  }

  // ---- Through Redis -----------------------------------------------------------------------------------

  /** Replica 0 has, or can have, a client. */
  ghost predicate Ready(s: State, now: real) {
    ReplicaOf(s, 0).connected || ReplicaOf(s, 0).nextTry <= now
  }

  function HitsOf(s: State, r: nat, key: string): seq<real> {
    SlidingWindow.Deque(ReplicaOf(s, r).hits, key)
  }

  /** No replica has let a call for `key` through from memory. */
  ghost predicate NoHits(s: State, key: string) {
    forall r: nat :: HitsOf(s, r, key) == []
  }

  /** Redis has counted `n` calls for `key` in bucket `b`, and nothing in later buckets. */
  ghost predicate CountedSoFar(redis: Redis, key: string, b: int, n: nat, now: real) {
    && (n == 0 ==> (key, b) !in redis.counters)
    && (n > 0 ==> (key, b) in redis.counters && redis.counters[(key, b)].count == n && Live(redis.counters[(key, b)], now))
    && (key, b + 1) !in redis.counters
  }

  lemma OneThroughRedis(s: State, key: string, n: nat, at: real, u: Setup)
    requires u.configured && u.window > 0.0 && n < u.limit(key)
    requires Ready(s, at) && NoHits(s, key) && CountedSoFar(s.redis, key, Bucket(at, u.window), n, at)
    ensures var o := Perform(s, RateCheck(0, FINE, key, at), u);
            && o.answer && o.replica.connected && o.replica.hits == ReplicaOf(s, 0).hits
            && CountedSoFar(o.redis, key, Bucket(at, u.window), n + 1, at)
  {
    assert Lifetime(u.window) > u.window;
  }

  /** The burst leaves Redis and replica 0 like this. */
  ghost predicate RedisHolds(s: State, key: string, b: int, n: nat, now: real) {
    Ready(s, now) && NoHits(s, key) && CountedSoFar(s.redis, key, b, n, now)
  }

  lemma RedisHoldsNext(s: State, s': State, key: string, n: nat, at: real, u: Setup)
    requires u.configured && u.window > 0.0 && n < u.limit(key) && RedisHolds(s, key, Bucket(at, u.window), n, at)
    requires var o := Perform(s, RateCheck(0, FINE, key, at), u); s' == State(s.replicas[0 := o.replica], o.redis)
    ensures RedisHolds(s', key, Bucket(at, u.window), n + 1, at)
  {
    OneThroughRedis(s, key, n, at, u);
    forall r: nat ensures HitsOf(s', r, key) == [] {
      assert HitsOf(s, r, key) == [];
    }
  }

  lemma {:induction false} BurstThroughRedis(run: Trace<Op>, n: nat, key: string, lo: real, hi: real, at: real, u: Setup)
    requires u.configured && u.window > 0.0 && n <= u.limit(key) && lo <= at < hi
    requires RedisHolds(After(run, u), key, Bucket(at, u.window), 0, at)
    ensures var all := Burst(run, n, RateCheck(0, FINE, key, at));
            && RedisHolds(After(all, u), key, Bucket(at, u.window), n, at)
            && Allowed(all, key, lo, hi, u) == Allowed(run, key, lo, hi, u) + n
  {
    if n > 0 {
      BurstThroughRedis(run, n - 1, key, lo, hi, at, u);
      var before := Burst(run, n - 1, RateCheck(0, FINE, key, at));
      OneThroughRedis(After(before, u), key, n - 1, at, u);
      RedisHoldsNext(After(before, u), After(Then(before, RateCheck(0, FINE, key, at)), u), key, n - 1, at, u);
    }
  }

  // ---- From memory ---------------------------------------------------------------------------------------

  lemma {:induction false} ExpireKeepsNow(q: seq<real>, at: real, window: real)
    requires window > 0.0 && forall i :: 0 <= i < |q| ==> q[i] == at
    ensures SlidingWindow.Expire(q, at - window) == q
  {
    assert |q| > 0 ==> q[0] > at - window;
  }

  /** All of `q` is calls made at `at`. */
  ghost predicate Just(q: seq<real>, n: nat, at: real) {
    |q| == n && forall i :: 0 <= i < n ==> q[i] == at
  }

  lemma OneFromMemory(s: State, r: nat, key: string, n: nat, at: real, u: Setup)
    requires u.window > 0.0 && n < u.limit(key) && Just(HitsOf(s, r, key), n, at)
    ensures var o := Perform(s, RateCheck(r, CUT, key, at), u);
            o.answer && Just(SlidingWindow.Deque(o.replica.hits, key), n + 1, at)
  {
    var rep := ReplicaOf(s, r);
    AllowUsesMemory(rep, s.redis, CUT, key, at, u);
    ExpireKeepsNow(SlidingWindow.Deque(rep.hits, key), at, u.window);
  }

  /** The replicas from `r` on have let nothing through from memory. */
  ghost predicate NoHitsFrom(s: State, r: nat, key: string) {
    forall k: nat :: r <= k ==> HitsOf(s, k, key) == []
  }

  lemma {:induction false} BurstFromMemory(run: Trace<Op>, n: nat, r: nat, key: string, lo: real, hi: real, at: real, u: Setup)
    requires u.window > 0.0 && n <= u.limit(key) && lo <= at < hi && NoHitsFrom(After(run, u), r, key)
    ensures var all := Burst(run, n, RateCheck(r, CUT, key, at));
            && Just(HitsOf(After(all, u), r, key), n, at)
            && NoHitsFrom(After(all, u), r + 1, key)
            && Allowed(all, key, lo, hi, u) == Allowed(run, key, lo, hi, u) + n
  {
    if n > 0 {
      BurstFromMemory(run, n - 1, r, key, lo, hi, at, u);
      var s := After(Burst(run, n - 1, RateCheck(r, CUT, key, at)), u);
      OneFromMemory(s, r, key, n - 1, at, u);
      assert Just(HitsOf(After(Burst(run, n, RateCheck(r, CUT, key, at)), u), r, key), n, at);
      forall k: nat | r < k ensures HitsOf(After(Burst(run, n, RateCheck(r, CUT, key, at)), u), k, key) == [] {
        assert HitsOf(s, k, key) == [];
      }
    }
  }

  /** Every replica below `n` in turn, cut off from Redis. */
  function CutOff(run: Trace<Op>, n: nat, key: string, at: real, u: Setup): Trace<Op>
    requires u.limit(key) >= 0
  {
    if n == 0 then run else Burst(CutOff(run, n - 1, key, at, u), u.limit(key), RateCheck(n - 1, CUT, key, at))
  }

  lemma {:induction false} CutOffAllows(run: Trace<Op>, n: nat, key: string, lo: real, hi: real, at: real, u: Setup, replicas: nat)
    requires u.window > 0.0 && u.limit(key) >= 0 && lo <= at < hi && NoHitsFrom(After(run, u), 0, key)
    requires MonotoneUpTo(run, TimeOf, at) && Below(run, replicas) && n <= replicas
    ensures var all := CutOff(run, n, key, at, u);
            && NoHitsFrom(After(all, u), n, key) && MonotoneUpTo(all, TimeOf, at) && Below(all, replicas)
            && Allowed(all, key, lo, hi, u) == Allowed(run, key, lo, hi, u) + n * u.limit(key)
  {
    if n > 0 {
      var before := CutOff(run, n - 1, key, at, u);
      CutOffAllows(run, n - 1, key, lo, hi, at, u, replicas);
      BurstInOrder(before, u.limit(key), RateCheck(n - 1, CUT, key, at), replicas, at);
      BurstFromMemory(before, u.limit(key), n - 1, key, lo, hi, at, u);
      assert Allowed(CutOff(run, n, key, at, u), key, lo, hi, u) == Allowed(run, key, lo, hi, u) + n * u.limit(key) by {
        OneMore(n - 1, u.limit(key));
      }
    }
  }

  // ---- Together ------------------------------------------------------------------------------------------

  lemma TwoBuckets(window: real)
    requires window > 0.0
    ensures Bucket(window / 2.0, window) == 0 && Bucket(window, window) == 1
  {
    assert window / window == 1.0 && window / 2.0 / window == 0.5;
  }

  /** A full burst in one bucket and another in the next. */
  function RedisPart(key: string, n: nat, early: real, late: real): Trace<Op> {
    Burst(Burst(Start, n, RateCheck(0, FINE, key, early)), n, RateCheck(0, FINE, key, late))
  }

  lemma NextBucketUntouched(key: string, n: nat, early: real, late: real, u: Setup)
    requires u.configured && u.window > 0.0 && n <= u.limit(key) && 0.0 <= early < late
    requires Bucket(late, u.window) == Bucket(early, u.window) + 1
    requires RedisHolds(After(Burst(Start, n, RateCheck(0, FINE, key, early)), u), key, Bucket(early, u.window), n, early)
    ensures RedisHolds(After(Burst(Start, n, RateCheck(0, FINE, key, early)), u), key, Bucket(late, u.window), 0, late)
  {
    BurstStaysBelow(Start, n, key, early, u, Bucket(late, u.window));
    BurstStaysBelow(Start, n, key, early, u, Bucket(late, u.window) + 1);
  }

  lemma RedisPartAllows(key: string, n: nat, early: real, late: real, hi: real, u: Setup)
    requires u.configured && u.window > 0.0 && n <= u.limit(key) && 0.0 <= early < late < hi
    requires Bucket(late, u.window) == Bucket(early, u.window) + 1
    ensures Allowed(RedisPart(key, n, early, late), key, early, hi, u) == 2 * n
    ensures NoHits(After(RedisPart(key, n, early, late), u), key)
  {
    assert RedisHolds(After(Start, u), key, Bucket(early, u.window), 0, early);
    BurstThroughRedis(Start, n, key, early, hi, early, u);
    NextBucketUntouched(key, n, early, late, u);
    BurstThroughRedis(Burst(Start, n, RateCheck(0, FINE, key, early)), n, key, early, hi, late, u);
  }

  lemma RedisPartInOrder(key: string, n: nat, early: real, late: real, replicas: nat)
    requires early < late && replicas > 0
    ensures MonotoneUpTo(RedisPart(key, n, early, late), TimeOf, late) && Below(RedisPart(key, n, early, late), replicas)
  {
    BurstInOrder(Start, n, RateCheck(0, FINE, key, early), replicas, early);
    BurstInOrder(Burst(Start, n, RateCheck(0, FINE, key, early)), n, RateCheck(0, FINE, key, late), replicas, early);
  }

  /** A burst touches no bucket but its own. */
  lemma {:induction false} BurstStaysBelow(run: Trace<Op>, n: nat, key: string, at: real, u: Setup, b: int)
    requires u.window > 0.0 && b != Bucket(at, u.window) && (key, b) !in After(run, u).redis.counters
    ensures (key, b) !in After(Burst(run, n, RateCheck(0, FINE, key, at)), u).redis.counters
  {
    if n > 0 {
      BurstStaysBelow(run, n - 1, key, at, u, b);
    }
  }

  lemma ThreeParts(n: nat, replicas: nat)
    ensures 2 * n + replicas * n == (2 + replicas) * n
  {
  }

  /** Adding the cut-off replicas to a run that has used up two Redis buckets. */
  lemma AddCutOff(redis: Trace<Op>, replicas: nat, key: string, lo: real, hi: real, at: real, u: Setup)
    requires u.window > 0.0 && u.limit(key) >= 0 && lo <= at < hi && NoHits(After(redis, u), key)
    requires MonotoneUpTo(redis, TimeOf, at) && Below(redis, replicas)
    requires Allowed(redis, key, lo, hi, u) == 2 * u.limit(key)
    ensures var run := CutOff(redis, replicas, key, at, u);
            && MonotoneUpTo(run, TimeOf, at) && Below(run, replicas)
            && Allowed(run, key, lo, hi, u) == (2 + replicas) * u.limit(key)
  {
    CutOffAllows(redis, replicas, key, lo, hi, at, u, replicas);
    ThreeParts(u.limit(key), replicas);
  }

  /** Every fleet with Redis reaches the failover bound, for every positive limit and every window. */
  lemma RateBoundIsReached(key: string, u: Setup, replicas: nat) returns (run: Trace<Op>, a: real, now: real)
    requires u.configured && u.window > 0.0 && u.limit(key) > 0 && replicas > 0
    ensures MonotoneUpTo(run, TimeOf, now) && Below(run, replicas)
    ensures Allowed(run, key, a, a + u.window, u) == (2 + replicas) * u.limit(key)
  {
    a, now := u.window / 2.0, u.window;
    var redis := RedisPart(key, u.limit(key), a, now);
    run := CutOff(redis, replicas, key, now, u);
    assert Allowed(redis, key, a, a + u.window, u) == 2 * u.limit(key) && NoHits(After(redis, u), key) by {
      TwoBuckets(u.window);
      RedisPartAllows(key, u.limit(key), a, now, a + u.window, u);
    }
    assert MonotoneUpTo(redis, TimeOf, now) && Below(redis, replicas) by {
      RedisPartInOrder(key, u.limit(key), a, now, replicas);
    }
    AddCutOff(redis, replicas, key, a, a + u.window, now, u);
  }

  /** Without Redis the bound is replicas * limit, and every fleet reaches it. */
  lemma RateBoundWithoutRedis(key: string, u: Setup, replicas: nat) returns (run: Trace<Op>, a: real, now: real)
    requires !u.configured && u.window > 0.0 && u.limit(key) > 0
    ensures MonotoneUpTo(run, TimeOf, now) && Below(run, replicas)
    ensures Allowed(run, key, a, a + u.window, u) == replicas * u.limit(key)
  {
    a, now := 0.0, 0.0;
    run := CutOff(Start, replicas, key, now, u);
    CutOffAllows(Start, replicas, key, a, a + u.window, now, u, replicas);
  }

  lemma {:induction false} BurstIsFine(run: Trace<Op>, n: nat, op: Op)
    requires RedisUp(run) && op.weather == FINE && op.at >= 0.0
    ensures RedisUp(Burst(run, n, op))
  {
    if n > 0 {
      BurstIsFine(run, n - 1, op);
    }
  }

  /** While Redis answers every call, twice the limit is still reached: once at the end of a bucket, once at the start of the next. */
  lemma TwiceLimitIsReached(key: string, u: Setup) returns (run: Trace<Op>, a: real)
    requires u.configured && u.window > 0.0 && u.limit(key) > 0
    ensures RedisUp(run) && MonotoneUpTo(run, TimeOf, u.window)
    ensures Allowed(run, key, a, a + u.window, u) == 2 * u.limit(key)
  {
    a := u.window / 2.0;
    run := RedisPart(key, u.limit(key), a, u.window);
    TwoBuckets(u.window);
    RedisPartAllows(key, u.limit(key), a, u.window, a + u.window, u);
    RedisPartInOrder(key, u.limit(key), a, u.window, 1);
    BurstIsFine(Start, u.limit(key), RateCheck(0, FINE, key, a));
    BurstIsFine(Burst(Start, u.limit(key), RateCheck(0, FINE, key, a)), u.limit(key), RateCheck(0, FINE, key, u.window));
  }
}
