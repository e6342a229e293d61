/**
 The Redis-first store of gateway/app/ratestore.py: one call of `allow` or `seen_nonce` by one gateway
 replica, with its lazy reconnect, its five-second back-off and its in-process fallback. Redis may refuse
 connections and lose replies at any moment, but it keeps every key until the key expires.
 */
module SharedStore {
  import opened Prelude
  import SlidingWindow
  import NonceCache

  /** A rate-limit counter in Redis; a counter whose EXPIRE never arrived has no expiry. */
  datatype Counter = Counter(count: nat, expiry: Option<real>)

  datatype Redis = Redis(counters: map<(string, int), Counter>, nonces: map<string, real>)

  /** One replica: its fallback memory, whether it holds a connection, and when it may try again. */
  datatype Replica = Replica(hits: map<string, seq<real>>, nonces: seq<NonceCache.Entry>, connected: bool, nextTry: real)

  /** What becomes of one command: it works, or it raises before or after the server has applied it. */
  datatype Reply = Works | LostBefore | LostAfter

  /** What the network does to one call: the reconnect ping, the main command, and the EXPIRE after a first INCR. */
  datatype Weather = Weather(ping: bool, command: Reply, expire: Reply)

  datatype Source = FromRedis | FromMemory

  const BACKOFF: real := 5.0

  // ---- Connection ----------------------------------------------------------------------------

  /** Whether a call made now gets a client: an open one, or a new one when the back-off is over. */
  predicate GetsClient(r: Replica, configured: bool, w: Weather, now: real) {
    configured && (r.connected || (r.nextTry <= now && w.ping))
  }

  /** The replica after it has asked for a client. */
  function Connect(r: Replica, configured: bool, w: Weather, now: real): Replica {
    if !configured || r.connected || now < r.nextTry then r
    else if w.ping then r.(connected := true)
    else r.(nextTry := now + BACKOFF)
  }

  function Drop(r: Replica, now: real): Replica {
    r.(connected := false, nextTry := now + BACKOFF)
  }

  // ---- Redis commands ------------------------------------------------------------------------

  predicate Live(c: Counter, now: real) {
    c.expiry == None || now < c.expiry.value
  }

  /** INCR: a missing or expired counter starts again from nothing. */
  function Bumped(redis: Redis, k: (string, int), now: real): Counter {
    if k in redis.counters && Live(redis.counters[k], now)
    then redis.counters[k].(count := redis.counters[k].count + 1)
    else Counter(1, None)
  }

  /** SET NX finds the key already there. */
  predicate Held(redis: Redis, nonce: string, now: real) {
    nonce in redis.nonces && now < redis.nonces[nonce]
  }

  /** Index of the aligned window that contains `now`. */
  function Bucket(now: real, window: real): int
    requires window > 0.0
  {
    (now / window).Floor
  }

  /** Redis lifetimes are whole seconds, rounded so that they outlast the real-valued span. */
  function Lifetime(span: real): real {
    (span.Floor + 1) as real
  }

  // ---- One call ------------------------------------------------------------------------------

  /** How one call ended: the new replica, the new Redis, the answer, and who gave it. */
  datatype Outcome = Outcome(replica: Replica, redis: Redis, answer: bool, source: Source)

  function MemoryAllow(r: Replica, redis: Redis, key: string, limit: int, window: real, now: real): Outcome {
    var q := SlidingWindow.Deque(r.hits, key);
    Outcome(r.(hits := r.hits[key := SlidingWindow.Admit(q, limit, window, now)]), redis,
            SlidingWindow.HasRoom(q, limit, window, now), FromMemory)
  }

  /** `Store.allow`. */
  function Allow(r: Replica, redis: Redis, configured: bool, w: Weather,
                 key: string, limit: int, window: real, now: real): Outcome
    requires window > 0.0
  {
    var r1 := Connect(r, configured, w, now);
    if !GetsClient(r, configured, w, now) then MemoryAllow(r1, redis, key, limit, window, now)
    else
      var k := (key, Bucket(now, window));
      var n := Bumped(redis, k, now);
      var counted := redis.(counters := redis.counters[k := n]);
      var timed := redis.(counters := redis.counters[k := n.(expiry := Some(now + Lifetime(window)))]);
      match w.command
      case LostBefore => MemoryAllow(Drop(r1, now), redis, key, limit, window, now)
      case LostAfter => MemoryAllow(Drop(r1, now), counted, key, limit, window, now)
      case Works =>
        if n.count != 1 then Outcome(r1, counted, n.count <= limit, FromRedis)
        else
          match w.expire
          case Works => Outcome(r1, timed, n.count <= limit, FromRedis)
          case LostBefore => MemoryAllow(Drop(r1, now), counted, key, limit, window, now)
          case LostAfter => MemoryAllow(Drop(r1, now), timed, key, limit, window, now)
  }

  function MemorySeen(r: Replica, redis: Redis, nonce: string, ttl: real, now: real): Outcome {
    Outcome(r.(nonces := NonceCache.Remember(r.nonces, nonce, ttl, now)), redis,
            NonceCache.Seen(r.nonces, nonce, ttl, now), FromMemory)
  }

  /** `Store.seen_nonce`. */
  function SeenNonce(r: Replica, redis: Redis, configured: bool, w: Weather, nonce: string, ttl: real, now: real): Outcome {
    var r1 := Connect(r, configured, w, now);
    if !GetsClient(r, configured, w, now) then MemorySeen(r1, redis, nonce, ttl, now)
    else
      var kept := if Held(redis, nonce, now) then redis
                  else redis.(nonces := redis.nonces[nonce := now + Lifetime(ttl)]);
      match w.command
      case Works => Outcome(r1, kept, Held(redis, nonce, now), FromRedis)
      case LostBefore => MemorySeen(Drop(r1, now), redis, nonce, ttl, now)
      case LostAfter => MemorySeen(Drop(r1, now), kept, nonce, ttl, now)
  }
}
