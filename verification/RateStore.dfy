/**
 The store of gateway/app/ratestore.py as the objects it is made of: the in-process `Memory`, the shared
 Redis server as the store sees it, and the Redis-first `Store`. Every method is proved to take exactly
 the step that SlidingWindow, NonceCache and SharedStore reason about.
 */
module RateStore {
  import opened Prelude
  import opened SharedStore
  import SlidingWindow
  import NonceCache

  class Memory {
    var hits: map<string, seq<real>>
    var nonces: seq<NonceCache.Entry>

    constructor ()
      ensures hits == map[] && nonces == []
    {
      hits, nonces := map[], [];
    }

    /** `_Memory.allow` */
    method Allow(key: string, limit: int, window: real, now: real) returns (ok: bool)
      modifies this
      ensures hits == old(hits)[key := SlidingWindow.Admit(SlidingWindow.Deque(old(hits), key), limit, window, now)]
      ensures ok == SlidingWindow.HasRoom(SlidingWindow.Deque(old(hits), key), limit, window, now)
      ensures nonces == old(nonces)
    {
      if key !in hits {
        hits := hits[key := []];
      }
      while |hits[key]| > 0 && hits[key][0] <= now - window
        invariant key in hits && hits == old(hits)[key := hits[key]] && nonces == old(nonces)
        invariant SlidingWindow.Expire(hits[key], now - window)
               == SlidingWindow.Expire(SlidingWindow.Deque(old(hits), key), now - window)
        decreases |hits[key]|
      {
        hits := hits[key := hits[key][1..]];
      }
      if |hits[key]| >= limit {
        return false;
      }
      hits := hits[key := hits[key] + [now]];
      return true;
    }

    /** `_Memory.seen_nonce` */
    method SeenNonce(nonce: string, ttl: real, now: real) returns (seen: bool)
      modifies this
      ensures nonces == NonceCache.Remember(old(nonces), nonce, ttl, now)
      ensures seen == NonceCache.Seen(old(nonces), nonce, ttl, now)
      ensures hits == old(hits)
    {
      while |nonces| > 0 && nonces[0].at < now - ttl
        invariant hits == old(hits)
        invariant NonceCache.Purge(nonces, now - ttl) == NonceCache.Purge(old(nonces), now - ttl)
        decreases |nonces|
      {
        nonces := nonces[1..];
      }
      if NonceCache.Holds(nonces, nonce) {
        return true;
      }
      nonces := nonces + [NonceCache.Entry(nonce, now)];
      if |nonces| > NonceCache.CAPACITY {
        nonces := nonces[1..];
      }
      return false;
    }
  }

  /** Redis as its clients see it. A command returns None when the client library raises. */
  class RedisServer {
    var counters: map<(string, int), Counter>
    var nonces: map<string, real>

    function View(): Redis
      reads this
    {
      Redis(counters, nonces)
    }

    method Incr(k: (string, int), reply: Reply, now: real) returns (n: Option<nat>)
      modifies this
      ensures nonces == old(nonces)
      ensures counters == if reply == LostBefore then old(counters) else old(counters)[k := Bumped(old(View()), k, now)]
      ensures n == if reply == Works then Some(Bumped(old(View()), k, now).count) else None
    {
      var c := Bumped(View(), k, now);
      if reply != LostBefore {
        counters := counters[k := c];
      }
      n := if reply == Works then Some(c.count) else None;
    }

    method Expire(k: (string, int), lifetime: real, reply: Reply, now: real) returns (ok: bool)
      requires k in counters
      modifies this
      ensures nonces == old(nonces)
      ensures counters == if reply == LostBefore then old(counters)
                          else old(counters)[k := old(counters)[k].(expiry := Some(now + lifetime))]
      ensures ok == reply.Works?
    {
      if reply != LostBefore {
        counters := counters[k := counters[k].(expiry := Some(now + lifetime))];
      }
      ok := reply.Works?;
    }

    /** SET NX EX: Some(true) when the key was set, Some(false) when it was already held. */
    method SetIfAbsent(nonce: string, lifetime: real, reply: Reply, now: real) returns (set_: Option<bool>)
      modifies this
      ensures counters == old(counters)
      ensures nonces == if reply == LostBefore || Held(old(View()), nonce, now) then old(nonces)
                        else old(nonces)[nonce := now + lifetime]
      ensures set_ == if reply == Works then Some(!Held(old(View()), nonce, now)) else None
    {
      var held := Held(View(), nonce, now);
      if reply != LostBefore && !held {
        nonces := nonces[nonce := now + lifetime];
      }
      set_ := if reply == Works then Some(!held) else None;
    }
  }

  class Store {
    const configured: bool
    const mem: Memory
    var client: bool
    var nextTry: real

    constructor (configured: bool)
      ensures this.configured == configured && fresh(mem)
      ensures View() == Replica(map[], [], false, 0.0)
    {
      this.configured := configured;
      mem := new Memory();
      client, nextTry := false, 0.0;
    }

    function View(): Replica
      reads this, mem
    {
      Replica(mem.hits, mem.nonces, client, nextTry)
    }

    /** `Store._redis`: true when a client is available. */
    method GetRedis(w: Weather, now: real) returns (available: bool)
      modifies this
      ensures available == GetsClient(old(View()), configured, w, now)
      ensures View() == Connect(old(View()), configured, w, now)
    {
      if !configured {
        return false;
      }
      if client {
        return true;
      }
      if now < nextTry {
        return false;
      }
      if w.ping {
        client := true;
        return true;
      }
      nextTry := now + BACKOFF;
      return false;
    }

    method DropClient(now: real)
      modifies this
      ensures View() == Drop(old(View()), now)
    {
      client := false;
      nextTry := now + BACKOFF;
    }

    /** `Store.allow` */
    method Allow(server: RedisServer, w: Weather, key: string, limit: int, window: real, now: real) returns (ok: bool)
      requires window > 0.0
      modifies this, mem, server
      ensures var o := SharedStore.Allow(old(View()), old(server.View()), configured, w, key, limit, window, now);
              ok == o.answer && View() == o.replica && server.View() == o.redis
    {
      var available := GetRedis(w, now);
      if !available {
        ok := mem.Allow(key, limit, window, now);
        return;
      }
      var k := (key, Bucket(now, window));
      var n := server.Incr(k, w.command, now);
      if n.Some? {
        var timed := true;
        if n.value == 1 {
          timed := server.Expire(k, Lifetime(window), w.expire, now);
        }
        if timed {
          return n.value <= limit;
        }
      }
      DropClient(now);
      ok := mem.Allow(key, limit, window, now);
    }

    /** `Store.seen_nonce` */
    method SeenNonce(server: RedisServer, w: Weather, nonce: string, ttl: real, now: real) returns (seen: bool)
      modifies this, mem, server
      ensures var o := SharedStore.SeenNonce(old(View()), old(server.View()), configured, w, nonce, ttl, now);
              seen == o.answer && View() == o.replica && server.View() == o.redis
    {
      var available := GetRedis(w, now);
      if !available {
        seen := mem.SeenNonce(nonce, ttl, now);
        return;
      }
      var fresh_ := server.SetIfAbsent(nonce, Lifetime(ttl), w.command, now);
      if fresh_.Some? {
        return !fresh_.value;
      }
      DropClient(now);
      seen := mem.SeenNonce(nonce, ttl, now);
    }
  }
}
