/**
 The in-process replay cache of gateway/app/ratestore.py: an insertion-ordered table of nonces with a
 time to live and a capacity. The reference is the full list of every nonce ever recorded.
 */
module NonceCache {
  import opened Prelude

  datatype Entry = Entry(nonce: string, at: real)

  const CAPACITY: nat := 100_000

  /** Drop the leading entries that are older than `cutoff`. */
  function Purge(cache: seq<Entry>, cutoff: real): seq<Entry> {
    if |cache| > 0 && cache[0].at < cutoff then Purge(cache[1..], cutoff) else cache
  }

  predicate Holds(cache: seq<Entry>, nonce: string) {
    exists i :: 0 <= i < |cache| && cache[i].nonce == nonce
  }

  predicate Seen(cache: seq<Entry>, nonce: string, ttl: real, now: real) {
    Holds(Purge(cache, now - ttl), nonce)
  }

  function DropOldest(cache: seq<Entry>): seq<Entry> {
    if |cache| > CAPACITY then cache[1..] else cache
  }

  /** The cache after `nonce` has been presented. */
  function Remember(cache: seq<Entry>, nonce: string, ttl: real, now: real): seq<Entry> {
    var live := Purge(cache, now - ttl);
    if Holds(live, nonce) then live else DropOldest(live + [Entry(nonce, now)])
  }

  lemma {:induction false} PurgeDropsPrefix(cache: seq<Entry>, cutoff: real)
    ensures var r := Purge(cache, cutoff);
            && |r| <= |cache| && r == cache[|cache| - |r|..]
            && (|r| > 0 ==> r[0].at >= cutoff)
            && forall i :: 0 <= i < |cache| - |r| ==> cache[i].at < cutoff
  {
    if |cache| > 0 && cache[0].at < cutoff {
      PurgeDropsPrefix(cache[1..], cutoff);
    }
  }

  // ---- Runs ----------------------------------------------------------------------------------

  function TimeOf(e: Entry): real {
    e.at
  }

  function Cache(arrivals: Trace<Entry>, ttl: real): seq<Entry> {
    match arrivals
    case Start => []
    case Then(before, a) => Remember(Cache(before, ttl), a.nonce, ttl, a.at)
  }

  /** Every nonce the cache has answered "new" to, with the time it did. */
  function Recorded(arrivals: Trace<Entry>, ttl: real): seq<Entry> {
    match arrivals
    case Start => []
    case Then(before, a) =>
      var past := Recorded(before, ttl);
      if Seen(Cache(before, ttl), a.nonce, ttl, a.at) then past else past + [a]
  }

  ghost predicate InOrder(recorded: seq<Entry>, last: real) {
    && (forall i, j :: 0 <= i <= j < |recorded| ==> recorded[i].at <= recorded[j].at)
    && (forall i :: 0 <= i < |recorded| ==> recorded[i].at <= last)
  }

  /** The cache is the tail of the record; whatever it lost was too old or pushed out by CAPACITY later ones. */
  ghost predicate Mirrors(cache: seq<Entry>, recorded: seq<Entry>, ttl: real, last: real) {
    && InOrder(recorded, last)
    && |cache| <= CAPACITY
    && |cache| <= |recorded|
    && cache == recorded[|recorded| - |cache|..]
    && (forall i :: 0 <= i < |recorded| - |cache| ==>
          recorded[i].at < last - ttl || i < |recorded| - CAPACITY)
  }

  /** `nonce` is among the last 100,000 recorded ones and was recorded no earlier than `cutoff`. */
  ghost predicate RecentlyRecorded(recorded: seq<Entry>, nonce: string, cutoff: real) {
    exists i :: 0 <= i < |recorded| && |recorded| - 100_000 <= i
                && recorded[i].nonce == nonce && cutoff <= recorded[i].at
  }

  lemma PurgeMirrors(cache: seq<Entry>, recorded: seq<Entry>, ttl: real, last: real, now: real)
    requires Mirrors(cache, recorded, ttl, last) && last <= now
    ensures Mirrors(Purge(cache, now - ttl), recorded, ttl, now)
  {
    PurgeDropsPrefix(cache, now - ttl);
    var live := Purge(cache, now - ttl);
    var dropped := |cache| - |live|;
    assert live == cache[dropped..] == recorded[|recorded| - |live|..];
    forall i | 0 <= i < |recorded| - |live|
      ensures recorded[i].at < now - ttl || i < |recorded| - CAPACITY
    {
      if i >= |recorded| - |cache| {
        assert recorded[i] == cache[i - (|recorded| - |cache|)];
      }
    }
  }

  lemma AppendMirrors(live: seq<Entry>, recorded: seq<Entry>, nonce: string, ttl: real, now: real)
    requires Mirrors(live, recorded, ttl, now)
    ensures Mirrors(DropOldest(live + [Entry(nonce, now)]), recorded + [Entry(nonce, now)], ttl, now)
  {
    var e := Entry(nonce, now);
    var all, next := recorded + [e], DropOldest(live + [e]);
    assert next == all[|all| - |next|..];
    forall i | 0 <= i < |all| - |next| ensures all[i].at < now - ttl || i < |all| - CAPACITY {
      if i < |recorded| - |live| {
        assert all[i] == recorded[i];
      }
    }
  }

  /** After trimming, membership is recency. */
  lemma HoldsWhenRecent(live: seq<Entry>, recorded: seq<Entry>, nonce: string, ttl: real, now: real)
    requires Mirrors(live, recorded, ttl, now)
    requires |live| > 0 ==> live[0].at >= now - ttl
    ensures Holds(live, nonce) <==> RecentlyRecorded(recorded, nonce, now - ttl)
  {
    var gap := |recorded| - |live|;
    if Holds(live, nonce) {
      var i :| 0 <= i < |live| && live[i].nonce == nonce;
      assert recorded[gap + i] == live[i] && recorded[gap] == live[0];
    }
    if RecentlyRecorded(recorded, nonce, now - ttl) {
      var i :| 0 <= i < |recorded| && |recorded| - 100_000 <= i
               && recorded[i].nonce == nonce && now - ttl <= recorded[i].at;
      assert gap <= i;
      assert live[i - gap] == recorded[i];
    }
  }

  lemma {:induction false} RunMirrors(arrivals: Trace<Entry>, ttl: real, now: real)
    requires MonotoneUpTo(arrivals, TimeOf, now)
    ensures Mirrors(Cache(arrivals, ttl), Recorded(arrivals, ttl), ttl, now)
  {
    match arrivals
    case Start =>
    case Then(before, a) =>
      var cache, past := Cache(before, ttl), Recorded(before, ttl);
      RunMirrors(before, ttl, a.at);
      PurgeMirrors(cache, past, ttl, a.at, a.at);
      AppendMirrors(Purge(cache, a.at - ttl), past, a.nonce, ttl, a.at);
      MirrorsLater(Cache(arrivals, ttl), Recorded(arrivals, ttl), ttl, a.at, now);
  }

  lemma MirrorsLater(cache: seq<Entry>, recorded: seq<Entry>, ttl: real, last: real, later: real)
    requires Mirrors(cache, recorded, ttl, last) && last <= later
    ensures Mirrors(cache, recorded, ttl, later)
  {
  }

  lemma MirrorSees(cache: seq<Entry>, recorded: seq<Entry>, nonce: string, ttl: real, now: real)
    requires Mirrors(cache, recorded, ttl, now)
    ensures Seen(cache, nonce, ttl, now) <==> RecentlyRecorded(recorded, nonce, now - ttl)
  {
    PurgeMirrors(cache, recorded, ttl, now, now);
    PurgeDropsPrefix(cache, now - ttl);
    HoldsWhenRecent(Purge(cache, now - ttl), recorded, nonce, ttl, now);
  }

  /**
   Exactly what the cache answers, with no assumption on load: "seen" if and only if the nonce is among
   the last 100,000 recorded ones and was recorded within the time to live.
   */
  lemma SeenExactly(before: Trace<Entry>, nonce: string, ttl: real, now: real)
    requires MonotoneUpTo(before, TimeOf, now)
    ensures Seen(Cache(before, ttl), nonce, ttl, now)
            <==> RecentlyRecorded(Recorded(before, ttl), nonce, now - ttl)
  {
    RunMirrors(before, ttl, now);
    MirrorSees(Cache(before, ttl), Recorded(before, ttl), nonce, ttl, now);
  }

  /** How many nonces were recorded at `cutoff` or later. */
  function CountSince(recorded: seq<Entry>, cutoff: real): nat {
    if recorded == [] then 0
    else CountSince(recorded[1..], cutoff) + if recorded[0].at >= cutoff then 1 else 0
  }

  lemma {:induction false} CountSinceAll(recorded: seq<Entry>, cutoff: real)
    requires forall i :: 0 <= i < |recorded| ==> recorded[i].at >= cutoff
    ensures CountSince(recorded, cutoff) == |recorded|
  {
    if recorded != [] {
      CountSinceAll(recorded[1..], cutoff);
    }
  }

  lemma {:induction false} CountSinceTail(recorded: seq<Entry>, cutoff: real, m: nat)
    requires m <= |recorded|
    ensures CountSince(recorded[m..], cutoff) <= CountSince(recorded, cutoff)
  {
    if m > 0 {
      CountSinceTail(recorded[1..], cutoff, m - 1);
      assert recorded[1..][m - 1..] == recorded[m..];
    } else {
      assert recorded[0..] == recorded;
    }
  }

  ghost predicate RecordedSince(recorded: seq<Entry>, nonce: string, cutoff: real) {
    exists i :: 0 <= i < |recorded| && recorded[i].nonce == nonce && cutoff <= recorded[i].at
  }

  /** With at most 100,000 recordings since the cutoff, none of them has been pushed out. */
  lemma RecentWithinCapacity(recorded: seq<Entry>, nonce: string, ttl: real, now: real)
    requires InOrder(recorded, now)
    requires CountSince(recorded, now - ttl) <= 100_000
    ensures RecentlyRecorded(recorded, nonce, now - ttl) <==> RecordedSince(recorded, nonce, now - ttl)
  {
    forall i | 0 <= i < |recorded| && now - ttl <= recorded[i].at ensures |recorded| - 100_000 <= i {
      CountSinceAll(recorded[i..], now - ttl);
      CountSinceTail(recorded, now - ttl, i);
    }
  }

  /**
   While at most 100,000 fresh nonces arrived within the time to live, the cache answers "seen" exactly
   for the nonces first recorded within it.
   */
  lemma SeenWithinCapacity(before: Trace<Entry>, nonce: string, ttl: real, now: real)
    requires MonotoneUpTo(before, TimeOf, now)
    requires CountSince(Recorded(before, ttl), now - ttl) <= 100_000
    ensures Seen(Cache(before, ttl), nonce, ttl, now) <==> RecordedSince(Recorded(before, ttl), nonce, now - ttl)
  {
    SeenExactly(before, nonce, ttl, now);
    RunMirrors(before, ttl, now);
    RecentWithinCapacity(Recorded(before, ttl), nonce, ttl, now);
  }

  /** An ordered dictionary holds each key once. */
  ghost predicate HeldOnce(cache: seq<Entry>) {
    forall i, j :: 0 <= i < j < |cache| ==> cache[i].nonce != cache[j].nonce
  }

  lemma RememberDistinct(cache: seq<Entry>, nonce: string, ttl: real, now: real)
    requires HeldOnce(cache)
    ensures HeldOnce(Remember(cache, nonce, ttl, now))
  {
    PurgeDropsPrefix(cache, now - ttl);
  }

  /** Whatever the clock does, the cache keeps to its capacity and holds no nonce twice. */
  lemma {:induction false} CacheWellFormed(arrivals: Trace<Entry>, ttl: real)
    ensures |Cache(arrivals, ttl)| <= 100_000 && HeldOnce(Cache(arrivals, ttl))
  {
    match arrivals
    case Start =>
    case Then(before, a) =>
      CacheWellFormed(before, ttl);
      PurgeDropsPrefix(Cache(before, ttl), a.at - ttl);
      RememberDistinct(Cache(before, ttl), a.nonce, ttl, a.at);
  }

  lemma RememberDrawn(cache: seq<Entry>, recorded: seq<Entry>, a: Entry, ttl: real)
    requires forall i :: 0 <= i < |cache| ==> cache[i] in recorded
    ensures forall i :: 0 <= i < |Remember(cache, a.nonce, ttl, a.at)| ==>
              Remember(cache, a.nonce, ttl, a.at)[i] in recorded + [a]
  {
    PurgeDropsPrefix(cache, a.at - ttl);
  }

  lemma {:induction false} RunDrawn(arrivals: Trace<Entry>, ttl: real)
    ensures forall i :: 0 <= i < |Cache(arrivals, ttl)| ==> Cache(arrivals, ttl)[i] in Recorded(arrivals, ttl)
  {
    match arrivals
    case Start =>
    case Then(before, a) =>
      RunDrawn(before, ttl);
      RememberDrawn(Cache(before, ttl), Recorded(before, ttl), a, ttl);
      PurgeDropsPrefix(Cache(before, ttl), a.at - ttl);
  }

  lemma SeenDrawn(cache: seq<Entry>, recorded: seq<Entry>, nonce: string, ttl: real, now: real)
    requires forall i :: 0 <= i < |cache| ==> cache[i] in recorded
    requires Seen(cache, nonce, ttl, now)
    ensures Holds(recorded, nonce)
  {
    PurgeDropsPrefix(cache, now - ttl);
    var live := Purge(cache, now - ttl);
    var i :| 0 <= i < |live| && live[i].nonce == nonce;
    assert live[i] == cache[|cache| - |live| + i];
  }

  /** Whatever the clock does, no nonce is reported seen that was never recorded. */
  lemma NeverFalseAlarm(before: Trace<Entry>, nonce: string, ttl: real, now: real)
    requires Seen(Cache(before, ttl), nonce, ttl, now)
    ensures Holds(Recorded(before, ttl), nonce)
  {
    RunDrawn(before, ttl);
    SeenDrawn(Cache(before, ttl), Recorded(before, ttl), nonce, ttl, now);
  }
}
