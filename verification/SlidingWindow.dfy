/**
 The in-process rate limiter of gateway/app/ratestore.py: one deque of timestamps per key, trimmed
 from the front and appended at the back. This module gives the deque semantics, a brute-force
 reference limiter that keeps the whole history, and the proof that the two agree on every run.
 */
module SlidingWindow {
  import opened Prelude

  /** Drop the leading timestamps that have left the window. */
  function Expire(q: seq<real>, cutoff: real): seq<real> {
    if |q| > 0 && q[0] <= cutoff then Expire(q[1..], cutoff) else q
  }

  lemma {:induction false} ExpireDropsPrefix(q: seq<real>, cutoff: real)
    ensures var r := Expire(q, cutoff);
            && |r| <= |q| && r == q[|q| - |r|..]
            && (|r| > 0 ==> r[0] > cutoff)
            && forall i :: 0 <= i < |q| - |r| ==> q[i] <= cutoff
  {
    if |q| > 0 && q[0] <= cutoff {
      ExpireDropsPrefix(q[1..], cutoff);
    }
  }

  /** Whether a trimmed deque has room for one more call. */
  predicate HasRoom(q: seq<real>, limit: int, window: real, now: real) {
    |Expire(q, now - window)| < limit
  }

  /** The deque after one call. */
  function Admit(q: seq<real>, limit: int, window: real, now: real): seq<real> {
    var kept := Expire(q, now - window);
    if |kept| < limit then kept + [now] else kept
  }

  /** How many elements lie in the half-open interval (lo, hi]. */
  function CountAfter(s: seq<real>, lo: real, hi: real): nat {
    if s == [] then 0
    else CountAfter(s[..|s| - 1], lo, hi) + if lo < s[|s| - 1] <= hi then 1 else 0
  }

  /** How many elements lie in the half-open interval [lo, hi). */
  function CountFrom(s: seq<real>, lo: real, hi: real): nat {
    if s == [] then 0
    else CountFrom(s[..|s| - 1], lo, hi) + if lo <= s[|s| - 1] < hi then 1 else 0
  }

  ghost predicate Sorted(s: seq<real>) {
    forall i, j :: 0 <= i <= j < |s| ==> s[i] <= s[j]
  }

  // ---- One key -----------------------------------------------------------------------------

  /** The deque is the part of the allowed history that may still be inside a window. */
  ghost predicate Represents(q: seq<real>, allowed: seq<real>, window: real, last: real) {
    && Sorted(allowed)
    && (forall i :: 0 <= i < |allowed| ==> allowed[i] <= last)
    && |q| <= |allowed|
    && q == allowed[|allowed| - |q|..]
    && (forall i :: 0 <= i < |allowed| - |q| ==> allowed[i] <= last - window)
  }

  /** Allowed calls `limit` places apart are a whole window apart. */
  ghost predicate Spaced(allowed: seq<real>, limit: int, window: real) {
    && (limit <= 0 ==> allowed == [])
    && (forall i :: 0 < limit <= i < |allowed| ==> allowed[i - limit] <= allowed[i] - window)
  }

  lemma {:induction false} CountSplit(s: seq<real>, m: nat, lo: real, hi: real)
    requires m <= |s|
    requires forall i :: 0 <= i < m ==> s[i] <= lo
    requires forall i :: m <= i < |s| ==> lo < s[i] <= hi
    ensures CountAfter(s, lo, hi) == |s| - m
  {
    if |s| > m {
      CountSplit(s[..|s| - 1], m, lo, hi);
    } else if |s| > 0 {
      CountSplit(s[..|s| - 1], m - 1, lo, hi);
    }
  }

  lemma {:induction false} CountTail(s: seq<real>, m: nat, lo: real, hi: real)
    requires m <= |s|
    requires forall i :: 0 <= i < m ==> s[i] < lo
    ensures CountFrom(s, lo, hi) <= |s| - m
  {
    if |s| > m {
      CountTail(s[..|s| - 1], m, lo, hi);
    } else if |s| > 0 {
      CountTail(s[..|s| - 1], m - 1, lo, hi);
    }
  }

  /** Spacing is exactly what bounds every half-open window, wherever it starts. */
  lemma {:induction false} SpacedBounds(allowed: seq<real>, limit: int, window: real, a: real)
    requires Sorted(allowed) && Spaced(allowed, limit, window)
    ensures CountFrom(allowed, a, a + window) <= Max(0, limit)
  {
    var n := |allowed|;
    if n > 0 {
      var x := allowed[n - 1];
      if x < a {
        CountTail(allowed, n, a, a + window);
      } else if x < a + window {
        if limit < n {
          assert allowed[n - 1 - limit] <= x - window;
          CountTail(allowed, n - limit, a, a + window);
        } else {
          CountTail(allowed, 0, a, a + window);
        }
      } else {
        SpacedBounds(allowed[..n - 1], limit, window, a);
      }
    }
  }

  /** Trimming drops only calls that have left the window ending now. */
  lemma TrimRepresents(q: seq<real>, allowed: seq<real>, window: real, last: real, now: real)
    requires Represents(q, allowed, window, last) && last <= now
    ensures Represents(Expire(q, now - window), allowed, window, now)
  {
    var kept := Expire(q, now - window);
    ExpireDropsPrefix(q, now - window);
    var dropped := |q| - |kept|;
    var m := |allowed| - |kept|;
    assert kept == q[dropped..] == allowed[m..];
    forall i | 0 <= i < m ensures allowed[i] <= now - window {
      if i >= |allowed| - |q| {
        assert allowed[i] == q[i - (|allowed| - |q|)];
      }
    }
  }

  /** A deque whose head is inside the window holds exactly the window's calls. */
  lemma TrimmedCounts(kept: seq<real>, allowed: seq<real>, window: real, now: real)
    requires Represents(kept, allowed, window, now)
    requires |kept| > 0 ==> kept[0] > now - window
    ensures CountAfter(allowed, now - window, now) == |kept|
  {
    var m := |allowed| - |kept|;
    forall i | m <= i < |allowed| ensures now - window < allowed[i] <= now {
      assert kept[0] == allowed[m] <= allowed[i];
    }
    CountSplit(allowed, m, now - window, now);
  }

  lemma AppendSpaced(kept: seq<real>, allowed: seq<real>, limit: int, window: real, now: real)
    requires Represents(kept, allowed, window, now) && Spaced(allowed, limit, window)
    requires |kept| < limit
    ensures Spaced(allowed + [now], limit, window)
  {
    var next := allowed + [now];
    forall i | 0 < limit <= i < |next| ensures next[i - limit] <= next[i] - window {
      if i == |allowed| {
        assert allowed[i - limit] <= now - window;
      }
    }
  }

  lemma AppendRepresents(kept: seq<real>, allowed: seq<real>, window: real, now: real)
    requires Represents(kept, allowed, window, now)
    ensures Represents(kept + [now], allowed + [now], window, now)
  {
    var m := |allowed| - |kept|;
    assert kept + [now] == (allowed + [now])[m..];
  }

  /** The invariant of one key: its deque, and every call it has let through. */
  ghost predicate Sound(q: seq<real>, allowed: seq<real>, limit: int, window: real, last: real) {
    Represents(q, allowed, window, last) && Spaced(allowed, limit, window)
  }

  function Extend(allowed: seq<real>, ok: bool, now: real): seq<real> {
    if ok then allowed + [now] else allowed
  }

  /** The deque's decision is the history's decision. */
  lemma AdmitCounts(q: seq<real>, allowed: seq<real>, limit: int, window: real, now: real)
    requires Sound(q, allowed, limit, window, now)
    ensures HasRoom(q, limit, window, now) <==> CountAfter(allowed, now - window, now) < limit
  {
    TrimRepresents(q, allowed, window, now, now);
    ExpireDropsPrefix(q, now - window);
    TrimmedCounts(Expire(q, now - window), allowed, window, now);
  }

  /** One call keeps the invariant. */
  lemma AdmitSound(q: seq<real>, allowed: seq<real>, limit: int, window: real, now: real)
    requires Sound(q, allowed, limit, window, now)
    ensures Sound(Admit(q, limit, window, now), Extend(allowed, HasRoom(q, limit, window, now), now), limit, window, now)
  {
    var kept := Expire(q, now - window);
    TrimRepresents(q, allowed, window, now, now);
    if |kept| < limit {
      AppendSpaced(kept, allowed, limit, window, now);
      AppendRepresents(kept, allowed, window, now);
    }
  }

  lemma SoundLater(q: seq<real>, allowed: seq<real>, limit: int, window: real, last: real, later: real)
    requires Sound(q, allowed, limit, window, last) && last <= later
    ensures Sound(q, allowed, limit, window, later)
  {
  }

  // ---- Whole runs over many keys -------------------------------------------------------------

  datatype Call = Call(key: string, at: real)

  /** The clock never runs backwards, and has not passed `now`. */
  function TimeOf(c: Call): real {
    c.at
  }

  /** Limits may differ from key to key; each key keeps its own for the whole run. */
  type Limits = string -> int

  function Deque(hits: map<string, seq<real>>, key: string): seq<real> {
    if key in hits then hits[key] else []
  }

  /** The limiter's table after a run of calls. */
  function Hits(calls: Trace<Call>, limit: Limits, window: real): map<string, seq<real>> {
    match calls
    case Start => map[]
    case Then(before, c) =>
      var hits := Hits(before, limit, window);
      hits[c.key := Admit(Deque(hits, c.key), limit(c.key), window, c.at)]
  }

  /** What the limiter answers to call `c` after the run `before`. */
  predicate Allows(before: Trace<Call>, c: Call, limit: Limits, window: real) {
    HasRoom(Deque(Hits(before, limit, window), c.key), limit(c.key), window, c.at)
  }

  /** Times of the calls for `key` that the limiter let through. */
  function AllowedTimes(calls: Trace<Call>, key: string, limit: Limits, window: real): seq<real> {
    match calls
    case Start => []
    case Then(before, c) =>
      var past := AllowedTimes(before, key, limit, window);
      if c.key == key then Extend(past, Allows(before, c, limit, window), c.at) else past
  }

  /** The reference limiter keeps no deque: it counts its whole history at every call. */
  predicate ReferenceAllows(before: Trace<Call>, c: Call, limit: Limits, window: real)
    decreases before, 1
  {
    CountAfter(ReferenceTimes(before, c.key, limit, window), c.at - window, c.at) < limit(c.key)
  }

  function ReferenceTimes(calls: Trace<Call>, key: string, limit: Limits, window: real): seq<real>
    decreases calls, 0
  {
    match calls
    case Start => []
    case Then(before, c) =>
      var past := ReferenceTimes(before, key, limit, window);
      if c.key == key then Extend(past, ReferenceAllows(before, c, limit, window), c.at) else past
  }

  lemma {:induction false} RunSound(calls: Trace<Call>, key: string, limit: Limits, window: real, now: real)
    requires MonotoneUpTo(calls, TimeOf, now)
    ensures Sound(Deque(Hits(calls, limit, window), key), AllowedTimes(calls, key, limit, window),
                  limit(key), window, now)
  {
    match calls
    case Start =>
    case Then(before, c) =>
      if c.key == key {
        var q, past := Deque(Hits(before, limit, window), key), AllowedTimes(before, key, limit, window);
        RunSound(before, key, limit, window, c.at);
        AdmitSound(q, past, limit(key), window, c.at);
        SoundLater(Admit(q, limit(key), window, c.at), AllowedTimes(calls, key, limit, window),
                   limit(key), window, c.at, now);
      } else {
        assert MonotoneUpTo(before, TimeOf, now) by { MonotoneLater(before, TimeOf, c.at, now); }
        RunSound(before, key, limit, window, now);
      }
  }

  /** A call is allowed exactly when fewer than `limit` earlier allowed calls of its key lie in (now - window, now]. */
  lemma AllowsWhenRoomLeft(before: Trace<Call>, c: Call, limit: Limits, window: real)
    requires MonotoneUpTo(before, TimeOf, c.at)
    ensures Allows(before, c, limit, window) <==>
            CountAfter(AllowedTimes(before, c.key, limit, window), c.at - window, c.at) < limit(c.key)
  {
    var q, past := Deque(Hits(before, limit, window), c.key), AllowedTimes(before, c.key, limit, window);
    assert HasRoom(q, limit(c.key), window, c.at) <==> CountAfter(past, c.at - window, c.at) < limit(c.key) by {
      RunSound(before, c.key, limit, window, c.at);
      AdmitCounts(q, past, limit(c.key), window, c.at);
    }
  }

  /** The deque limiter lets through exactly the calls the reference limiter does, on every run. */
  lemma {:induction false} LimiterRefinesReference(calls: Trace<Call>, key: string, limit: Limits, window: real, now: real)
    requires MonotoneUpTo(calls, TimeOf, now)
    ensures AllowedTimes(calls, key, limit, window) == ReferenceTimes(calls, key, limit, window)
  {
    match calls
    case Start =>
    case Then(before, c) =>
      LimiterRefinesReference(before, key, limit, window, c.at);
      if c.key == key {
        AllowsWhenRoomLeft(before, c, limit, window);
      }
  }

  /** No half-open window, wherever it starts, holds more than `limit` allowed calls of one key. */
  lemma WindowNeverOverfull(calls: Trace<Call>, key: string, limit: Limits, window: real, now: real, a: real)
    requires MonotoneUpTo(calls, TimeOf, now)
    ensures CountFrom(AllowedTimes(calls, key, limit, window), a, a + window) <= Max(0, limit(key))
  {
    RunSound(calls, key, limit, window, now);
    SpacedBounds(AllowedTimes(calls, key, limit, window), limit(key), window, a);
  }
}
