/**
 When a fleet of gateways can be made to accept a signed request again: exactly which deployments, which timestamps,
 and what keeps it from happening.
 */
module SigningFleet {
  import opened Prelude
  import opened SharedStore
  import opened Fleet
  import opened Signing
  import FleetWitness
  import NonceCache

  // ---- Redis as the only holder ---------------------------------------------------------------------------

  /** Every acceptance of `v` rested on the shared Redis. */
  ghost predicate VouchedByRedis(run: Trace<Signing.Event>, v: Envelope, c: Config)
    requires Coherent(c)
  {
    run.Then? ==>
      && VouchedByRedis(run.before, v, c)
      && (Accepts(run.before, run.event, c) && Carries(run.event, v, c) ==> VouchedBy(run.before, run.event, c) == SharedRedis)
  }

  lemma {:induction false} OneHolderCountsAll(run: Trace<Signing.Event>, v: Envelope, c: Config)
    requires Coherent(c) && VouchedByRedis(run, v, c)
    ensures TotalAcceptances(run, v, c) == Acceptances(run, v, SharedRedis, c)
  {
    if run.Then? {
      OneHolderCountsAll(run.before, v, c);
    }
  }

  /** While Redis vouches for every acceptance, an envelope is accepted at most once, by however many replicas. */
  lemma OnceWhileRedisVouches(run: Trace<Signing.Event>, v: Envelope, c: Config, now: real)
    requires Coherent(c) && MonotoneUpTo(run, Signing.TimeOf, now) && FromHttp(run) && Provisioned(run, c)
    requires OrdinaryTime(v, c) && VouchedByRedis(run, v, c)
    ensures TotalAcceptances(run, v, c) <= 1
  {
    OneHolderCountsAll(run, v, c);
    AcceptedAtMostOncePerHolder(run, v, SharedRedis, c, now);
  }

  /** Redis answers every call, from the first one on. */
  ghost predicate RedisAnswers(run: Trace<Signing.Event>) {
    run.Then? ==> RedisAnswers(run.before) && run.event.weather == FINE && run.event.at >= 0.0
  }

  lemma {:induction false} StaysReady(run: Trace<Signing.Event>, c: Config)
    requires Coherent(c) && c.setup.configured && RedisAnswers(run)
    ensures AllReady(Fleet.After(Ops(run, c), c.setup))
  {
    if run.Then? {
      StaysReady(run.before, c);
      if run.event.Limit? || ReachesNonce(run.event.request, c, run.event.at) {
        FineKeepsReady(Ops(run.before, c), Ops(run, c).event, c.setup);
      }
    }
  }

  lemma {:induction false} RedisVouches(run: Trace<Signing.Event>, v: Envelope, c: Config)
    requires Coherent(c) && c.setup.configured && RedisAnswers(run)
    ensures VouchedByRedis(run, v, c)
  {
    if run.Then? {
      RedisVouches(run.before, v, c);
      StaysReady(run.before, c);
      if run.event.Serve? {
        FineCall(Fleet.After(Ops(run.before, c), c.setup), NonceOp(run.event), c.setup);
      }
    }
  }

  /** The deployment as intended: while Redis answers, no number of replicas accepts an envelope twice. */
  lemma AtMostOnceWithRedis(run: Trace<Signing.Event>, v: Envelope, c: Config, now: real)
    requires Coherent(c) && MonotoneUpTo(run, Signing.TimeOf, now) && FromHttp(run) && Provisioned(run, c)
    requires OrdinaryTime(v, c) && c.setup.configured && RedisAnswers(run)
    ensures TotalAcceptances(run, v, c) <= 1
  {
    RedisVouches(run, v, c);
    OnceWhileRedisVouches(run, v, c, now);
  }

  // ---- Reaching the bound ---------------------------------------------------------------------------------

  /** The replicas from `n` on hold no nonce of their own. */
  ghost predicate UnusedFrom(ops: Trace<Op>, n: nat, u: Setup)
    requires u.window > 0.0
  {
    forall r: nat :: n <= r ==> UnusedAt(ops, r, u)
  }

  predicate UnusedAt(ops: Trace<Op>, r: nat, u: Setup)
    requires u.window > 0.0
  {
    ReplicaOf(Fleet.After(ops, u), r).nonces == [] && RecordedBy(ops, MemoryOf(r), u) == []
  }

  lemma CutOffAnswers(ops: Trace<Op>, op: Op, u: Setup)
    requires u.window > 0.0 && op.NonceCheck? && op.weather == FleetWitness.CUT && UnusedFrom(ops, op.replica, u)
    ensures !Result(ops, op, u).answer && HolderOf(op, Result(ops, op, u)) == MemoryOf(op.replica)
    ensures UnusedFrom(Then(ops, op), op.replica + 1, u)
  {
    assert UnusedAt(ops, op.replica, u);
    SeenNonceUsesMemory(ReplicaOf(Fleet.After(ops, u), op.replica), Fleet.After(ops, u).redis, op.weather, op.nonce, op.at, u);
    forall r: nat | op.replica + 1 <= r ensures UnusedAt(Then(ops, op), r, u) {
      assert UnusedAt(ops, r, u);
    }
  }

  /** A nonce that Redis takes leaves every replica's own memory as it was. */
  lemma FineLeavesUnused(ops: Trace<Op>, op: Op, u: Setup)
    requires u.window > 0.0 && op.NonceCheck? && Result(ops, op, u).source == FromRedis && UnusedFrom(ops, 0, u)
    ensures UnusedFrom(Then(ops, op), 0, u)
  {
    SeenNonceUsesMemory(ReplicaOf(Fleet.After(ops, u), op.replica), Fleet.After(ops, u).redis, op.weather, op.nonce, op.at, u);
    forall r: nat ensures UnusedAt(Then(ops, op), r, u) {
      assert UnusedAt(ops, r, u);
    }
  }

  /** A properly signed request whose timestamp is now. */
  ghost predicate Timely(q: Request, key: string, t: real, c: Config) {
    ProperlySigned(q, key, c) && c.parse(q.ts) == At(t)
  }

  lemma CutOffAccepts(before: Trace<Signing.Event>, r: nat, q: Request, key: string, t: real, c: Config)
    requires Coherent(c) && Timely(q, key, t, c) && UnusedFrom(Ops(before, c), r, c.setup)
    ensures var e := Serve(r, FleetWitness.CUT, q, Some(SessionRow(false, key)), t);
            && Accepts(before, e, c) && Carries(e, Envelope(key, Message(q, c)), c)
            && WithinCapacity(Ops(before, c), VouchedBy(before, e, c), t, c.setup)
            && UnusedFrom(Ops(Then(before, e), c), r + 1, c.setup)
  {
    var e := Serve(r, FleetWitness.CUT, q, Some(SessionRow(false, key)), t);
    assert ReachesNonce(q, c, t) && UnusedAt(Ops(before, c), r, c.setup);
    CutOffAnswers(Ops(before, c), NonceOp(e), c.setup);
    assert NonceCache.CountSince([], t - c.setup.ttl) == 0;
  }

  /** A run within every assumption, on replicas below `n`, that accepts `v` `times` times by `now`. */
  ghost predicate AcceptsTimes(run: Trace<Signing.Event>, v: Envelope, times: nat, n: nat, now: real, c: Config)
    requires Coherent(c)
  {
    && MonotoneUpTo(run, Signing.TimeOf, now) && FromHttp(run) && Provisioned(run, c) && Signing.Below(run, n)
    && TotalAcceptances(run, v, c) == times
  }

  /** The replicas below `r` have had their turn, and the request has been accepted `times` times. */
  ghost predicate Progress(run: Trace<Signing.Event>, r: nat, q: Request, key: string, t: real, times: nat, replicas: nat, c: Config)
    requires Coherent(c)
  {
    UnusedFrom(Ops(run, c), r, c.setup) && AcceptsTimes(run, Envelope(key, Message(q, c)), times, replicas, t, c)
  }

  lemma CutOffCounts(before: Trace<Signing.Event>, r: nat, q: Request, key: string, t: real, times: nat, replicas: nat, c: Config)
    returns (run: Trace<Signing.Event>)
    requires Coherent(c) && Timely(q, key, t, c) && r < replicas && Progress(before, r, q, key, t, times, replicas, c)
    ensures Progress(run, r + 1, q, key, t, times + 1, replicas, c)
  {
    CutOffAccepts(before, r, q, key, t, c);
    run := Then(before, Serve(r, FleetWitness.CUT, q, Some(SessionRow(false, key)), t));
  }

  /** The request arrives at every replica below `n` in turn, each cut off from Redis. */
  lemma {:induction false} EverywhereAccepts(run: Trace<Signing.Event>, n: nat, q: Request, key: string, t: real, times: nat,
                                             replicas: nat, c: Config) returns (all: Trace<Signing.Event>)
    requires Coherent(c) && Timely(q, key, t, c) && n <= replicas && Progress(run, 0, q, key, t, times, replicas, c)
    ensures Progress(all, n, q, key, t, times + n, replicas, c)
  {
    if n == 0 {
      all := run;
    } else {
      var before := EverywhereAccepts(run, n - 1, q, key, t, times, replicas, c);
      all := CutOffCounts(before, n - 1, q, key, t, times + n - 1, replicas, c);
    }
  }

  lemma RedisAcceptsFirst(q: Request, key: string, t: real, replicas: nat, c: Config) returns (run: Trace<Signing.Event>)
    requires Coherent(c) && Timely(q, key, t, c) && t >= 0.0 && c.setup.configured && replicas > 0
    ensures Progress(run, 0, q, key, t, 1, replicas, c)
  {
    var e := Serve(0, FINE, q, Some(SessionRow(false, key)), t);
    run := Then(Start, e);
    assert ReachesNonce(q, c, t);
    FineCall(Fleet.After(Ops(Start, c), c.setup), NonceOp(e), c.setup);
    FineLeavesUnused(Ops(Start, c), NonceOp(e), c.setup);
    assert Accepts(Start, e, c) && TotalAcceptances(Start, Envelope(key, Message(q, c)), c) == 0;
  }

  /** How often a fleet can accept one envelope at most. */
  function MostAcceptances(replicas: nat, configured: bool): nat {
    if configured && replicas > 0 then 1 + replicas else replicas
  }

  /** Every fleet reaches its bound: Redis vouches once, and then each replica, cut off, from its own memory. */
  lemma ReplayBoundIsReached(q: Request, key: string, t: real, replicas: nat, c: Config) returns (run: Trace<Signing.Event>)
    requires Coherent(c) && Timely(q, key, t, c) && t >= 0.0
    ensures AcceptsTimes(run, Envelope(key, Message(q, c)), MostAcceptances(replicas, c.setup.configured), replicas, t, c)
  {
    run := Start;
    var times := 0;
    if c.setup.configured && replicas > 0 {
      run := RedisAcceptsFirst(q, key, t, replicas, c);
      times := 1;
    }
    run := EverywhereAccepts(run, replicas, q, key, t, times, replicas, c);
  }

  // ---- The exact condition ----------------------------------------------------------------------------------

  /** Some run within every assumption, on `replicas` replicas, accepts `v` at least twice. */
  ghost predicate FleetRepeats(v: Envelope, replicas: nat, c: Config)
    requires Coherent(c)
  {
    exists run, times, now :: times >= 2 && AcceptsTimes(run, v, times, replicas, now, c)
  }

  lemma OrdinaryWhenParsed(q: Request, c: Config)
    requires Coherent(c) && FromHttpRequest(q) && c.parse(q.ts) != NotANumber
    ensures forall q': Request :: FromHttpRequest(q') && Message(q', c) == Message(q, c) ==> c.parse(q'.ts) == c.parse(q.ts)
  {
    forall q': Request | FromHttpRequest(q') && Message(q', c) == Message(q, c) ensures c.parse(q'.ts) == c.parse(q.ts) {
      SameFields(q, q', c);
    }
  }

  /** A timestamp that is no number of seconds at all never passes the skew check. */
  lemma {:induction false} OutOfTime(run: Trace<Signing.Event>, q: Request, key: string, c: Config)
    requires Coherent(c) && FromHttp(run) && FromHttpRequest(q) && (c.parse(q.ts) == Malformed || c.parse(q.ts) == Infinite)
    ensures TotalAcceptances(run, Envelope(key, Message(q, c)), c) == 0
  {
    if run.Then? {
      OutOfTime(run.before, q, key, c);
      OrdinaryWhenParsed(q, c);
    }
  }

  lemma {:induction false} HolderAtMostTotal(run: Trace<Signing.Event>, v: Envelope, holder: Holder, c: Config)
    requires Coherent(c)
    ensures Acceptances(run, v, holder, c) <= TotalAcceptances(run, v, c)
  {
    if run.Then? {
      HolderAtMostTotal(run.before, v, holder, c);
    }
  }

  lemma {:induction false} BelowMore(run: Trace<Signing.Event>, n: nat, m: nat)
    requires Signing.Below(run, n) && n <= m
    ensures Signing.Below(run, m)
  {
    if run.Then? {
      BelowMore(run.before, n, m);
    }
  }

  /** The deployments in which an ordinary envelope can be accepted again. */
  predicate Repeatable(replicas: nat, configured: bool) {
    replicas >= 2 || (replicas == 1 && configured)
  }

  lemma RepeatsNaN(q: Request, key: string, replicas: nat, c: Config)
    requires Coherent(c) && ProperlySigned(q, key, c) && c.parse(q.ts) == NotANumber && replicas > 0
    ensures FleetRepeats(Envelope(key, Message(q, c)), replicas, c)
  {
    var v := Envelope(key, Message(q, c));
    var run, now := RepeatNotANumber(q, key, c);
    HolderAtMostTotal(run, v, MemoryOf(0), c);
    BelowMore(run, 1, replicas);
    assert AcceptsTimes(run, v, TotalAcceptances(run, v, c), replicas, now, c);
  }

  lemma RepeatsAtMost(q: Request, key: string, replicas: nat, c: Config)
    requires Coherent(c) && FromHttpRequest(q) && c.parse(q.ts).At? && !Repeatable(replicas, c.setup.configured)
    ensures !FleetRepeats(Envelope(key, Message(q, c)), replicas, c)
  {
    var v := Envelope(key, Message(q, c));
    OrdinaryWhenParsed(q, c);
    forall run, times, now | AcceptsTimes(run, v, times, replicas, now, c) ensures times < 2 {
      ReplayBound(run, v, replicas, c, now);
      if replicas == 0 {
        assert run.Start?;
      }
    }
  }

  /**
   Exactly when a properly signed request can be accepted twice, over all deployments and timestamps: its timestamp
   reads as not-a-number and there is a gateway; or it is an ordinary time and there are two replicas, or one
   replica that uses Redis. With an infinite or malformed timestamp it is never accepted.
   */
  lemma FleetRepeatsExactly(q: Request, key: string, replicas: nat, c: Config)
    requires Coherent(c) && ProperlySigned(q, key, c) && (c.parse(q.ts).At? ==> c.parse(q.ts).t >= 0.0)
    ensures FleetRepeats(Envelope(key, Message(q, c)), replicas, c) <==>
              match c.parse(q.ts)
              case At(_) => Repeatable(replicas, c.setup.configured)
              case NotANumber => replicas > 0
              case _ => false
  {
    var v := Envelope(key, Message(q, c));
    match c.parse(q.ts)
    case At(t) =>
      if Repeatable(replicas, c.setup.configured) {
        var run := ReplayBoundIsReached(q, key, t, replicas, c);
        assert MostAcceptances(replicas, c.setup.configured) >= 2;
      } else {
        RepeatsAtMost(q, key, replicas, c);
      }
    case NotANumber =>
      if replicas > 0 {
        RepeatsNaN(q, key, replicas, c);
      } else {
        forall run, times, now | AcceptsTimes(run, v, times, replicas, now, c) ensures times < 2 {
          assert run.Start?;
        }
      }
    case _ =>
      forall run, times, now | AcceptsTimes(run, v, times, replicas, now, c) ensures times < 2 {
        OutOfTime(run, q, key, c);
      }
  }
}
