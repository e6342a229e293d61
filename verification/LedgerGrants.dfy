/**
 Boost grants over whole runs of the ledger: each consumed grant paid for exactly one boosted run of the
 same user, decided requests stay decided, and approvals are conserved.
 */
module LedgerGrants {
  import opened Prelude
  import opened Scheduler
  import opened Ledger
  import opened LedgerRuns

  /** Boosted runs and consumed grants correspond one to one, with the same user. */
  ghost predicate Paired(boosts: seq<Boost>, runs: seq<Run>) {
    && (forall i :: 0 <= i < |runs| ==> (runs[i].mode == Boosted <==> runs[i].boostId.Some?))
    && (forall i :: 0 <= i < |runs| && runs[i].boostId.Some? ==>
          var b := runs[i].boostId.value;
          b < |boosts| && boosts[b].status == Consumed && boosts[b].userId == runs[i].userId)
    && (forall i, j :: 0 <= i < j < |runs| && runs[i].boostId.Some? ==> runs[i].boostId != runs[j].boostId)
    && (forall b :: 0 <= b < |boosts| && boosts[b].status == Consumed ==> Spent(runs, b))
  }

  ghost predicate Spent(runs: seq<Run>, b: nat) {
    exists i :: 0 <= i < |runs| && runs[i].boostId == Some(b)
  }

  ghost predicate OnePending(boosts: seq<Boost>) {
    forall a, b :: 0 <= a < b < |boosts| && boosts[a].status == Pending && boosts[b].status == Pending ==>
      boosts[a].userId != boosts[b].userId
  }

  // ---- Table operations ------------------------------------------------------------------------------

  lemma {:induction false} LatestGrantExactly(boosts: seq<Boost>, uid: string)
    ensures LatestGrant(boosts, uid) == None <==>
              forall b :: 0 <= b < |boosts| ==> !(boosts[b].userId == uid && boosts[b].status == Approved)
    ensures LatestGrant(boosts, uid).Some? ==>
              var g := LatestGrant(boosts, uid).value;
              && g < |boosts| && boosts[g].userId == uid && boosts[g].status == Approved
              && forall b :: 0 <= b < |boosts| && boosts[b].userId == uid && boosts[b].status == Approved ==>
                   boosts[b].created <= boosts[g].created && (b < g ==> boosts[b].created < boosts[g].created)
  {
    if boosts != [] {
      LatestGrantExactly(boosts[..|boosts| - 1], uid);
      assert forall b :: 0 <= b < |boosts| - 1 ==> boosts[..|boosts| - 1][b] == boosts[b];
    }
  }

  /** Rows of runs that agree on user, mode and grant are paired alike. */
  ghost predicate SameGrants(later: seq<Run>, runs: seq<Run>) {
    && |later| == |runs|
    && forall i :: 0 <= i < |runs| ==>
         later[i].userId == runs[i].userId && later[i].mode == runs[i].mode && later[i].boostId == runs[i].boostId
  }

  lemma PairedAlike(boosts: seq<Boost>, runs: seq<Run>, later: seq<Run>)
    requires Paired(boosts, runs) && SameGrants(later, runs)
    ensures Paired(boosts, later)
  {
    forall b | 0 <= b < |boosts| && boosts[b].status == Consumed ensures Spent(later, b) {
      var i :| 0 <= i < |runs| && runs[i].boostId == Some(b);
      assert later[i].boostId == Some(b);
    }
  }

  /** Boost rows may change as long as the consumed ones stay put and no others become consumed. */
  lemma PairedByConsumed(boosts: seq<Boost>, boosts': seq<Boost>, runs: seq<Run>)
    requires Paired(boosts, runs) && |boosts| <= |boosts'|
    requires forall b :: 0 <= b < |boosts| ==> (boosts[b].status == Consumed <==> boosts'[b].status == Consumed)
                                               && boosts'[b].userId == boosts[b].userId
    requires forall b :: |boosts| <= b < |boosts'| ==> boosts'[b].status != Consumed
    ensures Paired(boosts', runs)
  {
  }

  lemma SpentMore(runs: seq<Run>, r: Run, b: nat)
    requires Spent(runs, b) || r.boostId == Some(b)
    ensures Spent(runs + [r], b)
  {
    if r.boostId == Some(b) {
      assert (runs + [r])[|runs|].boostId == Some(b);
    } else {
      var i :| 0 <= i < |runs| && runs[i].boostId == Some(b);
      assert (runs + [r])[i].boostId == Some(b);
    }
  }

  /** Recording a run together with consuming its grant keeps the pairing. */
  lemma ConsumeKeepsPairing(boosts: seq<Boost>, runs: seq<Run>, r: Run)
    requires Paired(boosts, runs)
    requires r.mode == Boosted <==> r.boostId.Some?
    requires r.boostId.Some? ==>
               r.boostId.value < |boosts| && boosts[r.boostId.value].status == Approved
               && boosts[r.boostId.value].userId == r.userId
    ensures Paired(Consume(boosts, r.boostId), runs + [r])
  {
    var boosts', all := Consume(boosts, r.boostId), runs + [r];
    forall b | 0 <= b < |boosts'| && boosts'[b].status == Consumed ensures Spent(all, b) {
      SpentMore(runs, r, b);
    }
  }

  // ---- Steps -------------------------------------------------------------------------------------------

  lemma ReleaseSameGrants(runs: seq<Run>, freed: string, kept: string)
    ensures SameGrants(ReleaseRuns(runs, freed, kept), runs)
  {
  }

  lemma LaunchBoosts(s: State, uid: string, profile: string, now: real)
    requires uid in s.accounts
    ensures Launch(s, uid, profile, true, now).boosts == Consume(s.boosts, Admit(s, uid, profile, now).grant)
  {
  }

  lemma AdmittedGrant(s: State, uid: string, profile: string, now: real)
    requires uid in s.accounts
    ensures var a := Admit(s, uid, profile, now);
            && (a.grant.Some? ==> a.grant.value < |s.boosts| && s.boosts[a.grant.value].status == Approved
                                  && s.boosts[a.grant.value].userId == uid)
            && (PlanFor(s, uid, a, now).mode == Boosted <==> a.grant.Some?)
  {
    LatestGrantExactly(s.boosts, uid);
  }

  lemma LaunchPaired(s: State, uid: string, profile: string, now: real)
    requires uid in s.accounts && Paired(s.boosts, s.runs)
    ensures Paired(Launch(s, uid, profile, true, now).boosts, Launch(s, uid, profile, true, now).runs)
  {
    var a, old_ := Admit(s, uid, profile, now), ActiveRun(s.runs, uid);
    var p := PlanFor(s, uid, a, now);
    var r := NewRun(uid, s.accounts[uid].username, a, p, now);
    var halted := HaltAt(s.runs, old_, now);
    AdmittedGrant(s, uid, profile, now);
    PairedAlike(s.boosts, s.runs, halted);
    ConsumeKeepsPairing(s.boosts, halted, r);
    ReleaseSameGrants(halted + [r], NodeAt(s.runs, old_), p.node.GetOr(""));
    PairedAlike(Consume(s.boosts, a.grant), halted + [r], ReleaseRuns(halted + [r], NodeAt(s.runs, old_), p.node.GetOr("")));
    LaunchRuns(s, uid, profile, now);
    LaunchBoosts(s, uid, profile, now);
  }

  lemma StopPaired(s: State, uid: string, now: real)
    requires Paired(s.boosts, s.runs)
    ensures Paired(s.boosts, Stop(s, uid, true, now).runs) && Stop(s, uid, true, now).boosts == s.boosts
  {
    var halted := HaltAt(s.runs, ActiveRun(s.runs, uid), now);
    PairedAlike(s.boosts, s.runs, halted);
    ReleaseSameGrants(halted, NodeAt(s.runs, ActiveRun(s.runs, uid)), "");
    PairedAlike(s.boosts, halted, ReleaseRuns(halted, NodeAt(s.runs, ActiveRun(s.runs, uid)), ""));
    StopRuns(s, uid, now);
  }

  /** What any step but a successful launch may do to the boost rows. */
  lemma OtherBoosts(s: State, e: Event)
    requires !(e.LaunchE? && e.hubOk)
    ensures |s.boosts| <= |Step(s, e).boosts|
    ensures forall b :: 0 <= b < |s.boosts| ==>
              (s.boosts[b].status == Consumed <==> Step(s, e).boosts[b].status == Consumed)
              && Step(s, e).boosts[b].userId == s.boosts[b].userId
    ensures forall b :: |s.boosts| <= b < |Step(s, e).boosts| ==> Step(s, e).boosts[b].status == Pending
  {
  }

  lemma StepPaired(s: State, e: Event)
    requires Paired(s.boosts, s.runs)
    ensures Paired(Step(s, e).boosts, Step(s, e).runs)
  {
    if TouchesRuns(e) && e.LaunchE? {
      if e.uid in s.accounts {
        LaunchPaired(s, e.uid, e.profile, e.now);
      }
    } else if TouchesRuns(e) && e.StopE? {
      StopPaired(s, e.uid, e.now);
    } else {
      OtherBoosts(s, e);
      PairedByConsumed(s.boosts, Step(s, e).boosts, s.runs);
    }
  }

  lemma ConsumePending(s: State, uid: string, profile: string, now: real)
    requires uid in s.accounts && OnePending(s.boosts)
    ensures OnePending(Consume(s.boosts, Admit(s, uid, profile, now).grant))
  {
  }

  lemma StepOnePending(s: State, e: Event)
    requires OnePending(s.boosts)
    ensures OnePending(Step(s, e).boosts)
  {
    if e.LaunchE? && e.hubOk && e.uid in s.accounts {
      LaunchBoosts(s, e.uid, e.profile, e.now);
      ConsumePending(s, e.uid, e.profile, e.now);
    }
  }

  /**
   In every reachable ledger, boosted runs and consumed grants correspond one to one with the same user,
   and nobody has two pending requests.
   */
  lemma {:induction false} GrantsSpentOnce(run: Trace<Event>)
    ensures Paired(After(run).boosts, After(run).runs) && OnePending(After(run).boosts)
  {
    match run
    case Start =>
    case Then(before, e) =>
      GrantsSpentOnce(before);
      StepPaired(After(before), e);
      StepOnePending(After(before), e);
  }

  // ---- Final states --------------------------------------------------------------------------------------

  predicate Final(b: Boost) {
    b.status == Denied || b.status == Consumed || b.status == Expired
  }

  lemma StepFinal(s: State, e: Event, b: nat)
    requires b < |s.boosts| && Final(s.boosts[b])
    ensures b < |Step(s, e).boosts| && Step(s, e).boosts[b] == s.boosts[b]
  {
    if e.LaunchE? && e.hubOk && e.uid in s.accounts {
      LaunchBoosts(s, e.uid, e.profile, e.now);
      AdmittedGrant(s, e.uid, e.profile, e.now);
    }
  }

  /** A denied, consumed or expired request never changes again. */
  lemma {:induction false} FinalForever(run: Trace<Event>, later: Trace<Event>, b: nat)
    requires Follows(later, run) && b < |After(run).boosts| && Final(After(run).boosts[b])
    ensures b < |After(later).boosts| && After(later).boosts[b] == After(run).boosts[b]
  {
    if later != run {
      FinalForever(run, later.before, b);
      StepFinal(After(later.before), later.event, b);
    }
  }

  // ---- Asking and deciding ---------------------------------------------------------------------------------

  /** A request adds one pending row of the size asked for, and withdraws what the same user still had pending. */
  lemma RequestBoostExactly(s: State, uid: string, gpus: int, now: real)
    requires uid in s.accounts
    ensures var s' := Step(s, RequestBoostE(uid, gpus, now));
            && s' == s.(boosts := s'.boosts) && |s'.boosts| == |s.boosts| + 1
            && s'.boosts[|s.boosts|] == Boost(uid, gpus, Pending, now)
            && forall b :: 0 <= b < |s.boosts| ==>
                 s'.boosts[b] == if s.boosts[b].userId == uid && s.boosts[b].status == Pending
                                 then Boost(uid, s.boosts[b].gpus, Expired, s.boosts[b].created) else s.boosts[b]
  {
  }

  /** The size an approval gives: the administrator's, unless that is left out or zero, and then the one asked for. */
  predicate SizeGiven(size: int, asked: int, granted: Option<int>) {
    (granted.Some? && granted.value != 0 && size == granted.value) || ((granted == None || granted.value == 0) && size == asked)
  }

  /** A decision changes exactly the one pending request and tells its user, with the size given; decided ones stay. */
  lemma DecisionsExactly(s: State, e: Event, id: nat)
    requires (e.ApproveE? && e.id == id) || (e.DenyE? && e.id == id)
    ensures var s' := Step(s, e);
            && s'.nodes == s.nodes && s'.accounts == s.accounts && s'.runs == s.runs && |s'.boosts| == |s.boosts|
            && (forall b :: 0 <= b < |s.boosts| && b != id ==> s'.boosts[b] == s.boosts[b])
            && (!(id < |s.boosts| && s.boosts[id].status == Pending) ==> s' == s)
            && (id < |s.boosts| && s.boosts[id].status == Pending ==>
                  var b, b' := s.boosts[id], s'.boosts[id];
                  && b'.userId == b.userId && b'.created == b.created
                  && b'.status == (if e.ApproveE? then Approved else Denied)
                  && (e.ApproveE? ==> SizeGiven(b'.gpus, b.gpus, e.granted)) && (e.DenyE? ==> b'.gpus == b.gpus)
                  && s'.notices == s.notices + [Notice(b.userId, if e.ApproveE? then BoostGranted(b'.gpus) else BoostDeclined)])
  {
  }

  /** The user and the size of a decided request. */
  ghost predicate SameDeal(b: Boost, b': Boost) {
    b'.userId == b.userId && b'.gpus == b.gpus && b'.created == b.created && b'.status != Pending
  }

  lemma StepKeepsDeal(s: State, e: Event, b: nat)
    requires b < |s.boosts| && s.boosts[b].status != Pending
    ensures b < |Step(s, e).boosts| && SameDeal(s.boosts[b], Step(s, e).boosts[b])
  {
    match e
    case LaunchE(uid, profile, hubOk, now) =>
      if hubOk && uid in s.accounts {
        LaunchBoosts(s, uid, profile, now);
      }
    case RequestBoostE(uid, gpus, now) =>
      if uid in s.accounts {
        RequestBoostExactly(s, uid, gpus, now);
      }
    case ApproveE(id, _, _) => DecisionsExactly(s, e, id);
    case DenyE(id, _) => DecisionsExactly(s, e, id);
    case _ =>
  }

  /** What has been decided about a request is what it is worth for good: whose it is, how big, and that it is decided. */
  lemma {:induction false} DealStays(run: Trace<Event>, later: Trace<Event>, b: nat)
    requires Follows(later, run) && b < |After(run).boosts| && After(run).boosts[b].status != Pending
    ensures b < |After(later).boosts| && SameDeal(After(run).boosts[b], After(later).boosts[b])
  {
    if later != run {
      DealStays(run, later.before, b);
      StepKeepsDeal(After(later.before), later.event, b);
    }
  }

  // ---- Conservation of approvals -----------------------------------------------------------------------------

  function CountStatus(boosts: seq<Boost>, st: BoostStatus): nat {
    if boosts == [] then 0
    else CountStatus(boosts[..|boosts| - 1], st) + if boosts[|boosts| - 1].status == st then 1 else 0
  }

  /** How many approvals have taken effect. */
  function Approvals(run: Trace<Event>): nat {
    match run
    case Start => 0
    case Then(before, e) =>
      var boosts := After(before).boosts;
      Approvals(before) + if e.ApproveE? && e.id < |boosts| && boosts[e.id].status == Pending then 1 else 0
  }

  function Is(b: Boost, st: BoostStatus): nat {
    if b.status == st then 1 else 0
  }

  lemma {:induction false} CountUpdate(boosts: seq<Boost>, i: nat, b: Boost, st: BoostStatus)
    requires i < |boosts|
    ensures CountStatus(boosts[i := b], st) + Is(boosts[i], st) == CountStatus(boosts, st) + Is(b, st)
  {
    var k := |boosts| - 1;
    if i < k {
      CountUpdate(boosts[..k], i, b, st);
      assert boosts[i := b][..k] == boosts[..k][i := b];
    } else {
      assert boosts[i := b][..k] == boosts[..k];
    }
  }

  lemma CountAppend(boosts: seq<Boost>, b: Boost, st: BoostStatus)
    ensures CountStatus(boosts + [b], st) == CountStatus(boosts, st) + Is(b, st)
  {
    assert (boosts + [b])[..|boosts|] == boosts;
  }

  lemma {:induction false} CountExpired(boosts: seq<Boost>, uid: string, st: BoostStatus)
    requires st == Approved || st == Consumed
    ensures CountStatus(ExpirePending(boosts, uid), st) == CountStatus(boosts, st)
  {
    if boosts != [] {
      CountExpired(boosts[..|boosts| - 1], uid, st);
      assert ExpirePending(boosts, uid)[..|boosts| - 1] == ExpirePending(boosts[..|boosts| - 1], uid);
    }
  }

  function Granted(boosts: seq<Boost>): nat {
    CountStatus(boosts, Approved) + CountStatus(boosts, Consumed)
  }

  lemma GrantedUpdate(boosts: seq<Boost>, i: nat, b: Boost)
    requires i < |boosts|
    ensures Granted(boosts[i := b]) + Is(boosts[i], Approved) + Is(boosts[i], Consumed)
         == Granted(boosts) + Is(b, Approved) + Is(b, Consumed)
  {
    CountUpdate(boosts, i, b, Approved);
    CountUpdate(boosts, i, b, Consumed);
  }

  lemma StepGranted(s: State, e: Event)
    ensures Granted(Step(s, e).boosts) == Granted(s.boosts)
            + if e.ApproveE? && e.id < |s.boosts| && s.boosts[e.id].status == Pending then 1 else 0
  {
    match e
    case LaunchE(uid, profile, hubOk, now) =>
      if hubOk && uid in s.accounts {
        LaunchBoosts(s, uid, profile, now);
        AdmittedGrant(s, uid, profile, now);
        var g := Admit(s, uid, profile, now).grant;
        if g.Some? {
          GrantedUpdate(s.boosts, g.value, s.boosts[g.value].(status := Consumed));
        }
      }
    case RequestBoostE(uid, gpus, now) =>
      CountExpired(s.boosts, uid, Approved);
      CountExpired(s.boosts, uid, Consumed);
      CountAppend(ExpirePending(s.boosts, uid), Boost(uid, gpus, Pending, now), Approved);
      CountAppend(ExpirePending(s.boosts, uid), Boost(uid, gpus, Pending, now), Consumed);
    case ApproveE(id, granted, _) =>
      if id < |s.boosts| {
        GrantedUpdate(s.boosts, id, s.boosts[id].(status := Approved, gpus := GrantedSize(s.boosts[id].gpus, granted)));
      }
    case DenyE(id, _) =>
      if id < |s.boosts| {
        GrantedUpdate(s.boosts, id, s.boosts[id].(status := Denied));
      }
    case _ =>
  }

  /** Approvals made equal grants still approved plus grants consumed: none is lost and none spent twice. */
  lemma {:induction false} ApprovalsConserved(run: Trace<Event>)
    ensures Approvals(run) == CountStatus(After(run).boosts, Approved) + CountStatus(After(run).boosts, Consumed)
  {
    match run
    case Start =>
    case Then(before, e) =>
      ApprovalsConserved(before);
      StepGranted(After(before), e);
  }

  // ---- Failed launches ---------------------------------------------------------------------------------------

  /** The two ledgers differ in their notices at most. */
  ghost predicate SameTables(s: State, t: State) {
    s.nodes == t.nodes && s.accounts == t.accounts && s.runs == t.runs && s.boosts == t.boosts
  }

  /** The run without the launches that the Hub failed. */
  function WithoutFailures(run: Trace<Event>): Trace<Event> {
    match run
    case Start => Start
    case Then(before, e) =>
      if e.LaunchE? && !e.hubOk then WithoutFailures(before) else Then(WithoutFailures(before), e)
  }

  lemma FailedLaunchKeepsTables(s: State, e: Event)
    requires e.LaunchE? && !e.hubOk
    ensures SameTables(Step(s, e), s)
  {
  }

  lemma PlanIgnoresNotices(s: State, t: State, uid: string, profile: string, now: real)
    requires SameTables(s, t) && uid in s.accounts
    ensures Admit(s, uid, profile, now) == Admit(t, uid, profile, now)
    ensures PlanFor(s, uid, Admit(s, uid, profile, now), now) == PlanFor(t, uid, Admit(s, uid, profile, now), now)
  {
  }

  lemma LaunchIgnoresNotices(s: State, t: State, uid: string, profile: string, now: real)
    requires SameTables(s, t) && uid in s.accounts
    ensures SameTables(Launch(s, uid, profile, true, now), Launch(t, uid, profile, true, now))
  {
    PlanIgnoresNotices(s, t, uid, profile, now);
    assert Launch(s, uid, profile, true, now).runs == Launch(t, uid, profile, true, now).runs by {
      LaunchRuns(s, uid, profile, now);
      LaunchRuns(t, uid, profile, now);
    }
    assert Launch(s, uid, profile, true, now).boosts == Launch(t, uid, profile, true, now).boosts by {
      LaunchBoosts(s, uid, profile, now);
      LaunchBoosts(t, uid, profile, now);
    }
    LaunchKeepsCluster(s, uid, profile, true, now);
    LaunchKeepsCluster(t, uid, profile, true, now);
  }

  lemma StepIgnoresNotices(s: State, t: State, e: Event)
    requires SameTables(s, t)
    ensures SameTables(Step(s, e), Step(t, e))
  {
    if e.LaunchE? && e.hubOk {
      if e.uid in s.accounts {
        LaunchIgnoresNotices(s, t, e.uid, e.profile, e.now);
      }
    } else if e.StopE? && e.hubOk {
      StopRuns(s, e.uid, e.now);
      StopRuns(t, e.uid, e.now);
    }
  }

  /**
   Launches that fail at the Hub leave nothing behind: taking all of them out of a run changes no run, waiting flag,
   grant, node or account of the ledger it leads to.
   */
  lemma {:induction false} FailedLaunchesInvisible(run: Trace<Event>)
    ensures SameTables(After(run), After(WithoutFailures(run)))
  {
    if run.Then? {
      FailedLaunchesInvisible(run.before);
      if run.event.LaunchE? && !run.event.hubOk {
        FailedLaunchKeepsTables(After(run.before), run.event);
      } else {
        StepIgnoresNotices(After(run.before), After(WithoutFailures(run.before)), run.event);
      }
    }
  }
}
