/**
 What a launch is charged for, what a user has used, and who is demoted for it, each against a description that does
 not go through the planner: the rows of the tables, and the time that has passed.
 */
module LedgerCharges {
  import opened Prelude
  import opened Scheduler
  import opened Accounting
  import opened Ledger
  import opened LedgerRuns
  import opened LedgerNotices
  import opened LedgerOwnership
  import opened LedgerGrants

  // ---- GPUs charged ----------------------------------------------------------------------------------------

  /** How the number of GPUs, the peers and the rendezvous point of a row hang together. */
  ghost predicate Charged(r: Run) {
    && (r.mode == Boosted ==> r.gpus >= 1 && (r.node != "" ==> r.ddp != []) && (r.ddp != [] ==> r.gpus == |r.ddp|))
    && (r.mode != Boosted ==> r.ddp == [] && 0 <= r.gpus <= 1 && (r.gpus == 1 ==> r.profile == "gpu")
                              && (r.node != "" && r.profile == "gpu" ==> r.gpus == 1))
    && r.rdzv == if r.ddp != [] then r.node + ":29400" else ""
  }

  ghost predicate AllCharged(runs: seq<Run>) {
    forall i :: 0 <= i < |runs| ==> Charged(runs[i])
  }

  lemma PlanCharges(hosts: seq<string>, runs: seq<Run>, profile: string, boost: Option<int>)
    ensures var p := Plan(hosts, runs, WantsGpu(profile, boost), boost);
            && (p.mode == Boosted <==> boost.Some?)
            && (boost.Some? ==> p.gpus >= 1 && (hosts != [] ==> p.ddp != [] && p.gpus == |p.ddp|) && (hosts == [] ==> p.ddp == []))
            && (boost == None ==> p.ddp == [] && p.gpus == (if hosts != [] && profile == "gpu" then 1 else 0))
            && p.rdzv == (if p.ddp != [] then p.node.GetOr("") + ":29400" else "")
            && (p.node.Some? <==> hosts != [])
            && (p.shared <==> p.mode == Shared) && (p.queued <==> p.mode == Shared)
  {
  }

  lemma NewRunCharged(s: State, uid: string, a: Admission, now: real)
    requires uid in s.accounts && (a.grant.Some? ==> a.grant.value < |s.boosts|)
    ensures Charged(NewRun(uid, s.accounts[uid].username, a, PlanFor(s, uid, a, now), now))
  {
    PlanCharges(Candidates(s, a, now), Others(s.runs, s.accounts[uid].username), a.profile, GrantSize(s, a.grant));
  }

  lemma StepCharged(s: State, e: Event)
    requires AllCharged(s.runs)
    ensures AllCharged(Step(s, e).runs)
  {
    StepTells(s, e);
    MomentCharged(s, e);
    ClearCharged(Moment(s, e), Tells(s, e));
  }

  lemma MomentCharged(s: State, e: Event)
    requires AllCharged(s.runs)
    ensures AllCharged(Moment(s, e))
  {
    if Places(s, e) {
      HaltCharged(s.runs, ActiveRun(s.runs, e.uid), e.now);
      AdmittedGrant(s, e.uid, e.profile, e.now);
      NewRunCharged(s, e.uid, Admit(s, e.uid, e.profile, e.now), e.now);
    } else if e.StopE? {
      HaltCharged(s.runs, ActiveRun(s.runs, e.uid), e.now);
    }
  }

  lemma HaltCharged(runs: seq<Run>, i: Option<nat>, now: real)
    requires AllCharged(runs)
    ensures AllCharged(HaltAt(runs, i, now))
  {
  }

  lemma ClearCharged(runs: seq<Run>, told: Option<nat>)
    requires AllCharged(runs)
    ensures AllCharged(Clear(runs, told))
  {
  }

  lemma {:induction false} EveryRowCharged(run: Trace<Event>)
    ensures AllCharged(After(run).runs)
  {
    if run.Then? {
      EveryRowCharged(run.before);
      StepCharged(After(run.before), run.event);
    }
  }

  /**
   In every reachable ledger a run on a named node is charged for a GPU exactly when it has the GPU profile or is a
   boost; a boost is charged for each of its hosts, anything else for one.
   */
  lemma ChargedExactly(run: Trace<Event>, i: nat)
    requires i < |After(run).runs| && After(run).runs[i].node != ""
    ensures var r := After(run).runs[i];
            && (r.gpus > 0 <==> r.profile == "gpu" || r.mode == Boosted)
            && (r.gpus > 0 ==> r.gpus == if r.mode == Boosted then |r.ddp| else 1)
            && r.rdzv == if r.mode == Boosted then r.node + ":29400" else ""
  {
    EveryRowCharged(run);
  }

  /**
   The user's notebook sees a GPU exactly when the run is charged for one: reserved when it has the node to itself,
   shared when it does not, hidden otherwise.
   */
  lemma SeesWhatItIsChargedFor(run: Trace<Event>, i: nat)
    requires i < |After(run).runs| && After(run).runs[i].node != ""
    ensures var r := After(run).runs[i];
            && SpawnOf(r, true).reservesGpu == (r.gpus > 0 && r.mode != Shared)
            && SpawnOf(r, true).visibleDevices == (if r.gpus == 0 then Some("void") else if r.mode == Shared then Some("all") else None)
            && SpawnOf(r, true).pin == Some(r.node)
            && !SpawnOf(r, false).reservesGpu && SpawnOf(r, false).visibleDevices == Some("void")
  {
    ChargedExactly(run, i);
    EveryRowCharged(run);
  }

  // ---- Time used ---------------------------------------------------------------------------------------------

  /** The user has an active run that is charged for a GPU. */
  predicate GpuOn(runs: seq<Run>, uid: string) {
    exists i :: 0 <= i < |runs| && runs[i].active && runs[i].userId == uid && runs[i].gpus > 0
  }

  /** How long, in seconds, the user has had such a run: the time between events during which it was there. */
  ghost function TimeOn(run: Trace<Event>, uid: string, now: real): real {
    match run
    case Start => 0.0
    case Then(before, e) => TimeOn(before, uid, e.now) + if GpuOn(After(run).runs, uid) then now - e.now else 0.0
  }

  /** Between events usage runs at one hour an hour while a GPU run is on, and stands still otherwise. */
  lemma {:induction false} UsageRate(runs: seq<Run>, uid: string, t: real, now: real)
    requires Timed(runs, t) && Sequential(runs) && t <= now
    ensures Usage(runs, uid, now) == Usage(runs, uid, t) + if GpuOn(runs, uid) then (now - t) / 3600.0 else 0.0
  {
    if runs != [] {
      var k := |runs| - 1;
      UsageRate(runs[..k], uid, t, now);
      LastRowRate(runs, uid, t, now);
    }
  }

  lemma LastRowRate(runs: seq<Run>, uid: string, t: real, now: real)
    requires runs != [] && Timed(runs, t) && Sequential(runs) && t <= now
    ensures var k := |runs| - 1;
            var on := runs[k].active && runs[k].userId == uid && runs[k].gpus > 0;
            && Hours(runs[k], uid, now) == Hours(runs[k], uid, t) + (if on then (now - t) / 3600.0 else 0.0)
            && (on ==> !GpuOn(runs[..k], uid))
            && (GpuOn(runs, uid) <==> on || GpuOn(runs[..k], uid))
  {
    var k := |runs| - 1;
    var on := runs[k].active && runs[k].userId == uid && runs[k].gpus > 0;
    if on {
      assert (now - runs[k].started) / 3600.0 == (t - runs[k].started) / 3600.0 + (now - t) / 3600.0;
    }
    if GpuOn(runs[..k], uid) {
      var i :| 0 <= i < k && runs[..k][i].active && runs[..k][i].userId == uid && runs[..k][i].gpus > 0;
      assert runs[i].active && runs[i].userId == uid && runs[i].gpus > 0;
    }
    if GpuOn(runs, uid) && !on {
      var i :| 0 <= i < |runs| && runs[i].active && runs[i].userId == uid && runs[i].gpus > 0;
      assert runs[..k][i].active;
    }
  }

  /** The later table differs in nothing that counts at `now`. */
  ghost predicate SameHours(later: seq<Run>, runs: seq<Run>, uid: string, now: real) {
    && |runs| <= |later|
    && (forall i :: 0 <= i < |runs| ==> Hours(later[i], uid, now) == Hours(runs[i], uid, now))
    && (forall i :: |runs| <= i < |later| ==> Hours(later[i], uid, now) == 0.0)
  }

  lemma {:induction false} SameUsage(later: seq<Run>, runs: seq<Run>, uid: string, now: real)
    requires SameHours(later, runs, uid, now)
    ensures Usage(later, uid, now) == Usage(runs, uid, now)
  {
    if |later| > |runs| {
      SameUsage(later[..|later| - 1], runs, uid, now);
    } else if later != [] {
      SameUsage(later[..|later| - 1], runs[..|runs| - 1], uid, now);
    }
  }

  /** A request changes nobody's usage at its own time: what stops has run until now, what starts has not run yet. */
  lemma RequestKeepsUsage(s: State, e: Event, uid: string)
    requires Timed(s.runs, e.now)
    ensures Usage(Step(s, e).runs, uid, e.now) == Usage(s.runs, uid, e.now)
  {
    StepTells(s, e);
    MomentHours(s, e, uid);
    ClearHours(Moment(s, e), Tells(s, e), uid, e.now);
    SameUsage(Moment(s, e), s.runs, uid, e.now);
    SameUsage(Step(s, e).runs, Moment(s, e), uid, e.now);
  }

  lemma MomentHours(s: State, e: Event, uid: string)
    requires Timed(s.runs, e.now)
    ensures SameHours(Moment(s, e), s.runs, uid, e.now)
  {
    if Places(s, e) || (e.StopE? && e.hubOk) {
      ActiveRunExactly(s.runs, e.uid);
    }
  }

  lemma ClearHours(runs: seq<Run>, told: Option<nat>, uid: string, now: real)
    ensures SameHours(Clear(runs, told), runs, uid, now)
  {
  }

  /**
   The GPU hours of a user are exactly the hours during which that user has had an active run charged for a GPU, in
   every run of requests and at every time.
   */
  lemma {:induction false} UsageIsTimeOn(run: Trace<Event>, uid: string, now: real)
    requires MonotoneUpTo(run, TimeOf, now)
    ensures Usage(After(run).runs, uid, now) == TimeOn(run, uid, now) / 3600.0
  {
    match run
    case Start =>
    case Then(before, e) =>
      UsageIsTimeOn(before, uid, e.now);
      Reachable(before, e.now);
      Reachable(run, e.now);
      RequestKeepsUsage(After(before), e, uid);
      UsageRate(After(run).runs, uid, e.now, now);
  }

  /** While a run with the GPU profile, or a boost, is on a named node, its user's usage grows by an hour an hour. */
  lemma GpuRunIsCharged(run: Trace<Event>, i: nat, t: real, now: real)
    requires MonotoneUpTo(run, TimeOf, t) && t <= now && i < |After(run).runs|
    requires var r := After(run).runs[i]; r.active && r.node != "" && (r.profile == "gpu" || r.mode == Boosted)
    ensures var uid := After(run).runs[i].userId;
            Usage(After(run).runs, uid, now) == Usage(After(run).runs, uid, t) + (now - t) / 3600.0
  {
    ChargedExactly(run, i);
    Reachable(run, t);
    UsageRate(After(run).runs, After(run).runs[i].userId, t, now);
  }

  // ---- Rounding --------------------------------------------------------------------------------------------------

  /** `n` is the whole number of hundredths nearest to `x`; halfway between two it is the even one. */
  ghost predicate Nearest(n: int, x: real) {
    && x - 0.005 <= n as real / 100.0 <= x + 0.005
    && (n as real / 100.0 == x - 0.005 || n as real / 100.0 == x + 0.005 ==> n % 2 == 0)
  }

  lemma NearestIsOne(n: int, m: int, x: real)
    requires Nearest(n, x) && Nearest(m, x)
    ensures n == m
  {
  }

  /** The figure is the nearest number of hundredths, ties going to the even one. */
  lemma Round2Nearest(x: real) returns (n: int)
    ensures Round2(x) == n as real / 100.0 && Nearest(n, x)
  {
    var f := (x * 100.0).Floor;
    var rest := x * 100.0 - f as real;
    n := if rest < 0.5 || (rest == 0.5 && f % 2 == 0) then f else f + 1;
  }

  lemma ReachesExactly(x: real, limit: real)
    ensures Round2(x) >= limit <==> Reaches(x, limit)
  {
    var n := Round2Nearest(x);
    forall m: int | Nearest(m, x) ensures m == n {
      NearestIsOne(n, m, x);
    }
  }

  // ---- Admission -------------------------------------------------------------------------------------------------

  /** The profile a request counts as. */
  function Asked(profile: string): string {
    if profile == "small" || profile == "medium" || profile == "large" || profile == "gpu" then profile else "medium"
  }

  predicate HasGrant(boosts: seq<Boost>, uid: string) {
    exists b :: 0 <= b < |boosts| && boosts[b].userId == uid && boosts[b].status == Approved
  }

  /** To the nearest hundredth, `used` is at least `limit`. */
  ghost predicate Reaches(used: real, limit: real) {
    exists n: int :: Nearest(n, used) && n as real / 100.0 >= limit
  }

  /** The request would use a GPU, and the hours `used`, rounded, have reached the user's quota. */
  ghost predicate OverLimit(s: State, uid: string, profile: string, used: real)
    requires uid in s.accounts
  {
    && s.accounts[uid].quota.Some?
    && (Asked(profile) == "gpu" || HasGrant(s.boosts, uid))
    && Reaches(used, s.accounts[uid].quota.value)
  }

  ghost predicate AdmittedAs(a: Admission, boosts: seq<Boost>, uid: string, profile: string, demoted: bool) {
    && a.overQuota == demoted
    && a.profile == (if demoted && Asked(profile) == "gpu" then "medium" else Asked(profile))
    && a.grant == (if demoted then None else LatestGrant(boosts, uid))
    && (a.grant.Some? <==> !demoted && HasGrant(boosts, uid))
  }

  lemma AdmitExactly(s: State, uid: string, profile: string, now: real, used: real)
    requires uid in s.accounts && Usage(s.runs, uid, now) == used
    ensures AdmittedAs(Admit(s, uid, profile, now), s.boosts, uid, profile, OverLimit(s, uid, profile, used))
  {
    LatestGrantExactly(s.boosts, uid);
    if s.accounts[uid].quota.Some? {
      ReachesExactly(used, s.accounts[uid].quota.value);
    }
  }

  /**
   A launch loses its GPU and keeps its grant exactly when it would have used a GPU and the user has used up the
   quota; any other launch gets the profile asked for and the user's newest grant, if there is one.
   */
  lemma DemotedExactly(run: Trace<Event>, uid: string, profile: string, now: real, s: State, hours: real)
    requires MonotoneUpTo(run, TimeOf, now) && s == After(run) && uid in s.accounts && hours == TimeOn(run, uid, now) / 3600.0
    ensures AdmittedAs(Admit(s, uid, profile, now), s.boosts, uid, profile, OverLimit(s, uid, profile, hours))
  {
    assert Usage(s.runs, uid, now) == hours by {
      UsageIsTimeOn(run, uid, now);
    }
    AdmitExactly(s, uid, profile, now, hours);
  }

  /** The quota notice is sent exactly to the demoted, before anything else. */
  lemma QuotaNoticeExactly(run: Trace<Event>, uid: string, profile: string, now: real, s: State, hours: real)
    requires MonotoneUpTo(run, TimeOf, now) && s == After(run) && uid in s.accounts && hours == TimeOn(run, uid, now) / 3600.0
    ensures Launch(s, uid, profile, false, now).notices
         == s.notices + (if OverLimit(s, uid, profile, hours) then [Notice(uid, QuotaReached)] else [])
  {
    DemotedExactly(run, uid, profile, now, s, hours);
  }
}
