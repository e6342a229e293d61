/**
 Who owns which host. An exclusive run, or a boost that was placed on free hosts, shares no host with any
 other such run, in every reachable ledger; the one exception is a boost that found no free host.
 */
module LedgerOwnership {
  import opened Prelude
  import opened Scheduler
  import opened Ledger
  import opened LedgerRuns

  /** Whether launching `uid` now is a boost that finds every eligible host busy. */
  predicate FallsBack(s: State, uid: string, profile: string, now: real) {
    && uid in s.accounts
    && var a := Admit(s, uid, profile, now);
       && a.grant.Some? && GrantSize(s, a.grant).Some? && Candidates(s, a, now) != []
       && FreeHosts(Candidates(s, a, now), Others(s.runs, s.accounts[uid].username)) == []
  }

  /** The positions of the runs that were boosted onto a busy host, over a whole run. */
  function Fallbacks(run: Trace<Event>): set<nat> {
    match run
    case Start => {}
    case Then(before, e) =>
      var s := After(before);
      if e.LaunchE? && e.hubOk && FallsBack(s, e.uid, e.profile, e.now)
      then Fallbacks(before) + {|s.runs|} else Fallbacks(before)
  }

  /** An active run that was given its hosts for itself. */
  predicate Owner(runs: seq<Run>, fallbacks: set<nat>, i: nat)
    requires i < |runs|
  {
    runs[i].active && runs[i].mode != Shared && i !in fallbacks
  }

  /** Only the empty name, which stands for "no particular host", may be common to two owners. */
  ghost predicate DisjointOwners(runs: seq<Run>, fallbacks: set<nat>) {
    forall i, j :: 0 <= i < j < |runs| && Owner(runs, fallbacks, i) && Owner(runs, fallbacks, j) ==>
      Footprint(runs[i]) * Footprint(runs[j]) <= {""}
  }

  lemma {:induction false} OthersHas(runs: seq<Run>, username: string, i: nat)
    requires i < |runs| && runs[i].active && runs[i].username != username
    ensures runs[i] in Others(runs, username)
  {
    var k := |runs| - 1;
    if i < k {
      OthersHas(runs[..k], username, i);
    }
  }

  lemma {:induction false} OthersOnly(runs: seq<Run>, username: string)
    ensures forall r :: r in Others(runs, username) ==> r in runs && r.active && r.username != username
  {
    if runs != [] {
      OthersOnly(runs[..|runs| - 1], username);
    }
  }

  /** An active run that survives a launch's halt belongs to somebody else, so the planner saw it. */
  lemma SurvivorIsOther(s: State, uid: string, now: real, i: nat)
    requires uid in s.accounts && RunsOk(s.accounts, s.runs, now) && i < |s.runs|
    requires HaltAt(s.runs, ActiveRun(s.runs, uid), now)[i].active
    ensures s.runs[i] in Others(s.runs, s.accounts[uid].username)
  {
    HaltKeeps(s.accounts, s.runs, uid, now, now);
    var halted := HaltAt(s.runs, ActiveRun(s.runs, uid), now);
    assert halted[i].userId == s.runs[i].userId;
    OthersHas(s.runs, s.accounts[uid].username, i);
  }

  lemma NewFootprint(s: State, uid: string, a: Admission, now: real)
    requires uid in s.accounts
    ensures Footprint(NewRun(uid, s.accounts[uid].username, a, PlanFor(s, uid, a, now), now))
         == Claimed(PlanFor(s, uid, a, now))
  {
  }

  lemma UntouchedFootprint(claimed: set<string>, runs: seq<Run>, r: Run)
    requires !Touches(claimed, runs) && r in runs
    ensures claimed * Footprint(r) == {}
  {
    var i :| 0 <= i < |runs| && runs[i] == r;
    forall h | h in claimed ensures h !in Footprint(r) {
      TouchWitness(claimed, runs, i, h);
    }
  }

  lemma TouchWitness(claimed: set<string>, runs: seq<Run>, i: nat, h: string)
    requires i < |runs|
    ensures h in claimed && h in Footprint(runs[i]) ==> Touches(claimed, runs)
  {
  }

  /** A new owner's hosts belong to nobody else. */
  lemma NewOwnerAlone(s: State, uid: string, profile: string, now: real, i: nat)
    requires uid in s.accounts && DistinctNodes(s.nodes) && RunsOk(s.accounts, s.runs, now) && i < |s.runs|
    requires HaltAt(s.runs, ActiveRun(s.runs, uid), now)[i].active
    requires PlanFor(s, uid, Admit(s, uid, profile, now), now).mode != Shared && !FallsBack(s, uid, profile, now)
    ensures Claimed(PlanFor(s, uid, Admit(s, uid, profile, now), now)) * Footprint(s.runs[i]) <= {""}
  {
    var a := Admit(s, uid, profile, now);
    var boost := GrantSize(s, a.grant);
    var hosts, others := Candidates(s, a, now), Others(s.runs, s.accounts[uid].username);
    if hosts != [] {
      OnlineHostsDistinct(s.nodes, WantsGpu(a.profile, boost), now);
      PlanTouchesExactly(hosts, others, WantsGpu(a.profile, boost), boost);
      SurvivorIsOther(s, uid, now, i);
      UntouchedFootprint(Claimed(PlanFor(s, uid, a, now)), others, s.runs[i]);
    }
  }

  lemma HaltDisjoint(runs: seq<Run>, fallbacks: set<nat>, a: Option<nat>, now: real)
    requires DisjointOwners(runs, fallbacks)
    ensures DisjointOwners(HaltAt(runs, a, now), fallbacks)
  {
    var halted := HaltAt(runs, a, now);
    forall i, j | 0 <= i < j < |halted| && Owner(halted, fallbacks, i) && Owner(halted, fallbacks, j)
      ensures Footprint(halted[i]) * Footprint(halted[j]) <= {""}
    {
      assert Owner(runs, fallbacks, i) && Owner(runs, fallbacks, j);
    }
  }

  lemma AnnounceDisjoint(runs: seq<Run>, fallbacks: set<nat>, freed: string, kept: string)
    requires DisjointOwners(runs, fallbacks)
    ensures DisjointOwners(ReleaseRuns(runs, freed, kept), fallbacks)
  {
    var told := ReleaseRuns(runs, freed, kept);
    forall i, j | 0 <= i < j < |told| && Owner(told, fallbacks, i) && Owner(told, fallbacks, j)
      ensures Footprint(told[i]) * Footprint(told[j]) <= {""}
    {
      assert Owner(runs, fallbacks, i) && Owner(runs, fallbacks, j);
    }
  }

  lemma AppendDisjoint(runs: seq<Run>, fallbacks: set<nat>, r: Run, fallbacks': set<nat>)
    requires DisjointOwners(runs, fallbacks)
    requires fallbacks' == fallbacks || fallbacks' == fallbacks + {|runs|}
    requires r.mode != Shared && |runs| !in fallbacks' ==>
               forall i :: 0 <= i < |runs| && runs[i].active ==> Footprint(r) * Footprint(runs[i]) <= {""}
    ensures DisjointOwners(runs + [r], fallbacks')
  {
    var all := runs + [r];
    forall i, j | 0 <= i < j < |all| && Owner(all, fallbacks', i) && Owner(all, fallbacks', j)
      ensures Footprint(all[i]) * Footprint(all[j]) <= {""}
    {
      if j < |runs| {
        assert Owner(runs, fallbacks, i) && Owner(runs, fallbacks, j);
      } else {
        assert Footprint(all[i]) * Footprint(all[j]) == Footprint(r) * Footprint(runs[i]);
      }
    }
  }

  lemma LaunchDisjoint(s: State, uid: string, profile: string, now: real, fallbacks: set<nat>)
    requires uid in s.accounts && DistinctNodes(s.nodes) && RunsOk(s.accounts, s.runs, now)
    requires DisjointOwners(s.runs, fallbacks)
    ensures DisjointOwners(Launch(s, uid, profile, true, now).runs,
                           if FallsBack(s, uid, profile, now) then fallbacks + {|s.runs|} else fallbacks)
  {
    var a, old_ := Admit(s, uid, profile, now), ActiveRun(s.runs, uid);
    var p := PlanFor(s, uid, a, now);
    var r := NewRun(uid, s.accounts[uid].username, a, p, now);
    var halted := HaltAt(s.runs, old_, now);
    var fallbacks' := if FallsBack(s, uid, profile, now) then fallbacks + {|s.runs|} else fallbacks;
    HaltDisjoint(s.runs, fallbacks, old_, now);
    NewFootprint(s, uid, a, now);
    forall i | r.mode != Shared && |halted| !in fallbacks' && 0 <= i < |halted| && halted[i].active
      ensures Footprint(r) * Footprint(halted[i]) <= {""}
    {
      NewOwnerAlone(s, uid, profile, now, i);
      assert Footprint(halted[i]) == Footprint(s.runs[i]);
    }
    AppendDisjoint(halted, fallbacks, r, fallbacks');
    AnnounceDisjoint(halted + [r], fallbacks', NodeAt(s.runs, old_), p.node.GetOr(""));
    LaunchRuns(s, uid, profile, now);
  }

  lemma StopDisjoint(s: State, uid: string, now: real, fallbacks: set<nat>)
    requires DisjointOwners(s.runs, fallbacks)
    ensures DisjointOwners(Stop(s, uid, true, now).runs, fallbacks)
  {
    var old_ := ActiveRun(s.runs, uid);
    HaltDisjoint(s.runs, fallbacks, old_, now);
    AnnounceDisjoint(HaltAt(s.runs, old_, now), fallbacks, NodeAt(s.runs, old_), "");
    StopRuns(s, uid, now);
  }

  /**
   Disjoint ownership: in every ledger reachable by serialised requests, the hosts of active runs placed
   exclusively, or boosted onto free hosts, are pairwise disjoint.
   */
  lemma {:induction false} OwnersDisjoint(run: Trace<Event>, now: real)
    requires MonotoneUpTo(run, TimeOf, now)
    ensures DisjointOwners(After(run).runs, Fallbacks(run))
  {
    match run
    case Start =>
    case Then(before, e) =>
      var s := After(before);
      OwnersDisjoint(before, e.now);
      Reachable(before, e.now);
      if TouchesRuns(e) && e.LaunchE? && e.uid in s.accounts {
        LaunchDisjoint(s, e.uid, e.profile, e.now, Fallbacks(before));
      } else if TouchesRuns(e) && e.StopE? {
        StopDisjoint(s, e.uid, e.now, Fallbacks(before));
      } else {
        assert After(run).runs == s.runs && Fallbacks(run) == Fallbacks(before);
      }
  }

  // ---- Counting what is really there -------------------------------------------------------------------

  lemma OthersPeersDistinct(runs: seq<Run>, username: string)
    requires PeersOk(runs)
    ensures PeersDistinct(Others(runs, username))
  {
    OthersOnly(runs, username);
    forall i | 0 <= i < |Others(runs, username)| ensures Distinct(Others(runs, username)[i].ddp) {
      assert Others(runs, username)[i] in runs;
    }
  }

  /**
   In every reachable ledger the planner's counts are right: each host counts the runs whose footprint contains it,
   and the counts of any distinct hosts add up to those footprints.
   */
  lemma CountsAreTrue(run: Trace<Event>, username: string, hosts: seq<string>, now: real)
    requires MonotoneUpTo(run, TimeOf, now) && Distinct(hosts)
    ensures var others := Others(After(run).runs, username);
            && (forall h :: h in hosts ==> Tally(h, others) == Load(h, others))
            && TotalTally(hosts, others) == TotalListed(hosts, others)
  {
    var others := Others(After(run).runs, username);
    assert PeersDistinct(others) by {
      Reachable(run, now);
      OthersPeersDistinct(After(run).runs, username);
    }
    forall h | h in hosts ensures Tally(h, others) == Load(h, others) {
      TallyIsLoad(h, others);
    }
    OccupancyConserved(hosts, others);
  }

  // ---- GPU reservations ----------------------------------------------------------------------------------

  /** What `pre_spawn_hook` of jupyterhub/jupyterhub_config.py makes of a placement in swarm mode. */
  datatype Spawn = Spawn(wantsGpu: bool, reservesGpu: bool, visibleDevices: Option<string>, pin: Option<string>)

  function PreSpawn(profile: string, mode: Mode, pin: Option<string>, gpuEnabled: bool): Spawn {
    var want := (profile == "gpu" || mode == Boosted) && gpuEnabled;
    var reserve := want && (mode == Exclusive || mode == Boosted);
    Spawn(want, reserve, if want && !reserve then Some("all") else if !want then Some("void") else None, pin)
  }

  /** The spawn of a recorded run; the gateway passes no pin for an empty node name. */
  function SpawnOf(r: Run, gpuEnabled: bool): Spawn {
    PreSpawn(r.profile, r.mode, if r.node == "" then None else Some(r.node), gpuEnabled)
  }

  /** No named host carries two GPU reservations, unless one of them is a boost that found every host busy. */
  lemma NoDoubleReservation(run: Trace<Event>, now: real, gpuEnabled: bool, i: nat, j: nat)
    requires MonotoneUpTo(run, TimeOf, now)
    requires i < j < |After(run).runs| && After(run).runs[i].active && After(run).runs[j].active
    requires SpawnOf(After(run).runs[i], gpuEnabled).reservesGpu && SpawnOf(After(run).runs[j], gpuEnabled).reservesGpu
    requires SpawnOf(After(run).runs[i], gpuEnabled).pin.Some?
    requires SpawnOf(After(run).runs[i], gpuEnabled).pin == SpawnOf(After(run).runs[j], gpuEnabled).pin
    ensures i in Fallbacks(run) || j in Fallbacks(run)
  {
    OwnersDisjoint(run, now);
    var runs := After(run).runs;
    assert runs[i].node in Footprint(runs[i]) * Footprint(runs[j]);
    assert Owner(runs, Fallbacks(run), i) <==> i !in Fallbacks(run);
    assert Owner(runs, Fallbacks(run), j) <==> j !in Fallbacks(run);
  }

  /** A run whose spawn is pinned to `host` and reserves its GPU. */
  predicate Reserves(r: Run, host: string, gpuEnabled: bool) {
    SpawnOf(r, gpuEnabled).reservesGpu && SpawnOf(r, gpuEnabled).pin == Some(host)
  }

  /** Where a launch falls back to; no name when it does not. */
  function FallbackHost(s: State, uid: string, profile: string, now: real): string {
    if !FallsBack(s, uid, profile, now) then ""
    else
      var hosts := Candidates(s, Admit(s, uid, profile, now), now);
      if hosts == [] || uid !in s.accounts then "" else LeastLoaded(hosts, Others(s.runs, s.accounts[uid].username))
  }

  /** The launched run and one that was there before it reserve the GPU of the same host. */
  ghost predicate ReservedTwice(later: seq<Run>, n: nat, gpuEnabled: bool) {
    n < |later| && exists i, host :: 0 <= i < n && later[i].active && Reserves(later[i], host, gpuEnabled)
                                     && Reserves(later[n], host, gpuEnabled)
  }

  /** Somebody else's active run reserves `host`. */
  predicate OtherReserves(runs: seq<Run>, uid: string, host: string, gpuEnabled: bool) {
    exists i :: 0 <= i < |runs| && runs[i].active && runs[i].userId != uid && Reserves(runs[i], host, gpuEnabled)
  }

  /** The rows after a launch: everybody else's as before, the user's old one halted, and the new one. */
  ghost predicate RowsAfter(later: seq<Run>, runs: seq<Run>, uid: string, r: Run) {
    && |later| == |runs| + 1
    && SameSpawn(later[|runs|], r)
    && forall i :: 0 <= i < |runs| ==>
         SameSpawn(later[i], runs[i]) && (later[i].active <==> runs[i].active && runs[i].userId != uid)
  }

  /** Nothing that decides a reservation differs. */
  predicate SameSpawn(r: Run, t: Run) {
    r.node == t.node && r.mode == t.mode && r.profile == t.profile
  }

  lemma HaltedRows(runs: seq<Run>, uid: string, last: real, now: real)
    requires Timed(runs, last) && Sequential(runs)
    ensures var halted := HaltAt(runs, ActiveRun(runs, uid), now);
            && |halted| == |runs|
            && forall i :: 0 <= i < |runs| ==>
                 SameSpawn(halted[i], runs[i]) && (halted[i].active <==> runs[i].active && runs[i].userId != uid)
  {
    ActiveRunExactly(runs, uid);
    HaltLeavesNone(runs, uid, last, now);
  }

  lemma ReleasedRows(runs: seq<Run>, freed: string, kept: string)
    ensures var told := ReleaseRuns(runs, freed, kept);
            |told| == |runs| && forall i :: 0 <= i < |runs| ==> SameSpawn(told[i], runs[i]) && told[i].active == runs[i].active
  {
  }

  lemma TableAfter(runs: seq<Run>, uid: string, r: Run, freed: string, kept: string, last: real, now: real)
    requires Timed(runs, last) && Sequential(runs)
    ensures RowsAfter(ReleaseRuns(HaltAt(runs, ActiveRun(runs, uid), now) + [r], freed, kept), runs, uid, r)
  {
    HaltedRows(runs, uid, last, now);
    ReleasedRows(HaltAt(runs, ActiveRun(runs, uid), now) + [r], freed, kept);
  }

  function LaunchedRun(s: State, uid: string, profile: string, now: real): Run
    requires uid in s.accounts
  {
    var a := Admit(s, uid, profile, now);
    NewRun(uid, s.accounts[uid].username, a, PlanFor(s, uid, a, now), now)
  }

  lemma RowsAfterLaunch(s: State, uid: string, profile: string, last: real, now: real)
    requires uid in s.accounts && Timed(s.runs, last) && Sequential(s.runs)
    ensures RowsAfter(Launch(s, uid, profile, true, now).runs, s.runs, uid, LaunchedRun(s, uid, profile, now))
  {
    var a := Admit(s, uid, profile, now);
    LaunchRuns(s, uid, profile, now);
    TableAfter(s.runs, uid, LaunchedRun(s, uid, profile, now), NodeAt(s.runs, ActiveRun(s.runs, uid)),
               PlanFor(s, uid, a, now).node.GetOr(""), last, now);
  }

  /** Reservations are decided by the rows before the launch and by the new run. */
  lemma TwiceByRows(later: seq<Run>, runs: seq<Run>, uid: string, r: Run, gpuEnabled: bool)
    requires RowsAfter(later, runs, uid, r)
    ensures ReservedTwice(later, |runs|, gpuEnabled)
            <==> exists host :: Reserves(r, host, gpuEnabled) && OtherReserves(runs, uid, host, gpuEnabled)
  {
    forall i, host | 0 <= i < |runs| ensures Reserves(later[i], host, gpuEnabled) <==> Reserves(runs[i], host, gpuEnabled) {
      assert SameSpawn(later[i], runs[i]);
    }
    forall host ensures Reserves(later[|runs|], host, gpuEnabled) <==> Reserves(r, host, gpuEnabled) {
    }
    if ReservedTwice(later, |runs|, gpuEnabled) {
      var i, host :| 0 <= i < |runs| && later[i].active && Reserves(later[i], host, gpuEnabled)
                     && Reserves(later[|runs|], host, gpuEnabled);
      assert OtherReserves(runs, uid, host, gpuEnabled);
    }
    if host :| Reserves(r, host, gpuEnabled) && OtherReserves(runs, uid, host, gpuEnabled) {
      var i :| 0 <= i < |runs| && runs[i].active && runs[i].userId != uid && Reserves(runs[i], host, gpuEnabled);
      assert later[i].active && Reserves(later[i], host, gpuEnabled);
    }
  }

  lemma BothOn(s: State, uid: string, profile: string, now: real, i: nat, host: string)
    requires uid in s.accounts && i < |s.runs| && s.runs[i].node == host && LaunchedRun(s, uid, profile, now).node == host
    ensures host in Claimed(PlanFor(s, uid, Admit(s, uid, profile, now), now)) * Footprint(s.runs[i])
  {
  }

  /** A run that meets somebody else's and does not share is at the fallback host. */
  lemma SecondIsFallback(s: State, uid: string, profile: string, now: real, i: nat, host: string)
    requires uid in s.accounts && DistinctNodes(s.nodes) && RunsOk(s.accounts, s.runs, now) && i < |s.runs|
    requires s.runs[i].active && s.runs[i].userId != uid && s.runs[i].node == host && host != ""
    requires LaunchedRun(s, uid, profile, now).node == host && LaunchedRun(s, uid, profile, now).mode != Shared
    ensures FallbackHost(s, uid, profile, now) == host
  {
    HaltedRows(s.runs, uid, now, now);
    BothOn(s, uid, profile, now, i, host);
    if !FallsBack(s, uid, profile, now) {
      NewOwnerAlone(s, uid, profile, now, i);
    }
  }

  lemma FallbackRun(s: State, uid: string, profile: string, now: real, gpuEnabled: bool)
    requires uid in s.accounts && FallbackHost(s, uid, profile, now) != "" && gpuEnabled
    ensures Reserves(LaunchedRun(s, uid, profile, now), FallbackHost(s, uid, profile, now), gpuEnabled)
  {
  }

  /**
   In every reachable ledger a launch puts a second GPU reservation on a host exactly when it is a boost that finds
   every eligible host busy and somebody else's active run reserves the least-loaded one, to which it falls back.
   */
  lemma SecondReservationExactly(run: Trace<Event>, uid: string, profile: string, now: real, gpuEnabled: bool)
    requires MonotoneUpTo(run, TimeOf, now) && uid in After(run).accounts
    ensures var s := After(run);
            var host := FallbackHost(s, uid, profile, now);
            ReservedTwice(Launch(s, uid, profile, true, now).runs, |s.runs|, gpuEnabled)
            <==> host != "" && OtherReserves(s.runs, uid, host, gpuEnabled)
  {
    Reachable(run, now);
    SecondReservation(After(run), uid, profile, now, gpuEnabled);
  }

  lemma SecondReservation(s: State, uid: string, profile: string, now: real, gpuEnabled: bool)
    requires uid in s.accounts && DistinctNodes(s.nodes) && RunsOk(s.accounts, s.runs, now)
    ensures var host := FallbackHost(s, uid, profile, now);
            ReservedTwice(Launch(s, uid, profile, true, now).runs, |s.runs|, gpuEnabled)
            <==> host != "" && OtherReserves(s.runs, uid, host, gpuEnabled)
  {
    var r, fallback := LaunchedRun(s, uid, profile, now), FallbackHost(s, uid, profile, now);
    RowsAfterLaunch(s, uid, profile, now, now);
    TwiceByRows(Launch(s, uid, profile, true, now).runs, s.runs, uid, r, gpuEnabled);
    forall host | Reserves(r, host, gpuEnabled) && OtherReserves(s.runs, uid, host, gpuEnabled) ensures host == fallback != "" {
      OnlyAtFallback(s, uid, profile, now, gpuEnabled, host);
    }
    if fallback != "" && OtherReserves(s.runs, uid, fallback, gpuEnabled) {
      FallbackRun(s, uid, profile, now, gpuEnabled);
    }
  }

  lemma OnlyAtFallback(s: State, uid: string, profile: string, now: real, gpuEnabled: bool, host: string)
    requires uid in s.accounts && DistinctNodes(s.nodes) && RunsOk(s.accounts, s.runs, now)
    requires Reserves(LaunchedRun(s, uid, profile, now), host, gpuEnabled) && OtherReserves(s.runs, uid, host, gpuEnabled)
    ensures host == FallbackHost(s, uid, profile, now) != ""
  {
    var i :| 0 <= i < |s.runs| && s.runs[i].active && s.runs[i].userId != uid && Reserves(s.runs[i], host, gpuEnabled);
    SecondIsFallback(s, uid, profile, now, i, host);
  }
}
