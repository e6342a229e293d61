/**
 Where a launch lands, how large a boost is, who is told, and how accounts change, in terms of the rows of the tables.
 */
module LedgerLandings {
  import opened Prelude
  import opened Scheduler
  import opened Accounting
  import opened Ledger
  import opened LedgerRuns
  import opened LedgerNotices
  import opened LedgerOwnership
  import opened LedgerGrants

  // ---- Where the run lands ---------------------------------------------------------------------------------------

  /** Somebody else's active run is on host `h`. */
  predicate HeldByOther(runs: seq<Run>, uid: string, h: string) {
    exists i :: 0 <= i < |runs| && runs[i].active && runs[i].userId != uid && h in Footprint(runs[i])
  }

  /** The hosts a launch may use: a heartbeat at most 90 seconds old, not draining, and labelled if a GPU is wanted. */
  function Usable(nodes: seq<Node>, gpu: bool, now: real): set<string> {
    set i | 0 <= i < |nodes| && nodes[i].heartbeat.Some? && now - nodes[i].heartbeat.value <= 90.0
            && nodes[i].status != Draining && (gpu ==> nodes[i].gpu) :: nodes[i].hostname
  }

  function Unheld(s: State, uid: string, hosts: set<string>): set<string> {
    set h | h in hosts && !HeldByOther(s.runs, uid, h)
  }

  lemma UsableAreCandidates(nodes: seq<Node>, gpu: bool, now: real)
    ensures (set h | h in OnlineHosts(nodes, gpu, now)) == Usable(nodes, gpu, now)
  {
    OnlineHostsExactly(nodes, gpu, now);
  }

  /** The planner's other runs are the other users' active runs. */
  lemma TallyIsHeld(s: State, uid: string, h: string)
    requires uid in s.accounts && UniqueNames(s.accounts) && Named(s.accounts, s.runs)
    ensures Tally(h, Others(s.runs, s.accounts[uid].username)) == 0 <==> !HeldByOther(s.runs, uid, h)
  {
    var username := s.accounts[uid].username;
    var others := Others(s.runs, username);
    TallyZero(h, others);
    OthersOnly(s.runs, username);
    if HeldByOther(s.runs, uid, h) {
      var i :| 0 <= i < |s.runs| && s.runs[i].active && s.runs[i].userId != uid && h in Footprint(s.runs[i]);
      OthersHas(s.runs, username, i);
    }
    if exists i :: 0 <= i < |others| && h in Footprint(others[i]) {
      var i :| 0 <= i < |others| && h in Footprint(others[i]);
      assert others[i] in s.runs;
    }
  }

  lemma IdleIsUnheld(s: State, uid: string, gpu: bool, now: real)
    requires uid in s.accounts && UniqueNames(s.accounts) && Named(s.accounts, s.runs)
    ensures Idle(OnlineHosts(s.nodes, gpu, now), Others(s.runs, s.accounts[uid].username)) == Unheld(s, uid, Usable(s.nodes, gpu, now))
  {
    UsableAreCandidates(s.nodes, gpu, now);
    forall h ensures Tally(h, Others(s.runs, s.accounts[uid].username)) == 0 <==> !HeldByOther(s.runs, uid, h) {
      TallyIsHeld(s, uid, h);
    }
  }

  /**
   Where a launch lands, in every reachable ledger. Without a usable host it names none. A granted boost of size `n`
   takes max(1, n) unheld usable hosts, or all there are, or else one usable host. Anything else takes an unheld
   usable host to itself if there is one, and shares a usable one if there is not.
   */
  lemma LandsExactly(run: Trace<Event>, e: Event)
    requires MonotoneUpTo(run, TimeOf, e.now) && Places(After(run), e)
    ensures var s := After(run);
            var a := Admit(s, e.uid, e.profile, e.now);
            var hosts := Usable(s.nodes, a.profile == "gpu" || a.grant.Some?, e.now);
            var free := Unheld(s, e.uid, hosts);
            var r := Moment(s, e)[|s.runs|];
            && |Moment(s, e)| == |s.runs| + 1
            && r.userId == e.uid && r.profile == a.profile && r.boostId == a.grant && r.started == e.now && r.active
            && (hosts == {} ==> r.node == "" && r.ddp == [])
            && (a.grant.Some? ==> a.grant.value < |s.boosts|)
            && (a.grant.Some? ==> r.mode == Boosted && LandsBoosted(r, hosts, free, s.boosts[a.grant.value].gpus))
            && (a.grant == None && (hosts == {} || free != {}) ==> r.mode == Exclusive && (hosts != {} ==> r.node in free))
            && (a.grant == None && hosts != {} && free == {} ==> r.mode == Shared && r.shared && r.node in hosts)
  {
    var s := After(run);
    var a := Admit(s, e.uid, e.profile, e.now);
    Reachable(run, e.now);
    AdmittedGrant(s, e.uid, e.profile, e.now);
    PlanLands(s, e.uid, a, e.now);
  }

  /** The hosts of a boost of size `granted`: `all` may be used, and of these `free` are held by nobody else. */
  ghost predicate TakesBoost(gpus: int, ddp: seq<string>, all: set<string>, free: set<string>, granted: int) {
    && gpus == |ddp| && Distinct(ddp) && ddp != []
    && (free != {} ==>
          (forall h :: h in ddp ==> h in free)
          && |ddp| == (if Max(1, granted) < |free| then Max(1, granted) else |free|))
    && (free == {} ==> |ddp| == 1 && ddp[0] in all)
  }

  ghost predicate LandsBoosted(r: Run, hosts: set<string>, free: set<string>, granted: int) {
    && (hosts == {} ==> r.gpus == Max(1, granted))
    && (hosts != {} ==> TakesBoost(r.gpus, r.ddp, hosts, free, granted) && r.node == r.ddp[0])
  }

  lemma PlanLands(s: State, uid: string, a: Admission, now: real)
    requires uid in s.accounts && UniqueNames(s.accounts) && Named(s.accounts, s.runs) && DistinctNodes(s.nodes)
    requires a.grant.Some? ==> a.grant.value < |s.boosts|
    ensures var hosts := Usable(s.nodes, a.profile == "gpu" || a.grant.Some?, now);
            var free := Unheld(s, uid, hosts);
            var r := NewRun(uid, s.accounts[uid].username, a, PlanFor(s, uid, a, now), now);
            && (hosts == {} ==> r.node == "" && r.ddp == [])
            && (a.grant.Some? ==> r.mode == Boosted && LandsBoosted(r, hosts, free, s.boosts[a.grant.value].gpus))
            && (a.grant == None && (hosts == {} || free != {}) ==> r.mode == Exclusive && (hosts != {} ==> r.node in free))
            && (a.grant == None && hosts != {} && free == {} ==> r.mode == Shared && r.shared && r.node in hosts)
  {
    var boost := GrantSize(s, a.grant);
    var hosts, others := Candidates(s, a, now), Others(s.runs, s.accounts[uid].username);
    var all := Usable(s.nodes, WantsGpu(a.profile, boost), now);
    var p := Plan(hosts, others, WantsGpu(a.profile, boost), boost);
    OnlineHostsDistinct(s.nodes, WantsGpu(a.profile, boost), now);
    UsableAreCandidates(s.nodes, WantsGpu(a.profile, boost), now);
    IdleIsUnheld(s, uid, WantsGpu(a.profile, boost), now);
    if boost.Some? {
      BoostLands(hosts, all, others, WantsGpu(a.profile, boost), boost.value, p);
    } else {
      OtherLands(hosts, all, others, WantsGpu(a.profile, boost), p);
    }
  }

  lemma BoostLands(hosts: seq<string>, all: set<string>, runs: seq<Run>, wantsGpu: bool, granted: int, p: Placement)
    requires Distinct(hosts) && (forall h :: h in all <==> h in hosts) && p == Plan(hosts, runs, wantsGpu, Some(granted))
    ensures p.mode == Boosted && (hosts == [] ==> p.node == None && p.ddp == [] && p.gpus == Max(1, granted))
    ensures hosts != [] ==> all != {} && TakesBoost(p.gpus, p.ddp, all, Idle(hosts, runs), granted) && p.node == Some(p.ddp[0])
  {
    PlanNamesHosts(hosts, runs, wantsGpu, Some(granted));
    if hosts != [] {
      assert hosts[0] in all;
      BoostTakesIdle(hosts, runs, wantsGpu, granted);
    }
  }

  lemma OtherLands(hosts: seq<string>, all: set<string>, runs: seq<Run>, wantsGpu: bool, p: Placement)
    requires Distinct(hosts) && (forall h :: h in all <==> h in hosts) && p == Plan(hosts, runs, wantsGpu, None)
    ensures p.ddp == [] && (hosts == [] ==> p.node == None && p.mode == Exclusive)
    ensures Idle(hosts, runs) != {} ==> p.mode == Exclusive && p.node.Some? && p.node.value in Idle(hosts, runs)
    ensures hosts != [] ==> all != {}
    ensures hosts != [] && Idle(hosts, runs) == {} ==> p.mode == Shared && p.shared && p.node.Some? && p.node.value in all
  {
    PlanNamesHosts(hosts, runs, wantsGpu, None);
    FreeAreIdle(hosts, runs);
    if hosts != [] {
      assert hosts[0] in all;
    }
  }

  /**
   The size an administrator gives is the size that is launched with, however much later: the launch that uses the
   grant takes as many hosts as were given, not as were asked for.
   */
  lemma GivenSizeIsLaunched(before: Trace<Event>, id: nat, granted: Option<int>, at: real, later: Trace<Event>, e: Event)
    requires id < |After(before).boosts| && After(before).boosts[id].status == Pending
    requires Follows(later, Then(before, ApproveE(id, granted, at)))
    requires MonotoneUpTo(later, TimeOf, e.now) && Places(After(later), e)
    requires Admit(After(later), e.uid, e.profile, e.now).grant == Some(id)
    ensures id < |After(later).boosts| && SizeGiven(After(later).boosts[id].gpus, After(before).boosts[id].gpus, granted)
    ensures var s := After(later);
            var hosts := Usable(s.nodes, true, e.now);
            var r := Moment(s, e)[|s.runs|];
            r.mode == Boosted && LandsBoosted(r, hosts, Unheld(s, e.uid, hosts), s.boosts[id].gpus)
  {
    DecisionsExactly(After(before), ApproveE(id, granted, at), id);
    DealStays(Then(before, ApproveE(id, granted, at)), later, id);
    LandsExactly(later, e);
  }

  // ---- What is told on the way -------------------------------------------------------------------------------------

  /** What recording a launch tells: the sharers, then the boost. */
  ghost function RecordTells(s: State, uid: string, a: Admission, p: Placement): seq<Notice>
    requires uid in s.accounts
  {
    SharingNotices(uid, s.accounts[uid].username, p.node.GetOr(""), p.colocated)
    + if a.grant.Some? then [Notice(uid, BoostActive(p.gpus))] else []
  }

  lemma RecordTellsExactly(s: State, uid: string, a: Admission, now: real)
    requires uid in s.accounts
    ensures Record(s, uid, a, now).notices == s.notices + RecordTells(s, uid, a, PlanFor(s, uid, a, now))
  {
  }

  lemma AnnounceTellsExactly(s: State, freed: string, kept: string)
    ensures Release(s, freed, kept).notices
         == s.notices + if freed == "" || freed == kept then [] else Word(s.runs, Promoted(s.runs, freed), freed)
  {
  }

  lemma WarnKeepsPlan(s: State, uid: string, a: Admission, now: real)
    requires uid in s.accounts
    ensures PlanFor(Warn(s, uid, a), uid, a, now) == PlanFor(s, uid, a, now)
  {
  }

  lemma LaunchRecords(s: State, e: Event, a: Admission, p: Placement) returns (recorded: State)
    requires Places(s, e) && a == Admit(s, e.uid, e.profile, e.now) && p == PlanFor(s, e.uid, a, e.now)
    ensures Step(s, e) == Release(recorded, NodeAt(s.runs, ActiveRun(s.runs, e.uid)), p.node.GetOr(""))
    ensures recorded.runs == Moment(s, e)
    ensures recorded.notices
         == s.notices + (if a.overQuota then [Notice(e.uid, QuotaReached)] else []) + RecordTells(s, e.uid, a, p)
  {
    var warned := Warn(s, e.uid, a);
    WarnKeepsPlan(s, e.uid, a, e.now);
    RecordTellsExactly(warned, e.uid, a, e.now);
    recorded := Record(warned, e.uid, a, e.now);
  }

  /** The notices of a launch that goes through, in order: the quota, the sharers, the boost, the freed host. */
  lemma LaunchTellsExactly(s: State, e: Event, a: Admission, p: Placement)
    requires Places(s, e) && a == Admit(s, e.uid, e.profile, e.now) && p == PlanFor(s, e.uid, a, e.now)
    ensures Step(s, e).notices
         == s.notices + (if a.overQuota then [Notice(e.uid, QuotaReached)] else []) + RecordTells(s, e.uid, a, p)
            + Word(Moment(s, e), Tells(s, e), Freed(s, e))
  {
    var recorded := LaunchRecords(s, e, a, p);
    AnnounceTellsExactly(recorded, NodeAt(s.runs, ActiveRun(s.runs, e.uid)), p.node.GetOr(""));
  }

  // ---- Accounts ----------------------------------------------------------------------------------------------------

  /** Accounts change by a new one, whose id and name are free, and by a quota set; by nothing else. */
  lemma AccountsChangeExactly(s: State, e: Event)
    ensures var accounts := Step(s, e).accounts;
            && (forall u :: u in accounts <==>
                  || u in s.accounts
                  || (e.AddAccountE? && u == e.uid && forall v :: v in s.accounts ==> s.accounts[v].username != e.username))
            && (forall u :: u in s.accounts ==>
                  && accounts[u].username == s.accounts[u].username
                  && accounts[u].quota == if e.SetQuotaE? && u == e.uid then e.limit else s.accounts[u].quota)
            && (forall u :: u in accounts && u !in s.accounts ==> accounts[u] == Account(e.username, None))
  {
    if e.LaunchE? {
      LaunchKeepsCluster(s, e.uid, e.profile, e.hubOk, e.now);
    }
  }
}
