/**
 What every reachable ledger keeps true of its runs: they are named by unique accounts, each user's runs
 follow one another in time with at most one active, and boost peers are distinct and start with the node.
 */
module LedgerRuns {
  import opened Prelude
  import opened Scheduler
  import opened Accounting
  import opened Ledger

  ghost predicate UniqueNames(accounts: map<string, Account>) {
    forall u, v :: u in accounts && v in accounts && accounts[u].username == accounts[v].username ==> u == v
  }

  ghost predicate Named(accounts: map<string, Account>, runs: seq<Run>) {
    forall i :: 0 <= i < |runs| ==> runs[i].userId in accounts && accounts[runs[i].userId].username == runs[i].username
  }

  ghost predicate Timed(runs: seq<Run>, now: real) {
    forall i :: 0 <= i < |runs| ==>
      && runs[i].started <= now
      && (runs[i].active <==> runs[i].stopped == None)
      && (runs[i].stopped.Some? ==> runs[i].started <= runs[i].stopped.value <= now)
  }

  /** A user's earlier runs have stopped by the time a later one starts. */
  ghost predicate Sequential(runs: seq<Run>) {
    forall i, j :: 0 <= i < j < |runs| && runs[i].userId == runs[j].userId ==>
      runs[i].stopped.Some? && runs[i].stopped.value <= runs[j].started
  }

  ghost predicate PeersOk(runs: seq<Run>) {
    forall i :: 0 <= i < |runs| ==>
      && Distinct(runs[i].ddp)
      && (runs[i].ddp != [] ==> runs[i].node == runs[i].ddp[0])
      && (runs[i].shared ==> runs[i].mode == Shared)
      && (runs[i].mode != Boosted ==> runs[i].ddp == [])
  }

  ghost predicate RunsOk(accounts: map<string, Account>, runs: seq<Run>, now: real) {
    UniqueNames(accounts) && Named(accounts, runs) && Timed(runs, now) && Sequential(runs) && PeersOk(runs)
  }

  // ---- The three ways a table of runs changes ---------------------------------------------------------

  lemma {:induction false} ActiveRunExactly(runs: seq<Run>, uid: string)
    ensures ActiveRun(runs, uid) == None <==> forall i :: 0 <= i < |runs| ==> !(runs[i].userId == uid && runs[i].active)
    ensures ActiveRun(runs, uid).Some? ==>
              var i := ActiveRun(runs, uid).value; i < |runs| && runs[i].userId == uid && runs[i].active
  {
    if runs != [] {
      ActiveRunExactly(runs[..|runs| - 1], uid);
      assert forall i :: 0 <= i < |runs| - 1 ==> runs[..|runs| - 1][i] == runs[i];
    }
  }

  ghost predicate NoneActive(runs: seq<Run>, uid: string) {
    forall i :: 0 <= i < |runs| && runs[i].userId == uid ==> !runs[i].active
  }

  lemma HaltLeavesNone(runs: seq<Run>, uid: string, last: real, now: real)
    requires Timed(runs, last) && Sequential(runs)
    ensures NoneActive(HaltAt(runs, ActiveRun(runs, uid), now), uid)
  {
    ActiveRunExactly(runs, uid);
    var a := ActiveRun(runs, uid);
    if a.Some? {
      forall j | 0 <= j < |runs| && runs[j].userId == uid && j != a.value ensures !runs[j].active {
        if j < a.value {
          assert runs[j].stopped.Some?;
        } else {
          assert runs[a.value].stopped == None;
        }
      }
    }
  }

  lemma HaltTimed(runs: seq<Run>, a: Option<nat>, last: real, now: real)
    requires Timed(runs, last) && last <= now
    ensures Timed(HaltAt(runs, a, now), now)
  {
  }

  lemma HaltSequential(runs: seq<Run>, uid: string, last: real, now: real)
    requires Timed(runs, last) && Sequential(runs)
    ensures Sequential(HaltAt(runs, ActiveRun(runs, uid), now))
  {
    ActiveRunExactly(runs, uid);
  }

  lemma HaltKeeps(accounts: map<string, Account>, runs: seq<Run>, uid: string, last: real, now: real)
    requires RunsOk(accounts, runs, last) && last <= now
    ensures RunsOk(accounts, HaltAt(runs, ActiveRun(runs, uid), now), now)
    ensures NoneActive(HaltAt(runs, ActiveRun(runs, uid), now), uid)
  {
    HaltTimed(runs, ActiveRun(runs, uid), last, now);
    HaltSequential(runs, uid, last, now);
    HaltLeavesNone(runs, uid, last, now);
  }

  ghost predicate Startable(accounts: map<string, Account>, r: Run, now: real) {
    && r.userId in accounts && accounts[r.userId].username == r.username
    && r.active && r.stopped == None && r.started == now
    && PeersOk([r])
  }

  lemma AppendKeeps(accounts: map<string, Account>, runs: seq<Run>, r: Run, now: real)
    requires RunsOk(accounts, runs, now) && Startable(accounts, r, now) && NoneActive(runs, r.userId)
    ensures RunsOk(accounts, runs + [r], now)
  {
    assert [r][0] == r;
  }

  lemma ClearKeeps(accounts: map<string, Account>, runs: seq<Run>, host: string, now: real)
    requires RunsOk(accounts, runs, now)
    ensures RunsOk(accounts, AnnounceRuns(runs, host), now)
  {
  }

  /** The runs once the one at `told` no longer waits. */
  function Clear(runs: seq<Run>, told: Option<nat>): seq<Run> {
    if told.Some? && told.value < |runs| then runs[told.value := runs[told.value].(shared := false)] else runs
  }

  /** The runs after `on_run_stopped`. */
  function AnnounceRuns(runs: seq<Run>, host: string): seq<Run> {
    Clear(runs, Promoted(runs, host))
  }

  function ReleaseRuns(runs: seq<Run>, freed: string, kept: string): seq<Run> {
    if freed != "" && freed != kept then AnnounceRuns(runs, freed) else runs
  }

  // ---- Steps -------------------------------------------------------------------------------------------

  lemma ReleaseIsRuns(s: State, freed: string, kept: string)
    ensures Release(s, freed, kept).runs == ReleaseRuns(s.runs, freed, kept)
  {
  }

  /** A successful launch halts, appends and announces. */
  lemma LaunchRuns(s: State, uid: string, profile: string, now: real)
    requires uid in s.accounts
    ensures var a, old_ := Admit(s, uid, profile, now), ActiveRun(s.runs, uid);
            var p := PlanFor(s, uid, a, now);
            Launch(s, uid, profile, true, now).runs
            == ReleaseRuns(HaltAt(s.runs, old_, now) + [NewRun(uid, s.accounts[uid].username, a, p, now)],
                           NodeAt(s.runs, old_), p.node.GetOr(""))
  {
    var a := Admit(s, uid, profile, now);
    ReleaseIsRuns(Record(Warn(s, uid, a), uid, a, now), NodeAt(s.runs, ActiveRun(s.runs, uid)),
                  PlanFor(s, uid, a, now).node.GetOr(""));
  }

  /** A launch touches neither nodes nor accounts. */
  lemma LaunchKeepsCluster(s: State, uid: string, profile: string, hubOk: bool, now: real)
    ensures Launch(s, uid, profile, hubOk, now).nodes == s.nodes && Launch(s, uid, profile, hubOk, now).accounts == s.accounts
  {
    if uid in s.accounts && hubOk {
      var a := Admit(s, uid, profile, now);
      ReleaseKeepsCluster(Record(Warn(s, uid, a), uid, a, now), NodeAt(s.runs, ActiveRun(s.runs, uid)),
                          PlanFor(s, uid, a, now).node.GetOr(""));
    }
  }

  lemma ReleaseKeepsCluster(s: State, freed: string, kept: string)
    ensures Release(s, freed, kept).nodes == s.nodes && Release(s, freed, kept).accounts == s.accounts
  {
  }

  lemma StopRuns(s: State, uid: string, now: real)
    ensures Stop(s, uid, true, now).runs
         == ReleaseRuns(HaltAt(s.runs, ActiveRun(s.runs, uid), now), NodeAt(s.runs, ActiveRun(s.runs, uid)), "")
  {
    ActiveRunExactly(s.runs, uid);
  }

  predicate TouchesRuns(e: Event) {
    (e.LaunchE? || e.StopE?) && e.hubOk
  }

  lemma StepAccounts(s: State, e: Event)
    ensures forall u :: u in s.accounts ==> u in Step(s, e).accounts && Step(s, e).accounts[u].username == s.accounts[u].username
    ensures UniqueNames(s.accounts) ==> UniqueNames(Step(s, e).accounts)
    ensures TouchesRuns(e) ==> Step(s, e).accounts == s.accounts
  {
  }

  /** Registered nodes have unique hostnames. */
  lemma StepNodes(s: State, e: Event)
    requires DistinctNodes(s.nodes)
    ensures DistinctNodes(Step(s, e).nodes)
  {
    match e
    case RegisterE(host, _, _) => FindNodeExactly(s.nodes, host);
    case HeartbeatE(host, _, _) => FindNodeExactly(s.nodes, host);
    case DrainE(host, _) => FindNodeExactly(s.nodes, host);
    case ActivateE(host, _) => FindNodeExactly(s.nodes, host);
    case _ =>
  }

  lemma {:induction false} FindNodeExactly(nodes: seq<Node>, host: string)
    ensures FindNode(nodes, host) == None <==> forall i :: 0 <= i < |nodes| ==> nodes[i].hostname != host
    ensures FindNode(nodes, host).Some? ==>
              FindNode(nodes, host).value < |nodes| && nodes[FindNode(nodes, host).value].hostname == host
  {
    if nodes != [] {
      FindNodeExactly(nodes[..|nodes| - 1], host);
      assert forall i :: 0 <= i < |nodes| - 1 ==> nodes[..|nodes| - 1][i] == nodes[i];
    }
  }

  /** A run recorded from a placement that names eligible, distinct hosts. */
  lemma PlacedRunStartable(accounts: map<string, Account>, uid: string, a: Admission, p: Placement, now: real)
    requires uid in accounts
    requires Distinct(p.ddp) && (p.ddp != [] ==> p.node == Some(p.ddp[0])) && (p.shared ==> p.mode == Shared)
    ensures Startable(accounts, NewRun(uid, accounts[uid].username, a, p, now), now)
  {
  }

  lemma NewRunStartable(s: State, uid: string, a: Admission, now: real)
    requires uid in s.accounts && DistinctNodes(s.nodes)
    ensures Startable(s.accounts, NewRun(uid, s.accounts[uid].username, a, PlanFor(s, uid, a, now), now), now)
  {
    var boost := GrantSize(s, a.grant);
    var hosts := Candidates(s, a, now);
    OnlineHostsDistinct(s.nodes, WantsGpu(a.profile, boost), now);
    PlanNamesHosts(hosts, Others(s.runs, s.accounts[uid].username), WantsGpu(a.profile, boost), boost);
    PlacedRunStartable(s.accounts, uid, a, PlanFor(s, uid, a, now), now);
  }

  lemma LaunchKeeps(s: State, uid: string, profile: string, last: real, now: real)
    requires uid in s.accounts && DistinctNodes(s.nodes)
    requires RunsOk(s.accounts, s.runs, last) && last <= now
    ensures RunsOk(s.accounts, Launch(s, uid, profile, true, now).runs, now)
  {
    var a := Admit(s, uid, profile, now);
    var r := NewRun(uid, s.accounts[uid].username, a, PlanFor(s, uid, a, now), now);
    var halted := HaltAt(s.runs, ActiveRun(s.runs, uid), now);
    LaunchRuns(s, uid, profile, now);
    HaltKeeps(s.accounts, s.runs, uid, last, now);
    NewRunStartable(s, uid, a, now);
    AppendKeeps(s.accounts, halted, r, now);
    ClearKeeps(s.accounts, halted + [r], NodeAt(s.runs, ActiveRun(s.runs, uid)), now);
  }

  lemma StopKeeps(s: State, uid: string, last: real, now: real)
    requires RunsOk(s.accounts, s.runs, last) && last <= now
    ensures RunsOk(s.accounts, Stop(s, uid, true, now).runs, now)
  {
    StopRuns(s, uid, now);
    HaltKeeps(s.accounts, s.runs, uid, last, now);
    ClearKeeps(s.accounts, HaltAt(s.runs, ActiveRun(s.runs, uid), now), NodeAt(s.runs, ActiveRun(s.runs, uid)), now);
  }

  lemma RunsOkLater(accounts: map<string, Account>, runs: seq<Run>, accounts': map<string, Account>, last: real, now: real)
    requires RunsOk(accounts, runs, last) && last <= now
    requires UniqueNames(accounts')
    requires forall u :: u in accounts ==> u in accounts' && accounts'[u].username == accounts[u].username
    ensures RunsOk(accounts', runs, now)
  {
  }

  lemma StepKeeps(s: State, e: Event, last: real)
    requires DistinctNodes(s.nodes) && RunsOk(s.accounts, s.runs, last) && last <= e.now
    ensures RunsOk(Step(s, e).accounts, Step(s, e).runs, e.now)
  {
    StepAccounts(s, e);
    if TouchesRuns(e) && e.LaunchE? && e.uid in s.accounts {
      LaunchKeeps(s, e.uid, e.profile, last, e.now);
    } else if TouchesRuns(e) && e.StopE? {
      StopKeeps(s, e.uid, last, e.now);
    } else {
      assert Step(s, e).runs == s.runs;
      RunsOkLater(s.accounts, s.runs, Step(s, e).accounts, last, e.now);
    }
  }

  lemma {:induction false} Reachable(run: Trace<Event>, now: real)
    requires MonotoneUpTo(run, TimeOf, now)
    ensures DistinctNodes(After(run).nodes)
    ensures RunsOk(After(run).accounts, After(run).runs, now)
  {
    match run
    case Start =>
    case Then(before, e) =>
      Reachable(before, e.now);
      StepNodes(After(before), e);
      StepKeeps(After(before), e, e.now);
      RunsOkLater(After(run).accounts, After(run).runs, After(run).accounts, e.now, now);
  }

  /** In every reachable ledger a user has at most one active run, and a user's runs never overlap in time. */
  lemma OneActiveRun(run: Trace<Event>, now: real, i: nat, j: nat)
    requires MonotoneUpTo(run, TimeOf, now) && i < j < |After(run).runs|
    requires After(run).runs[i].userId == After(run).runs[j].userId
    ensures !After(run).runs[i].active
    ensures Ended(After(run).runs[i], now) <= After(run).runs[j].started
  {
    Reachable(run, now);
  }
}
