/**
 The balance policy stated at the top of gateway/app/scheduler.py, over whole runs: when distinct users launch
 onto a fixed set of N idle hosts, the first N get a host each and after that the loads never differ by more than 1.
 */
module LedgerBalance {
  import opened Prelude
  import opened Scheduler
  import opened Ledger
  import opened LedgerRuns

  function Actives(runs: seq<Run>): seq<Run> {
    if runs == [] then []
    else Actives(runs[..|runs| - 1]) + if runs[|runs| - 1].active then [runs[|runs| - 1]] else []
  }

  // ---- Counting --------------------------------------------------------------------------------------

  lemma ActivesAppend(runs: seq<Run>, r: Run)
    requires r.active
    ensures Actives(runs + [r]) == Actives(runs) + [r]
  {
    assert (runs + [r])[..|runs|] == runs;
  }

  lemma {:induction false} ActivesIdle(runs: seq<Run>)
    requires forall i :: 0 <= i < |runs| ==> !runs[i].active
    ensures Actives(runs) == []
  {
    if runs != [] {
      ActivesIdle(runs[..|runs| - 1]);
    }
  }

  /** For somebody without an active run the planner sees every active run. */
  lemma {:induction false} OthersAreActives(runs: seq<Run>, username: string)
    requires forall i :: 0 <= i < |runs| && runs[i].active ==> runs[i].username != username
    ensures Others(runs, username) == Actives(runs)
  {
    if runs != [] {
      OthersAreActives(runs[..|runs| - 1], username);
    }
  }

  lemma TallyAppend(h: string, runs: seq<Run>, r: Run)
    ensures Tally(h, runs + [r]) == Tally(h, runs) + Weight(h, r)
  {
    assert (runs + [r])[..|runs|] == runs;
  }

  lemma {:induction false} TotalAppend(hosts: seq<string>, runs: seq<Run>, r: Run)
    requires Distinct(hosts) && r.ddp == []
    ensures TotalTally(hosts, runs + [r]) == TotalTally(hosts, runs) + if r.node in hosts then 1 else 0
  {
    if hosts != [] {
      var k := |hosts| - 1;
      TotalAppend(hosts[..k], runs, r);
      TallyAppend(hosts[k], runs, r);
      assert hosts == hosts[..k] + [hosts[k]];
    }
  }

  lemma {:induction false} TotalNone(hosts: seq<string>)
    ensures TotalTally(hosts, []) == 0
  {
    if hosts != [] {
      TotalNone(hosts[..|hosts| - 1]);
    }
  }

  lemma {:induction false} TotalAtMost(hosts: seq<string>, runs: seq<Run>)
    requires forall h :: h in hosts ==> Tally(h, runs) <= 1
    ensures TotalTally(hosts, runs) <= |hosts|
    ensures (exists h :: h in hosts && Tally(h, runs) == 0) ==> TotalTally(hosts, runs) < |hosts|
  {
    if hosts != [] {
      var k := |hosts| - 1;
      TotalAtMost(hosts[..k], runs);
      assert hosts == hosts[..k] + [hosts[k]];
    }
  }

  ghost predicate WithinOne(hosts: seq<string>, runs: seq<Run>) {
    forall g, h :: g in hosts && h in hosts ==> Tally(g, runs) <= Tally(h, runs) + 1
  }

  /** With loads within 1, some host is idle exactly when there are fewer runs than hosts. */
  lemma IdleHostExactly(hosts: seq<string>, runs: seq<Run>)
    requires WithinOne(hosts, runs)
    ensures (exists h :: h in hosts && Tally(h, runs) == 0) <==> TotalTally(hosts, runs) < |hosts|
  {
    if exists h :: h in hosts && Tally(h, runs) == 0 {
      TotalAtMost(hosts, runs);
    } else {
      TotalAtLeast(hosts, runs, 1);
    }
  }

  lemma LeastLoadedKeepsBalance(hosts: seq<string>, runs: seq<Run>, r: Run)
    requires WithinOne(hosts, runs) && r.ddp == []
    requires forall h :: h in hosts ==> Tally(r.node, runs) <= Tally(h, runs)
    ensures WithinOne(hosts, runs + [r])
  {
    forall g, h | g in hosts && h in hosts ensures Tally(g, runs + [r]) <= Tally(h, runs + [r]) + 1 {
      TallyAppend(g, runs, r);
      TallyAppend(h, runs, r);
    }
  }

  // ---- A wave of launches ------------------------------------------------------------------------------

  /** A launch without a boost grant whose eligible hosts are exactly `hosts`. */
  ghost predicate Plain(s: State, e: Event, hosts: seq<string>) {
    && e.LaunchE? && e.hubOk && e.uid in s.accounts
    && Admit(s, e.uid, e.profile, e.now).grant == None
    && Candidates(s, Admit(s, e.uid, e.profile, e.now), e.now) == hosts
  }

  /**
   `run` continues `idle` with plain launches by `users`, all different, and between them any other requests that
   start or stop no run: heartbeats, registrations, drains, failed launches and stops, boosts, quotas, accounts.
   */
  ghost predicate Wave(run: Trace<Event>, idle: Trace<Event>, hosts: seq<string>, users: seq<string>) {
    || (run == idle && users == [])
    || (run.Then? && !TouchesRuns(run.event) && Wave(run.before, idle, hosts, users))
    || (run.Then? && users != [] && Wave(run.before, idle, hosts, users[..|users| - 1])
        && Plain(After(run.before), run.event, hosts)
        && run.event.uid == users[|users| - 1] && run.event.uid !in users[..|users| - 1])
  }

  ghost predicate NobodyRuns(s: State) {
    forall i :: 0 <= i < |s.runs| ==> !s.runs[i].active
  }

  ghost predicate OnlyThese(runs: seq<Run>, users: seq<string>) {
    forall i :: 0 <= i < |runs| && runs[i].active ==> runs[i].userId in users
  }

  /** One run by `uid` was added, where the planner puts it when it looks at all the active runs. */
  ghost predicate Joined(runs: seq<Run>, runs': seq<Run>, hosts: seq<string>, uid: string) {
    && runs' != [] && runs'[..|runs'| - 1] == runs
    && var r, p := runs'[|runs'| - 1], Plan(hosts, Actives(runs), false, None);
       r.active && r.userId == uid && r.ddp == [] && Some(r.node) == p.node && r.mode == p.mode
  }

  lemma FreshLaunch(s: State, e: Event, hosts: seq<string>, now: real)
    requires Plain(s, e, hosts) && hosts != [] && RunsOk(s.accounts, s.runs, now)
    requires forall i :: 0 <= i < |s.runs| && s.runs[i].active ==> s.runs[i].userId != e.uid
    ensures Joined(s.runs, Step(s, e).runs, hosts, e.uid)
  {
    ActiveRunExactly(s.runs, e.uid);
    assert ActiveRun(s.runs, e.uid) == None;
    LaunchRuns(s, e.uid, e.profile, e.now);
    OthersAreActives(s.runs, s.accounts[e.uid].username);
    LandsOnLeastLoaded(hosts, Actives(s.runs), false);
  }

  /** What one launch of a wave does to the loads. */
  lemma OneLaunch(hosts: seq<string>, runs: seq<Run>, r: Run)
    requires hosts != [] && Distinct(hosts) && WithinOne(hosts, runs) && r.ddp == []
    requires Some(r.node) == Plan(hosts, runs, false, None).node && r.mode == Plan(hosts, runs, false, None).mode
    ensures WithinOne(hosts, runs + [r])
    ensures TotalTally(hosts, runs + [r]) == TotalTally(hosts, runs) + 1
    ensures r.mode == Exclusive <==> TotalTally(hosts, runs) < |hosts|
  {
    LandsOnLeastLoaded(hosts, runs, false);
    LeastLoadedKeepsBalance(hosts, runs, r);
    TotalAppend(hosts, runs, r);
    IdleHostExactly(hosts, runs);
  }

  lemma PlainHostsDistinct(s: State, e: Event, hosts: seq<string>)
    requires Plain(s, e, hosts) && DistinctNodes(s.nodes)
    ensures Distinct(hosts)
  {
    OnlineHostsDistinct(s.nodes, WantsGpu(Admit(s, e.uid, e.profile, e.now).profile, None), e.now);
  }

  /** The newest run is this user's, and has a host to itself exactly when `alone`. */
  predicate Newest(runs: seq<Run>, uid: string, alone: bool) {
    && runs != [] && runs[|runs| - 1].userId == uid
    && (runs[|runs| - 1].mode == Exclusive <==> alone)
  }

  /**
   The loads add up to the number of launches, differ by at most 1, and belong to the users who launched; the last
   launch got a host to itself exactly when there are no more users than hosts.
   */
  ghost predicate Spread(runs: seq<Run>, hosts: seq<string>, users: seq<string>) {
    && WithinOne(hosts, Actives(runs))
    && TotalTally(hosts, Actives(runs)) == |users|
    && OnlyThese(runs, users)
    && (users != [] ==> Newest(runs, users[|users| - 1], |users| <= |hosts|))
  }

  lemma OnlyTheseAppend(runs: seq<Run>, users: seq<string>, r: Run)
    requires OnlyThese(runs, users)
    ensures OnlyThese(runs + [r], users + [r.userId])
  {
  }

  lemma SpreadStep(runs: seq<Run>, runs': seq<Run>, hosts: seq<string>, users: seq<string>, uid: string)
    requires Joined(runs, runs', hosts, uid) && hosts != [] && Distinct(hosts)
    requires users != [] && uid == users[|users| - 1] && Spread(runs, hosts, users[..|users| - 1])
    ensures Spread(runs', hosts, users)
  {
    var r := runs'[|runs'| - 1];
    assert runs' == runs + [r] && users == users[..|users| - 1] + [uid];
    OneLaunch(hosts, Actives(runs), r);
    ActivesAppend(runs, r);
    OnlyTheseAppend(runs, users[..|users| - 1], r);
  }

  /** What the last launch of a wave does. */
  lemma LastLaunch(s: State, e: Event, hosts: seq<string>, users: seq<string>, now: real)
    requires Plain(s, e, hosts) && hosts != [] && RunsOk(s.accounts, s.runs, now) && DistinctNodes(s.nodes)
    requires users != [] && e.uid == users[|users| - 1] && e.uid !in users[..|users| - 1]
    requires Spread(s.runs, hosts, users[..|users| - 1])
    ensures Spread(Step(s, e).runs, hosts, users)
  {
    PlainHostsDistinct(s, e, hosts);
    FreshLaunch(s, e, hosts, now);
    SpreadStep(s.runs, Step(s, e).runs, hosts, users, e.uid);
  }

  lemma NothingLaunched(runs: seq<Run>, hosts: seq<string>)
    requires forall i :: 0 <= i < |runs| ==> !runs[i].active
    ensures Spread(runs, hosts, [])
  {
    ActivesIdle(runs);
    TotalNone(hosts);
  }

  /**
   From an idle ledger, after any number of plain launches by different users onto the same hosts, with any requests
   in between that start or stop no run, the loads add up to the number of launches and differ by at most 1, and the last launch got a host to itself exactly when no
   more users than hosts have launched.
   */
  lemma {:induction false} Pigeonhole(run: Trace<Event>, idle: Trace<Event>, hosts: seq<string>, users: seq<string>, now: real)
    requires MonotoneUpTo(run, TimeOf, now) && NobodyRuns(After(idle)) && hosts != [] && Wave(run, idle, hosts, users)
    ensures Spread(After(run).runs, hosts, users)
  {
    if run == idle && users == [] {
      NothingLaunched(After(idle).runs, hosts);
    } else if run.Then? && !TouchesRuns(run.event) && Wave(run.before, idle, hosts, users) {
      Pigeonhole(run.before, idle, hosts, users, run.event.now);
      assert After(run).runs == After(run.before).runs;
    } else {
      Pigeonhole(run.before, idle, hosts, users[..|users| - 1], run.event.now);
      Reachable(run.before, run.event.now);
      LastLaunch(After(run.before), run.event, hosts, users, run.event.now);
    }
  }
}
