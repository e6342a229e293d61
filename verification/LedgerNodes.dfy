/**
 The life of a node in the ledger: what ends a drain, what a drained node is kept from, and what it is not.
 */
module LedgerNodes {
  import opened Prelude
  import opened Scheduler
  import opened Accounting
  import opened Ledger
  import opened LedgerRuns
  import opened LedgerNotices
  import opened LedgerOwnership

  // ---- Draining --------------------------------------------------------------------------------------

  predicate DrainedAt(s: State, i: nat) {
    i < |s.nodes| && s.nodes[i].status == Draining
  }

  /** Registering a node again, or activating it, takes it out of maintenance. */
  predicate EndsDrain(e: Event, host: string) {
    (e.RegisterE? || e.ActivateE?) && e.host == host
  }

  /** A drained node stays drained through every request but these two; heartbeats in particular. */
  lemma DrainEndsExactly(s: State, e: Event, i: nat)
    requires DistinctNodes(s.nodes) && DrainedAt(s, i)
    ensures |s.nodes| <= |Step(s, e).nodes| && Step(s, e).nodes[i].hostname == s.nodes[i].hostname
    ensures DrainedAt(Step(s, e), i) <==> !EndsDrain(e, s.nodes[i].hostname)
  {
    match e
    case RegisterE(host, _, _) => FindNodeExactly(s.nodes, host);
    case HeartbeatE(host, _, _) => FindNodeExactly(s.nodes, host);
    case DrainE(host, _) => FindNodeExactly(s.nodes, host);
    case ActivateE(host, _) => FindNodeExactly(s.nodes, host);
    case LaunchE(uid, profile, hubOk, now) => LaunchKeepsCluster(s, uid, profile, hubOk, now);
    case _ =>
  }

  /** `later` continues `run` and nothing in between registers or activates `host`. */
  ghost predicate LeftDrained(later: Trace<Event>, run: Trace<Event>, host: string) {
    || later == run
    || (later.Then? && !EndsDrain(later.event, host) && LeftDrained(later.before, run, host))
  }

  lemma {:induction false} DrainLasts(run: Trace<Event>, later: Trace<Event>, i: nat, now: real)
    requires MonotoneUpTo(later, TimeOf, now) && DrainedAt(After(run), i)
    requires LeftDrained(later, run, After(run).nodes[i].hostname)
    ensures DrainedAt(After(later), i) && After(later).nodes[i].hostname == After(run).nodes[i].hostname
  {
    if later != run {
      DrainLasts(run, later.before, i, later.event.now);
      Reachable(later.before, later.event.now);
      DrainEndsExactly(After(later.before), later.event, i);
    }
  }

  /** No launch may use this host now: it is drained, stale or not registered. */
  ghost predicate Unavailable(s: State, host: string, now: real) {
    host !in OnlineHosts(s.nodes, false, now)
  }

  lemma DrainedIsUnavailable(s: State, i: nat, now: real)
    requires DistinctNodes(s.nodes) && DrainedAt(s, i)
    ensures Unavailable(s, s.nodes[i].hostname, now)
  {
    OnlineHostsExactly(s.nodes, false, now);
  }

  lemma PlanAvoidsUnavailable(s: State, uid: string, a: Admission, host: string, now: real)
    requires DistinctNodes(s.nodes) && Unavailable(s, host, now) && uid in s.accounts && host != ""
    ensures host !in Claimed(PlanFor(s, uid, a, now))
  {
    var boost := GrantSize(s, a.grant);
    var gpuOnly := WantsGpu(a.profile, boost);
    OnlineHostsExactly(s.nodes, false, now);
    OnlineHostsExactly(s.nodes, gpuOnly, now);
    OnlineHostsDistinct(s.nodes, gpuOnly, now);
    PlanNamesHosts(Candidates(s, a, now), Others(s.runs, s.accounts[uid].username), gpuOnly, boost);
  }

  /** The run that a launch adds stands nowhere near a drained node, as long as the drain lasts. */
  lemma DrainedGetsNothing(run: Trace<Event>, later: Trace<Event>, i: nat, e: Event)
    requires MonotoneUpTo(later, TimeOf, e.now) && DrainedAt(After(run), i) && After(run).nodes[i].hostname != ""
    requires LeftDrained(later, run, After(run).nodes[i].hostname) && Places(After(later), e)
    ensures var s := After(later);
            |Moment(s, e)| == |s.runs| + 1 && After(run).nodes[i].hostname !in Footprint(Moment(s, e)[|s.runs|])
  {
    var s := After(later);
    DrainLasts(run, later, i, e.now);
    Reachable(later, e.now);
    DrainedIsUnavailable(s, i, e.now);
    PlanAvoidsUnavailable(s, e.uid, Admit(s, e.uid, e.profile, e.now), s.nodes[i].hostname, e.now);
  }

  // ---- The free-node notice looks at runs only ------------------------------------------------------------

  /** What a stop announces does not depend on the nodes, so a drained or vanished host is announced like any other. */
  lemma NoticeIgnoresNodes(s: State, nodes: seq<Node>, uid: string, now: real)
    ensures var t, e := s.(nodes := nodes), StopE(uid, true, now);
            Tells(t, e) == Tells(s, e) && Freed(t, e) == Freed(s, e)
            && Announcements(Step(t, e).notices) == Announcements(Step(s, e).notices)
  {
    var t, e := s.(nodes := nodes), StopE(uid, true, now);
    StepTells(s, e);
    StepTells(t, e);
  }

  /** The step tells `uid` that `host` is free. */
  predicate TellsUser(s: State, e: Event, uid: string, host: string) {
    Announcements(Step(s, e).notices) == Announcements(s.notices) + [Notice(uid, NodeFreed(host))]
  }

  /** The step sends a free-node notice that names `host`. */
  ghost predicate Names(s: State, e: Event, host: string) {
    exists uid :: TellsUser(s, e, uid, host)
  }

  ghost predicate SomebodyWaits(runs: seq<Run>) {
    exists i :: 0 <= i < |runs| && Waiting(runs[i])
  }

  /** For every event and every host: a new notice names it exactly when the step frees it, nobody is on it, and somebody waits. */
  lemma NoticeNamesExactly(s: State, e: Event, host: string)
    requires host != ""
    ensures Names(s, e, host) <==> Freed(s, e) == host && !Occupied(Moment(s, e), host) && SomebodyWaits(Moment(s, e))
  {
    StepTells(s, e);
    NextWaiterExactly(Moment(s, e));
    var old_, new_ := Announcements(s.notices), Announcements(Step(s, e).notices);
    var word := Word(Moment(s, e), Tells(s, e), Freed(s, e));
    assert new_ == old_ + word;
    forall uid | TellsUser(s, e, uid, host) ensures word == [Notice(uid, NodeFreed(host))] {
      assert word == new_[|old_|..];
    }
    if Tells(s, e).Some? && Freed(s, e) == host {
      assert TellsUser(s, e, word[0].userId, host);
    }
  }

  /** A launch or a stop, served by the Hub, of a user whose active run is on `host`. */
  predicate Leaves(s: State, e: Event, host: string) {
    (Places(s, e) || (e.StopE? && e.hubOk)) && NodeAt(s.runs, ActiveRun(s.runs, e.uid)) == host
  }

  /**
   In every reachable ledger, a host that no launch may use, drained or stale, is announced as free exactly when its
   user stops or relaunches, nobody else is on it, and somebody waits: the notice invites to a node that is not there.
   */
  lemma UnavailableHostNamedExactly(run: Trace<Event>, e: Event, host: string)
    requires MonotoneUpTo(run, TimeOf, e.now) && host != "" && Unavailable(After(run), host, e.now)
    ensures var s := After(run);
            Names(s, e, host) <==> Leaves(s, e, host) && !Occupied(Moment(s, e), host) && SomebodyWaits(Moment(s, e))
  {
    var s := After(run);
    NoticeNamesExactly(s, e, host);
    if Places(s, e) {
      Reachable(run, e.now);
      PlanAvoidsUnavailable(s, e.uid, Admit(s, e.uid, e.profile, e.now), host, e.now);
    }
  }

  predicate HeldByOthers(runs: seq<Run>, i: nat, host: string) {
    exists j :: 0 <= j < |runs| && j != i && runs[j].active && host in Footprint(runs[j])
  }

  predicate OtherWaits(runs: seq<Run>, i: nat) {
    exists j :: 0 <= j < |runs| && j != i && Waiting(runs[j])
  }

  lemma TheActiveOne(runs: seq<Run>, uid: string, i: nat, now: real)
    requires Timed(runs, now) && Sequential(runs) && i < |runs| && runs[i].active && runs[i].userId == uid
    ensures ActiveRun(runs, uid) == Some(i)
  {
    ActiveRunExactly(runs, uid);
  }

  lemma HaltedTable(runs: seq<Run>, i: nat, host: string, now: real)
    requires i < |runs|
    ensures var halted := HaltAt(runs, Some(i), now);
            && (Occupied(halted, host) <==> HeldByOthers(runs, i, host))
            && ((exists j :: 0 <= j < |halted| && Waiting(halted[j])) <==> OtherWaits(runs, i))
  {
    var halted := HaltAt(runs, Some(i), now);
    assert forall j :: 0 <= j < |runs| && j != i ==> halted[j] == runs[j];
  }

  /**
   A stop tells somebody that the user's host is free exactly when nobody else's run holds it and somebody else is
   waiting, whatever has become of the node: drained, silent or gone.
   */
  lemma StopNamesExactly(run: Trace<Event>, uid: string, i: nat, now: real)
    requires MonotoneUpTo(run, TimeOf, now) && i < |After(run).runs|
    requires After(run).runs[i].active && After(run).runs[i].userId == uid && After(run).runs[i].node != ""
    ensures var s, host := After(run), After(run).runs[i].node;
            Names(s, StopE(uid, true, now), host) <==> !HeldByOthers(s.runs, i, host) && OtherWaits(s.runs, i)
  {
    var s := After(run);
    var host := s.runs[i].node;
    assert ActiveRun(s.runs, uid) == Some(i) by {
      Reachable(run, now);
      TheActiveOne(s.runs, uid, i, now);
    }
    HaltedTable(s.runs, i, host, now);
    NoticeNamesExactly(s, StopE(uid, true, now), host);
  }

  // ---- What the notice promises -----------------------------------------------------------------------------

  /** `later` continues `run` without a launch that the Hub served. */
  ghost predicate NobodyLaunches(later: Trace<Event>, run: Trace<Event>) {
    || later == run
    || (later.Then? && !(later.event.LaunchE? && later.event.hubOk) && NobodyLaunches(later.before, run))
  }

  lemma AgedKeepsFree(runs: seq<Run>, later: seq<Run>, host: string)
    requires |later| == |runs| && (forall i :: 0 <= i < |runs| ==> Ages(runs[i], later[i])) && !Occupied(runs, host)
    ensures !Occupied(later, host)
  {
    forall i | 0 <= i < |later| && later[i].active ensures host !in Footprint(later[i]) {
      assert Ages(runs[i], later[i]) && Footprint(later[i]) == Footprint(runs[i]);
    }
  }

  lemma QuietKeepsFree(s: State, e: Event, host: string)
    requires !Occupied(s.runs, host) && !(e.LaunchE? && e.hubOk)
    ensures !Occupied(Step(s, e).runs, host)
  {
    StepTells(s, e);
    var later := Step(s, e).runs;
    forall i | 0 <= i < |s.runs| ensures Ages(s.runs[i], later[i]) {
      StepAges(s, e, i);
    }
    AgedKeepsFree(s.runs, later, host);
  }

  lemma {:induction false} StaysFree(run: Trace<Event>, later: Trace<Event>, host: string)
    requires NobodyLaunches(later, run) && !Occupied(After(run).runs, host)
    ensures !Occupied(After(later).runs, host)
  {
    if later != run {
      StaysFree(run, later.before, host);
      QuietKeepsFree(After(later.before), later.event, host);
    }
  }

  /** Whoever launches without a boost while an eligible host is free gets a host to themselves. */
  lemma FreeMeansExclusive(s: State, uid: string, a: Admission, host: string, now: real)
    requires uid in s.accounts && a.grant == None && host in Candidates(s, a, now) && !Occupied(s.runs, host)
    ensures PlanFor(s, uid, a, now).mode == Exclusive
  {
    var hosts, others := Candidates(s, a, now), Others(s.runs, s.accounts[uid].username);
    OthersOnly(s.runs, s.accounts[uid].username);
    assert Tally(host, others) == 0 by {
      TallyZero(host, others);
      forall i | 0 <= i < |others| ensures host !in Footprint(others[i]) {
        assert others[i] in s.runs && others[i].active;
      }
    }
    FreeHostsExactly(hosts, others);
  }

  /** Clearing a waiting flag moves nobody. */
  lemma ClearKeepsFree(runs: seq<Run>, told: Option<nat>, host: string)
    requires !Occupied(runs, host)
    ensures !Occupied(Clear(runs, told), host)
  {
    forall i | 0 <= i < |runs| ensures Footprint(Clear(runs, told)[i]) == Footprint(runs[i]) && Clear(runs, told)[i].active == runs[i].active {
    }
  }

  lemma AnnouncedIsFree(s: State, e: Event, uid: string, host: string)
    requires TellsUser(s, e, uid, host)
    ensures !Occupied(Step(s, e).runs, host)
  {
    StepTells(s, e);
    var word := Word(Moment(s, e), Tells(s, e), Freed(s, e));
    assert word == Announcements(Step(s, e).notices)[|Announcements(s.notices)|..] == [Notice(uid, NodeFreed(host))];
    ClearKeepsFree(Moment(s, e), Tells(s, e), host);
  }

  /**
   The notice keeps its promise: until somebody launches, the one who was told, like anybody else, gets a host to
   themselves by a relaunch without a boost, as long as the announced host is eligible for it.
   */
  lemma PromiseKept(run: Trace<Event>, e: Event, later: Trace<Event>, uid: string, host: string, profile: string, now: real)
    requires TellsUser(After(run), e, uid, host) && NobodyLaunches(later, Then(run, e)) && uid in After(later).accounts
    requires Admit(After(later), uid, profile, now).grant == None
    requires host in Candidates(After(later), Admit(After(later), uid, profile, now), now)
    ensures PlanFor(After(later), uid, Admit(After(later), uid, profile, now), now).mode == Exclusive
  {
    assert !Occupied(After(later).runs, host) by {
      AnnouncedIsFree(After(run), e, uid, host);
      StaysFree(Then(run, e), later, host);
    }
    FreeMeansExclusive(After(later), uid, Admit(After(later), uid, profile, now), host, now);
  }
}
