/**
 Two short runs that the ledger really can take: the boost fallback that puts two GPU reservations on one host, and
 a free-node notice that names a drained one.
 */
module LedgerWitness {
  import opened Prelude
  import opened Scheduler
  import opened Accounting
  import opened Ledger
  import opened LedgerRuns
  import opened LedgerNotices
  import opened LedgerOwnership
  import opened LedgerNodes

  // ---- Small clusters ------------------------------------------------------------------------------------

  lemma OneHost(n: Node, gpuOnly: bool, now: real)
    requires Eligible(n, gpuOnly, now)
    ensures OnlineHosts([n], gpuOnly, now) == [n.hostname]
  {
    assert [n][..0] == [];
  }

  lemma TwoHosts(n: Node, m: Node, gpuOnly: bool, now: real)
    requires Eligible(n, gpuOnly, now) && Eligible(m, gpuOnly, now)
    ensures OnlineHosts([n, m], gpuOnly, now) == [n.hostname, m.hostname]
  {
    assert [n, m][..1] == [n];
    OneHost(n, gpuOnly, now);
  }

  lemma FreeHost(h: string)
    ensures FreeHosts([h], []) == [h]
  {
    assert [h][..0] == [];
  }

  lemma BusyHost(h: string, r: Run)
    requires r.node == h
    ensures FreeHosts([h], [r]) == [] && LeastLoaded([h], [r]) == h
  {
    assert [h][..0] == [] && [r][..0] == [];
  }

  lemma OthersOfOne(r: Run, username: string)
    ensures Others([r], username) == if r.active && r.username != username then [r] else []
  {
    assert [r][..0] == [];
  }

  lemma ActiveOfOne(r: Run, uid: string)
    ensures ActiveRun([r], uid) == if r.active && r.userId == uid then Some(0) else None
  {
    assert [r][..0] == [];
  }

  lemma GrantOfOne(b: Boost, uid: string)
    ensures LatestGrant([b], uid) == if b.userId == uid && b.status == Approved then Some(0) else None
  {
    assert [b][..0] == [];
  }

  // ---- Two reservations on one host ----------------------------------------------------------------------

  const PEOPLE: map<string, Account> := map["a" := Account("ann", None), "b" := Account("bob", None)]
  const G: Node := Node("g", Online, true, Some(0.0))
  const ANN: Run := Run("a", "ann", "g", "gpu", Exclusive, 1, false, None, true, 0.0, None, [], "")
  const BOB: Run := Run("b", "bob", "g", "gpu", Boosted, 1, false, Some(0), true, 0.0, None, ["g"], "g" + ":29400")

  function People(): Trace<Event> {
    Then(Then(Start, AddAccountE("a", "ann", 0.0)), AddAccountE("b", "bob", 0.0))
  }

  lemma PeopleAre()
    ensures After(People()) == State([], PEOPLE, [], [], [])
  {
    var one := Step(EMPTY, AddAccountE("a", "ann", 0.0));
    assert one == State([], map["a" := Account("ann", None)], [], [], []);
    assert Step(one, AddAccountE("b", "bob", 0.0)) == State([], PEOPLE, [], [], []);
  }

  lemma AnnLaunches()
    ensures Launch(State([G], PEOPLE, [], [], []), "a", "gpu", true, 0.0).runs == [ANN]
    ensures Launch(State([G], PEOPLE, [], [], []), "a", "gpu", true, 0.0).boosts == []
  {
    var s := State([G], PEOPLE, [], [], []);
    OneHost(G, true, 0.0);
    FreeHost("g");
    LaunchRuns(s, "a", "gpu", 0.0);
  }

  /** Bob holds a grant for one node, and Ann is on the only one. */
  ghost predicate BobsTurn(s: State) {
    s.nodes == [G] && s.accounts == PEOPLE && s.runs == [ANN] && s.boosts == [Boost("b", 1, Approved, 0.0)]
  }

  lemma BusyBoost(h: string, r: Run)
    requires r.node == h
    ensures Plan([h], [r], true, Some(1)) == Placement(Some(h), Boosted, false, 1, [h], h + ":29400", [], false)
    ensures FreeHosts([h], [r]) == []
  {
    BusyHost(h, r);
  }

  const BOBS: Admission := Admission("gpu", Some(0), false)

  lemma BobIsAdmitted(s: State)
    requires BobsTurn(s)
    ensures Admit(s, "b", "gpu", 0.0) == BOBS && GrantSize(s, BOBS.grant) == Some(1)
  {
    GrantOfOne(s.boosts[0], "b");
  }

  lemma BobsChoice(s: State)
    requires BobsTurn(s)
    ensures Candidates(s, BOBS, 0.0) == ["g"] && Others(s.runs, "bob") == [ANN]
  {
    OneHost(G, true, 0.0);
    OthersOfOne(ANN, "bob");
  }

  lemma BobsPlan(s: State)
    requires BobsTurn(s)
    ensures Admit(s, "b", "gpu", 0.0) == BOBS && GrantSize(s, BOBS.grant) == Some(1)
    ensures PlanFor(s, "b", BOBS, 0.0) == Placement(Some("g"), Boosted, false, 1, ["g"], "g" + ":29400", [], false)
    ensures Candidates(s, BOBS, 0.0) == ["g"] && FreeHosts(["g"], Others(s.runs, "bob")) == []
  {
    BobIsAdmitted(s);
    BobsChoice(s);
    BusyBoost("g", ANN);
  }

  lemma BobIsBoosted(s: State)
    requires BobsTurn(s)
    ensures Launch(s, "b", "gpu", true, 0.0).runs == [ANN, BOB]
  {
    BobsPlan(s);
    ActiveOfOne(ANN, "b");
    LaunchRuns(s, "b", "gpu", 0.0);
  }

  lemma BobFallsBack(s: State)
    requires BobsTurn(s)
    ensures FallsBack(s, "b", "gpu", 0.0)
  {
    BobsPlan(s);
  }

  lemma GrantedToBob(s: State)
    requires s.boosts == [] && s.accounts == PEOPLE
    ensures Approve(RequestBoost(s, "b", 1, 0.0), 0, None).boosts == [Boost("b", 1, Approved, 0.0)]
    ensures var t := Approve(RequestBoost(s, "b", 1, 0.0), 0, None);
            t.nodes == s.nodes && t.accounts == s.accounts && t.runs == s.runs
  {
  }

  function AnnUp(): Trace<Event> {
    Then(Then(People(), RegisterE("g", Some(true), 0.0)), LaunchE("a", "gpu", true, 0.0))
  }

  lemma AnnIsUp()
    ensures var s := After(AnnUp()); s.nodes == [G] && s.accounts == PEOPLE && s.runs == [ANN] && s.boosts == []
    ensures Fallbacks(AnnUp()) == {}
  {
    PeopleAre();
    var s := After(Then(People(), RegisterE("g", Some(true), 0.0)));
    assert s == State([G], PEOPLE, [], [], []);
    AnnLaunches();
    LaunchKeepsCluster(s, "a", "gpu", true, 0.0);
  }

  function BobGranted(): Trace<Event> {
    Then(Then(AnnUp(), RequestBoostE("b", 1, 0.0)), ApproveE(0, None, 0.0))
  }

  lemma BobIsGranted()
    ensures BobsTurn(After(BobGranted()))
  {
    AnnIsUp();
    GrantEvents(AnnUp());
    GrantedToBob(After(AnnUp()));
  }

  lemma GrantEvents(run: Trace<Event>)
    ensures After(Then(Then(run, RequestBoostE("b", 1, 0.0)), ApproveE(0, None, 0.0)))
         == Approve(RequestBoost(After(run), "b", 1, 0.0), 0, None)
  {
  }

  lemma AllAtOnce()
    ensures MonotoneUpTo(BobGranted(), TimeOf, 0.0)
  {
    assert MonotoneUpTo(People(), TimeOf, 0.0);
    assert MonotoneUpTo(AnnUp(), TimeOf, 0.0);
  }

  /**
   The exception to single reservations is real: with one GPU node taken, a granted boost launches onto it, and both
   runs reserve its GPU.
   */
  lemma FallbackReservesTwice() returns (run: Trace<Event>)
    ensures MonotoneUpTo(run, TimeOf, 0.0) && After(run).runs == [ANN, BOB] && 1 in Fallbacks(run)
    ensures ANN.active && SpawnOf(ANN, true).reservesGpu && SpawnOf(ANN, true).pin == Some("g")
    ensures BOB.active && SpawnOf(BOB, true).reservesGpu && SpawnOf(BOB, true).pin == Some("g")
  {
    run := Then(BobGranted(), LaunchE("b", "gpu", true, 0.0));
    BobIsGranted();
    BobIsBoosted(After(BobGranted()));
    BobFallsBack(After(BobGranted()));
    AllAtOnce();
  }

  // ---- A notice that names a drained host ------------------------------------------------------------------

  const H: Node := Node("h", Online, true, Some(0.0))
  const ANN_G: Run := Run("a", "ann", "g", "medium", Exclusive, 0, false, None, true, 0.0, None, [], "")
  const ANN_H: Run := Run("a", "ann", "h", "medium", Exclusive, 0, false, None, true, 0.0, None, [], "")
  const BOB_G: Run := Run("b", "bob", "g", "medium", Shared, 0, true, None, true, 0.0, None, [], "")

  /** A ledger with these nodes and runs, the two people, and no boosts. */
  ghost predicate Cluster(s: State, nodes: seq<Node>, runs: seq<Run>) {
    s.nodes == nodes && s.accounts == PEOPLE && s.runs == runs && s.boosts == []
  }

  lemma NoGrants(s: State, uid: string)
    requires s.boosts == [] && s.accounts == PEOPLE && uid in PEOPLE
    ensures Admit(s, uid, "medium", 0.0) == Admission("medium", None, false)
  {
  }

  lemma LaunchLeavesBoosts(s: State, uid: string)
    requires s.boosts == [] && s.accounts == PEOPLE && uid in PEOPLE
    ensures Launch(s, uid, "medium", true, 0.0).boosts == []
  {
    NoGrants(s, uid);
  }

  lemma AnnOnG(s: State)
    requires Cluster(s, [G], [])
    ensures Cluster(Launch(s, "a", "medium", true, 0.0), [G], [ANN_G])
  {
    OneHost(G, false, 0.0);
    FreeHost("g");
    NoGrants(s, "a");
    LaunchRuns(s, "a", "medium", 0.0);
    LaunchKeepsCluster(s, "a", "medium", true, 0.0);
    LaunchLeavesBoosts(s, "a");
  }

  lemma BusyPlan(h: string, r: Run)
    requires r.node == h
    ensures var p := Plan([h], [r], false, None); p.node == Some(h) && p.mode == Shared && p.shared && p.gpus == 0
  {
    BusyHost(h, r);
  }

  lemma BobsShare(s: State)
    requires Cluster(s, [G], [ANN_G])
    ensures var p := PlanFor(s, "b", Admission("medium", None, false), 0.0);
            p.node == Some("g") && p.mode == Shared && p.shared && p.gpus == 0
  {
    var a := Admission("medium", None, false);
    assert Candidates(s, a, 0.0) == ["g"] by { OneHost(G, false, 0.0); }
    assert Others(s.runs, "bob") == [ANN_G] by { OthersOfOne(ANN_G, "bob"); }
    assert PlanFor(s, "b", a, 0.0) == Plan(["g"], [ANN_G], false, None);
    BusyPlan("g", ANN_G);
  }

  lemma BobSharesG(s: State)
    requires Cluster(s, [G], [ANN_G])
    ensures Cluster(Launch(s, "b", "medium", true, 0.0), [G], [ANN_G, BOB_G])
  {
    BobsShare(s);
    NoGrants(s, "b");
    ActiveOfOne(ANN_G, "b");
    LaunchRuns(s, "b", "medium", 0.0);
    LaunchKeepsCluster(s, "b", "medium", true, 0.0);
    LaunchLeavesBoosts(s, "b");
  }

  lemma OnlyHIsFree()
    ensures FreeHosts(["g", "h"], [BOB_G]) == ["h"]
  {
    BusyHost("g", BOB_G);
    assert ["g", "h"][..1] == ["g"];
    assert Tally("h", [BOB_G]) == 0 by {
      assert [BOB_G][..0] == [] && "g"[0] != "h"[0];
    }
  }

  lemma AnnsMove(s: State)
    requires Cluster(s, [G, H], [ANN_G, BOB_G])
    ensures var p := PlanFor(s, "a", Admission("medium", None, false), 0.0);
            p.node == Some("h") && p.mode == Exclusive && !p.shared && p.gpus == 0
  {
    TwoHosts(G, H, false, 0.0);
    assert [ANN_G, BOB_G][..1] == [ANN_G];
    OthersOfOne(ANN_G, "ann");
    OnlyHIsFree();
  }

  /** Ann moves to the new host; the old one is not announced, because Bob is on it. */
  lemma AnnMovesToH(s: State)
    requires Cluster(s, [G, H], [ANN_G, BOB_G])
    ensures Launch(s, "a", "medium", true, 0.0).runs == [Halt(ANN_G, 0.0), BOB_G, ANN_H]
  {
    AnnsMove(s);
    NoGrants(s, "a");
    assert ActiveRun([ANN_G, BOB_G], "a") == Some(0) by {
      assert [ANN_G, BOB_G][..1] == [ANN_G];
      ActiveOfOne(ANN_G, "a");
    }
    var runs := [Halt(ANN_G, 0.0), BOB_G, ANN_H];
    assert HaltAt([ANN_G, BOB_G], Some(0), 0.0) + [ANN_H] == runs;
    assert Occupied(runs, "g") by { assert runs[1].active && "g" in Footprint(runs[1]); }
    LaunchRuns(s, "a", "medium", 0.0);
  }

  function TwoOnG(): Trace<Event> {
    Then(Then(GUp(), LaunchE("a", "medium", true, 0.0)), LaunchE("b", "medium", true, 0.0))
  }

  lemma TwoAreOnG()
    ensures Cluster(After(TwoOnG()), [G], [ANN_G, BOB_G]) && MonotoneUpTo(TwoOnG(), TimeOf, 0.0)
  {
    GIsUp();
    ThenLaunch(GUp(), "a");
    AnnOnG(After(GUp()));
    var one := Then(GUp(), LaunchE("a", "medium", true, 0.0));
    ThenLaunch(one, "b");
    BobSharesG(After(one));
  }

  function GUp(): Trace<Event> {
    Then(People(), RegisterE("g", Some(true), 0.0))
  }

  lemma GIsUp()
    ensures Cluster(After(GUp()), [G], []) && MonotoneUpTo(GUp(), TimeOf, 0.0)
  {
    PeopleAre();
    assert After(GUp()) == State([G], PEOPLE, [], [], []);
    assert MonotoneUpTo(People(), TimeOf, 0.0);
  }

  lemma ThenLaunch(run: Trace<Event>, uid: string)
    ensures After(Then(run, LaunchE(uid, "medium", true, 0.0))) == Launch(After(run), uid, "medium", true, 0.0)
    ensures MonotoneUpTo(run, TimeOf, 0.0) ==> MonotoneUpTo(Then(run, LaunchE(uid, "medium", true, 0.0)), TimeOf, 0.0)
  {
  }

  lemma RegisterH(s: State)
    requires Cluster(s, [G], s.runs)
    ensures Cluster(Register(s, "h", Some(true), 0.0), [G, H], s.runs)
  {
    FindNodeExactly([G], "h");
  }

  lemma AnnIsOnH() returns (run: Trace<Event>)
    ensures After(run).runs == [Halt(ANN_G, 0.0), BOB_G, ANN_H] && MonotoneUpTo(run, TimeOf, 0.0)
    ensures After(run).nodes == [G, H] && After(run).accounts == PEOPLE
  {
    TwoAreOnG();
    RegisterH(After(TwoOnG()));
    var grown := ThenRegister(TwoOnG(), "h");
    AnnMovesToH(After(grown));
    ThenLaunch(grown, "a");
    LaunchKeepsCluster(After(grown), "a", "medium", true, 0.0);
    run := Then(grown, LaunchE("a", "medium", true, 0.0));
  }

  lemma ThenRegister(run: Trace<Event>, host: string) returns (later: Trace<Event>)
    ensures After(later) == Register(After(run), host, Some(true), 0.0)
    ensures MonotoneUpTo(run, TimeOf, 0.0) ==> MonotoneUpTo(later, TimeOf, 0.0)
  {
    later := Then(run, RegisterE(host, Some(true), 0.0));
  }

  /** Ann's node is drained while she is on it and Bob waits elsewhere. */
  lemma AnnIsDrained() returns (run: Trace<Event>)
    ensures run.Then? && run.event == DrainE("h", 0.0) && MonotoneUpTo(run, TimeOf, 0.0)
    ensures After(run).runs == [Halt(ANN_G, 0.0), BOB_G, ANN_H]
    ensures Unavailable(After(run), "h", 0.0) && "a" in After(run).accounts
  {
    var before := AnnIsOnH();
    run := Then(before, DrainE("h", 0.0));
    HIsDrained(After(before));
  }

  lemma HIsDrained(s: State)
    requires s.nodes == [G, H]
    ensures Unavailable(SetStatus(s, "h", Draining), "h", 0.0)
  {
    var drained := [G, H.(status := Draining)];
    assert "g"[0] != "h"[0];
    assert FindNode([G], "h") == None by { FindNodeExactly([G], "h"); }
    assert FindNode([G, H], "h") == Some(1) by { assert [G, H][..1] == [G]; }
    assert SetStatus(s, "h", Draining).nodes == drained;
    OnlineHostsExactly(drained, false, 0.0);
  }

  /** She stops: Bob, still waiting, is told that the drained node is free. */
  lemma DrainedHostAnnounced() returns (run: Trace<Event>)
    ensures MonotoneUpTo(run, TimeOf, 0.0) && run.Then? && run.before.Then?
    ensures run.before.event == DrainE("h", 0.0) && run.event == StopE("a", true, 0.0)
    ensures Unavailable(After(run.before), "h", 0.0) && Names(After(run.before), run.event, "h")
  {
    var before := AnnIsDrained();
    var s, stop := After(before), StopE("a", true, 0.0);
    run := Then(before, stop);
    AnnLeavesH(s, stop);
    UnavailableHostNamedExactly(before, stop, "h");
  }

  /** She relaunches, which a drain invites her to do: Bob is told the same. */
  lemma DrainedHostAnnouncedOnRelaunch() returns (run: Trace<Event>)
    ensures MonotoneUpTo(run, TimeOf, 0.0) && run.Then? && run.before.Then?
    ensures run.before.event == DrainE("h", 0.0) && run.event == LaunchE("a", "medium", true, 0.0)
    ensures Unavailable(After(run.before), "h", 0.0) && Names(After(run.before), run.event, "h")
  {
    var before := AnnIsDrained();
    var s, launch := After(before), LaunchE("a", "medium", true, 0.0);
    run := Then(before, launch);
    Reachable(before, 0.0);
    PlanAvoidsUnavailable(s, "a", Admit(s, "a", "medium", 0.0), "h", 0.0);
    NewRunClaims(s, "a", Admit(s, "a", "medium", 0.0), 0.0);
    AnnLeavesH(s, launch);
    UnavailableHostNamedExactly(before, launch, "h");
  }

  lemma NewRunClaims(s: State, uid: string, a: Admission, now: real)
    requires uid in s.accounts
    ensures Footprint(NewRun(uid, s.accounts[uid].username, a, PlanFor(s, uid, a, now), now)) <= Claimed(PlanFor(s, uid, a, now))
  {
  }

  lemma AnnLeavesH(s: State, e: Event)
    requires s.runs == [Halt(ANN_G, 0.0), BOB_G, ANN_H]
    requires e == StopE("a", true, 0.0) || (e == LaunchE("a", "medium", true, 0.0) && "a" in s.accounts)
    requires e.LaunchE? ==> "h" !in Footprint(Moment(s, e)[3])
    ensures Leaves(s, e, "h") && !Occupied(Moment(s, e), "h") && SomebodyWaits(Moment(s, e))
  {
    assert ActiveRun(s.runs, "a") == Some(2) by { TheActiveOne(s.runs, "a", 2, 0.0); }
    var runs := Moment(s, e);
    assert runs[0] == s.runs[0] && runs[1] == BOB_G && runs[2] == Halt(ANN_H, 0.0);
    assert Waiting(runs[1]);
    assert "g"[0] != "h"[0];
  }
}
