/**
 The placement decision of gateway/app/scheduler.py: which nodes are eligible, how many notebooks each
 hosts, where the next launch goes, how many GPU hours a user has used, and who is told when a node frees.
 */
module Scheduler {
  import opened Prelude

  datatype NodeStatus = Online | Draining | Offline

  /** `gpu` is whether the node's labels carry a truthy "gpu" entry. */
  datatype Node = Node(hostname: string, status: NodeStatus, gpu: bool, heartbeat: Option<real>)

  datatype Mode = Exclusive | Shared | Boosted

  /** A row of notebook_runs; its position in the table is its identity. */
  datatype Run = Run(userId: string, username: string, node: string, profile: string, mode: Mode, gpus: int,
                     shared: bool, boostId: Option<nat>, active: bool, started: real, stopped: Option<real>,
                     ddp: seq<string>, rdzv: string)

  datatype Placement = Placement(node: Option<string>, mode: Mode, shared: bool, gpus: int,
                                 ddp: seq<string>, rdzv: string, colocated: seq<Run>, queued: bool)

  const OFFLINE_AFTER: real := 90.0

  // ---- Eligible nodes --------------------------------------------------------------------------

  predicate Eligible(n: Node, gpuOnly: bool, now: real) {
    n.heartbeat.Some? && now - n.heartbeat.value <= OFFLINE_AFTER && n.status != Draining && (gpuOnly ==> n.gpu)
  }

  /** `online_nodes`, reduced to the hostnames, in table order. */
  function OnlineHosts(nodes: seq<Node>, gpuOnly: bool, now: real): seq<string> {
    if nodes == [] then []
    else
      var n := nodes[|nodes| - 1];
      OnlineHosts(nodes[..|nodes| - 1], gpuOnly, now) + if Eligible(n, gpuOnly, now) then [n.hostname] else []
  }

  method OnlineNodes(nodes: seq<Node>, gpuOnly: bool, now: real) returns (hosts: seq<string>)
    ensures hosts == OnlineHosts(nodes, gpuOnly, now)
  {
    hosts := [];
    for i := 0 to |nodes|
      invariant hosts == OnlineHosts(nodes[..i], gpuOnly, now)
    {
      assert nodes[..i + 1][..i] == nodes[..i];
      var n := nodes[i];
      if n.heartbeat == None || now - n.heartbeat.value > OFFLINE_AFTER {
        continue;
      }
      if n.status == Draining {
        continue;
      }
      if gpuOnly && !n.gpu {
        continue;
      }
      hosts := hosts + [n.hostname];
    }
    assert nodes[..|nodes|] == nodes;
  }

  ghost predicate DistinctNodes(nodes: seq<Node>) {
    forall i, j :: 0 <= i < j < |nodes| ==> nodes[i].hostname != nodes[j].hostname
  }

  /** A host is listed exactly when its row shows a heartbeat at most 90 seconds old, no drain, and the label if one is needed. */
  lemma {:induction false} OnlineHostsExactly(nodes: seq<Node>, gpuOnly: bool, now: real)
    ensures forall h :: h in OnlineHosts(nodes, gpuOnly, now) <==>
              exists i :: 0 <= i < |nodes| && nodes[i].hostname == h
                          && nodes[i].heartbeat.Some? && now - nodes[i].heartbeat.value <= 90.0
                          && nodes[i].status != Draining && (gpuOnly ==> nodes[i].gpu)
  {
    if nodes != [] {
      var k := |nodes| - 1;
      OnlineHostsExactly(nodes[..k], gpuOnly, now);
      assert forall i :: 0 <= i < k ==> nodes[..k][i] == nodes[i];
    }
  }

  lemma {:induction false} OnlineHostsDistinct(nodes: seq<Node>, gpuOnly: bool, now: real)
    requires DistinctNodes(nodes)
    ensures Distinct(OnlineHosts(nodes, gpuOnly, now))
  {
    if nodes != [] {
      var k := |nodes| - 1;
      OnlineHostsDistinct(nodes[..k], gpuOnly, now);
      OnlineHostsExactly(nodes[..k], gpuOnly, now);
      DistinctAppend(OnlineHosts(nodes[..k], gpuOnly, now), nodes[k].hostname);
    }
  }

  lemma DistinctAppend(hosts: seq<string>, h: string)
    requires Distinct(hosts) && h !in hosts
    ensures Distinct(hosts + [h])
  {
  }

  // ---- Occupancy -------------------------------------------------------------------------------

  /** The hosts a run occupies: its node and its boost peers. */
  function Footprint(r: Run): set<string> {
    {r.node} + set h | h in r.ddp
  }

  function Times(h: string, hosts: seq<string>): nat {
    if hosts == [] then 0 else Times(h, hosts[..|hosts| - 1]) + if hosts[|hosts| - 1] == h then 1 else 0
  }

  /** What one run adds to the count of host `h`. */
  function Weight(h: string, r: Run): nat {
    if r.node == h then 1 else Times(h, r.ddp)
  }

  /** The count `_occupancy` arrives at for host `h`. */
  function Tally(h: string, runs: seq<Run>): nat {
    if runs == [] then 0 else Tally(h, runs[..|runs| - 1]) + Weight(h, runs[|runs| - 1])
  }

  /** `_occupancy` */
  method Occupancy(hosts: seq<string>, runs: seq<Run>) returns (occ: map<string, nat>)
    ensures occ.Keys == set h | h in hosts
    ensures forall h :: h in hosts ==> occ[h] == Tally(h, runs)
  {
    occ := map h | h in hosts :: 0;
    for i := 0 to |runs|
      invariant occ.Keys == set h | h in hosts
      invariant forall h :: h in hosts ==> occ[h] == Tally(h, runs[..i])
    {
      assert runs[..i + 1][..i] == runs[..i];
      occ := CountRun(occ, runs[i]);
    }
    assert runs[..|runs|] == runs;
  }

  /** The inner loop of `_occupancy`: one run counts at its node and at its other boost peers. */
  method CountRun(before: map<string, nat>, r: Run) returns (occ: map<string, nat>)
    ensures occ.Keys == before.Keys
    ensures forall h :: h in before ==> occ[h] == before[h] + Weight(h, r)
  {
    occ := before;
    if r.node in occ {
      occ := occ[r.node := occ[r.node] + 1];
    }
    for j := 0 to |r.ddp|
      invariant occ.Keys == before.Keys
      invariant forall h :: h in before ==> occ[h] == before[h] + if r.node == h then 1 else Times(h, r.ddp[..j])
    {
      var h := r.ddp[j];
      assert r.ddp[..j + 1][..j] == r.ddp[..j];
      if h in occ && h != r.node {
        occ := occ[h := occ[h] + 1];
      }
    }
    assert r.ddp[..|r.ddp|] == r.ddp;
  }

  /** The number of runs whose footprint contains host `h`. */
  function Load(h: string, runs: seq<Run>): nat {
    if runs == [] then 0
    else Load(h, runs[..|runs| - 1]) + if h in Footprint(runs[|runs| - 1]) then 1 else 0
  }

  ghost predicate PeersDistinct(runs: seq<Run>) {
    forall i :: 0 <= i < |runs| ==> Distinct(runs[i].ddp)
  }

  lemma {:induction false} TimesDistinct(h: string, hosts: seq<string>)
    requires Distinct(hosts)
    ensures Times(h, hosts) == if h in hosts then 1 else 0
  {
    if hosts != [] {
      var k := |hosts| - 1;
      TimesDistinct(h, hosts[..k]);
      assert hosts == hosts[..k] + [hosts[k]];
    }
  }

  /** Each listed host is counted exactly once for every run whose footprint contains it. */
  lemma {:induction false} TallyIsLoad(h: string, runs: seq<Run>)
    requires PeersDistinct(runs)
    ensures Tally(h, runs) == Load(h, runs)
  {
    if runs != [] {
      TallyIsLoad(h, runs[..|runs| - 1]);
      TimesDistinct(h, runs[|runs| - 1].ddp);
    }
  }

  lemma {:induction false} TallyZero(h: string, runs: seq<Run>)
    ensures Tally(h, runs) == 0 <==> forall i :: 0 <= i < |runs| ==> h !in Footprint(runs[i])
  {
    if runs != [] {
      var k := |runs| - 1;
      TallyZero(h, runs[..k]);
      TimesZero(h, runs[k].ddp);
      assert forall i :: 0 <= i < k ==> runs[..k][i] == runs[i];
    }
  }

  lemma {:induction false} TimesZero(h: string, hosts: seq<string>)
    ensures Times(h, hosts) == 0 <==> h !in hosts
  {
    if hosts != [] {
      TimesZero(h, hosts[..|hosts| - 1]);
      assert hosts == hosts[..|hosts| - 1] + [hosts[|hosts| - 1]];
    }
  }

  /** Total over the listed hosts. */
  function TotalTally(hosts: seq<string>, runs: seq<Run>): nat {
    if hosts == [] then 0 else TotalTally(hosts[..|hosts| - 1], runs) + Tally(hosts[|hosts| - 1], runs)
  }

  /** How many of a run's hosts are listed. */
  function Listed(hosts: seq<string>, r: Run): nat {
    |Footprint(r) * set h | h in hosts|
  }

  function TotalListed(hosts: seq<string>, runs: seq<Run>): nat {
    if runs == [] then 0 else TotalListed(hosts, runs[..|runs| - 1]) + Listed(hosts, runs[|runs| - 1])
  }

  lemma CountInsert(f: set<string>, init: set<string>, x: string)
    requires x !in init
    ensures |f * (init + {x})| == |f * init| + if x in f then 1 else 0
  {
    if x in f {
      assert f * (init + {x}) == f * init + {x};
    } else {
      assert f * (init + {x}) == f * init;
    }
  }

  lemma ListedCounts(hosts: seq<string>, r: Run)
    requires Distinct(hosts) && hosts != []
    ensures var k := |hosts| - 1;
            Listed(hosts, r) == Listed(hosts[..k], r) + if hosts[k] in Footprint(r) then 1 else 0
  {
    var k := |hosts| - 1;
    var init := set h | h in hosts[..k];
    assert hosts == hosts[..k] + [hosts[k]];
    assert (set h | h in hosts) == init + {hosts[k]};
    CountInsert(Footprint(r), init, hosts[k]);
  }

  lemma {:induction false} TotalListedStep(hosts: seq<string>, runs: seq<Run>)
    requires Distinct(hosts) && hosts != []
    ensures TotalListed(hosts, runs) == TotalListed(hosts[..|hosts| - 1], runs) + Load(hosts[|hosts| - 1], runs)
  {
    if runs != [] {
      TotalListedStep(hosts, runs[..|runs| - 1]);
      ListedCounts(hosts, runs[|runs| - 1]);
    }
  }

  lemma {:induction false} TotalListedNone(runs: seq<Run>)
    ensures TotalListed([], runs) == 0
  {
    if runs != [] {
      TotalListedNone(runs[..|runs| - 1]);
      assert Footprint(runs[|runs| - 1]) * (set h | h in []) == {};
    }
  }

  /** Conservation: the node counts add up to the runs' footprints, restricted to the listed nodes. */
  lemma {:induction false} OccupancyConserved(hosts: seq<string>, runs: seq<Run>)
    requires Distinct(hosts) && PeersDistinct(runs)
    ensures TotalTally(hosts, runs) == TotalListed(hosts, runs)
  {
    if hosts == [] {
      TotalListedNone(runs);
    } else {
      OccupancyConserved(hosts[..|hosts| - 1], runs);
      TotalListedStep(hosts, runs);
      TallyIsLoad(hosts[|hosts| - 1], runs);
    }
  }

  // ---- The decision ----------------------------------------------------------------------------

  /** Active runs of everybody else: the planner ignores the user's own run, which the table still shows active. */
  function Others(runs: seq<Run>, username: string): seq<Run> {
    if runs == [] then []
    else
      var r := runs[|runs| - 1];
      Others(runs[..|runs| - 1], username) + if r.active && r.username != username then [r] else []
  }

  /** The listed hosts with no run on them, in order. */
  function FreeHosts(hosts: seq<string>, runs: seq<Run>): seq<string> {
    if hosts == [] then []
    else
      var h := hosts[|hosts| - 1];
      FreeHosts(hosts[..|hosts| - 1], runs) + if Tally(h, runs) == 0 then [h] else []
  }

  /** The first host with the smallest count. */
  function LeastLoaded(hosts: seq<string>, runs: seq<Run>): string
    requires hosts != []
  {
    var k := |hosts| - 1;
    if k == 0 then hosts[0]
    else
      var best := LeastLoaded(hosts[..k], runs);
      if Tally(hosts[k], runs) < Tally(best, runs) then hosts[k] else best
  }

  /** The runs whose own node is `h`. */
  function On(h: string, runs: seq<Run>): seq<Run> {
    if runs == [] then []
    else On(h, runs[..|runs| - 1]) + if runs[|runs| - 1].node == h then [runs[|runs| - 1]] else []
  }

  function Want(gpus: int): int {
    Max(1, gpus)
  }

  /** The hosts a granted boost of `gpus` nodes gets: free ones if there are any, else one busy host. */
  function Chosen(hosts: seq<string>, runs: seq<Run>, gpus: int): seq<string>
    requires hosts != []
  {
    var free := FreeHosts(hosts, runs);
    if free == [] then [LeastLoaded(hosts, runs)]
    else if Want(gpus) < |free| then free[..Want(gpus)] else free
  }

  /** `plan_placement`, given the eligible hosts and everybody else's active runs; `boost` is the grant's size. */
  function Plan(hosts: seq<string>, runs: seq<Run>, wantsGpu: bool, boost: Option<int>): Placement {
    if hosts == [] then
      (match boost
       case Some(gpus) => Placement(None, Boosted, false, Want(gpus), [], "", [], false)
       case None => Placement(None, Exclusive, false, 0, [], "", [], false))
    else match boost
      case Some(gpus) =>
        var chosen := Chosen(hosts, runs, gpus);
        var primary := if chosen != [] then chosen[0] else "";
        Placement(Some(primary), Boosted, false, |chosen|, chosen, primary + ":29400", [], false)
      case None =>
        var free := FreeHosts(hosts, runs);
        var gpus := if wantsGpu then 1 else 0;
        if free != [] then Placement(Some(free[0]), Exclusive, false, gpus, [], "", [], false)
        else
          var target := LeastLoaded(hosts, runs);
          Placement(Some(target), Shared, true, gpus, [], "", On(target, runs), true)
  }

  predicate WantsGpu(profile: string, boost: Option<int>) {
    profile == "gpu" || boost.Some?
  }

  method OtherRuns(runs: seq<Run>, username: string) returns (others: seq<Run>)
    ensures others == Others(runs, username)
  {
    others := [];
    for i := 0 to |runs|
      invariant others == Others(runs[..i], username)
    {
      assert runs[..i + 1][..i] == runs[..i];
      if runs[i].active && runs[i].username != username {
        others := others + [runs[i]];
      }
    }
    assert runs[..|runs|] == runs;
  }

  /** The hosts counted zero. */
  method EmptyHosts(hosts: seq<string>, occ: map<string, nat>, ghost runs: seq<Run>) returns (free: seq<string>)
    requires forall h :: h in hosts ==> h in occ && occ[h] == Tally(h, runs)
    ensures free == FreeHosts(hosts, runs)
  {
    free := [];
    for i := 0 to |hosts|
      invariant free == FreeHosts(hosts[..i], runs)
    {
      assert hosts[..i + 1][..i] == hosts[..i];
      if occ[hosts[i]] == 0 {
        free := free + [hosts[i]];
      }
    }
    assert hosts[..|hosts|] == hosts;
  }

  /** `min(occ, key=occ.get)`: the first host with the smallest count. */
  method QuietestHost(hosts: seq<string>, occ: map<string, nat>, ghost runs: seq<Run>) returns (least: string)
    requires hosts != [] && forall h :: h in hosts ==> h in occ && occ[h] == Tally(h, runs)
    ensures least == LeastLoaded(hosts, runs)
  {
    least := hosts[0];
    for i := 1 to |hosts|
      invariant least == LeastLoaded(hosts[..i], runs)
      invariant least in hosts
    {
      assert hosts[..i + 1][..i] == hosts[..i];
      if occ[hosts[i]] < occ[least] {
        least := hosts[i];
      }
    }
    assert hosts[..|hosts|] == hosts;
  }

  method Colocated(target: string, runs: seq<Run>) returns (colocated: seq<Run>)
    ensures colocated == On(target, runs)
  {
    colocated := [];
    for i := 0 to |runs|
      invariant colocated == On(target, runs[..i])
    {
      assert runs[..i + 1][..i] == runs[..i];
      if runs[i].node == target {
        colocated := colocated + [runs[i]];
      }
    }
    assert runs[..|runs|] == runs;
  }

  /** `plan_placement` */
  method PlanPlacement(nodes: seq<Node>, table: seq<Run>, username: string, profile: string, boost: Option<int>, now: real)
    returns (p: Placement)
    ensures p == Plan(OnlineHosts(nodes, WantsGpu(profile, boost), now), Others(table, username), WantsGpu(profile, boost), boost)
  {
    var wantsGpu := profile == "gpu" || boost.Some?;
    var hosts := OnlineNodes(nodes, wantsGpu, now);
    if hosts == [] {
      if boost.Some? {
        return Placement(None, Boosted, false, Max(1, boost.value), [], "", [], false);
      }
      return Placement(None, Exclusive, false, 0, [], "", [], false);
    }
    var runs := OtherRuns(table, username);
    var occ := Occupancy(hosts, runs);
    var free := EmptyHosts(hosts, occ, runs);
    var least := QuietestHost(hosts, occ, runs);
    if boost.Some? {
      var want := Max(1, boost.value);
      var chosen := if free != [] then (if want < |free| then free[..want] else free) else [least];
      var primary := chosen[0];
      return Placement(Some(primary), Boosted, false, |chosen|, chosen, primary + ":29400", [], false);
    }
    if free != [] {
      return Placement(Some(free[0]), Exclusive, false, if wantsGpu then 1 else 0, [], "", [], false);
    }
    var colocated := Colocated(least, runs);
    return Placement(Some(least), Shared, true, if wantsGpu then 1 else 0, [], "", colocated, true);
  }

  // ---- What the decision guarantees --------------------------------------------------------------

  lemma {:induction false} FreeHostsExactly(hosts: seq<string>, runs: seq<Run>)
    ensures forall h :: h in FreeHosts(hosts, runs) <==> h in hosts && Tally(h, runs) == 0
  {
    if hosts != [] {
      FreeHostsExactly(hosts[..|hosts| - 1], runs);
      assert hosts == hosts[..|hosts| - 1] + [hosts[|hosts| - 1]];
    }
  }

  lemma {:induction false} FreeHostsDistinct(hosts: seq<string>, runs: seq<Run>)
    requires Distinct(hosts)
    ensures Distinct(FreeHosts(hosts, runs))
  {
    if hosts != [] {
      var k := |hosts| - 1;
      FreeHostsDistinct(hosts[..k], runs);
      FreeHostsExactly(hosts[..k], runs);
      if Tally(hosts[k], runs) == 0 {
        DistinctAppend(FreeHosts(hosts[..k], runs), hosts[k]);
      }
    }
  }

  lemma {:induction false} LeastLoadedIsLeast(hosts: seq<string>, runs: seq<Run>)
    requires hosts != []
    ensures LeastLoaded(hosts, runs) in hosts
    ensures forall h :: h in hosts ==> Tally(LeastLoaded(hosts, runs), runs) <= Tally(h, runs)
  {
    var k := |hosts| - 1;
    if k > 0 {
      LeastLoadedIsLeast(hosts[..k], runs);
    }
    forall h | h in hosts ensures Tally(LeastLoaded(hosts, runs), runs) <= Tally(h, runs) {
      assert h == hosts[k] || h in hosts[..k];
    }
  }

  /** The chosen host is the first of the least loaded: whatever comes before it carries more. */
  lemma {:induction false} LeastLoadedFirst(hosts: seq<string>, runs: seq<Run>) returns (k: nat)
    requires hosts != []
    ensures k < |hosts| && LeastLoaded(hosts, runs) == hosts[k]
    ensures forall j :: 0 <= j < k ==> Tally(hosts[k], runs) < Tally(hosts[j], runs)
    ensures forall j :: 0 <= j < |hosts| ==> Tally(hosts[k], runs) <= Tally(hosts[j], runs)
  {
    var last := |hosts| - 1;
    k := last;
    if last > 0 {
      var first := LeastLoadedFirst(hosts[..last], runs);
      assert forall j :: 0 <= j < last ==> hosts[..last][j] == hosts[j];
      if Tally(hosts[last], runs) >= Tally(hosts[first], runs) {
        k := first;
      }
    }
  }

  /** `at` lists, in order, the places in `hosts` of the hosts in `some`. */
  ghost predicate InOrder(some: seq<string>, hosts: seq<string>, at: seq<nat>) {
    && |at| == |some|
    && (forall i :: 0 <= i < |at| ==> at[i] < |hosts| && some[i] == hosts[at[i]])
    && forall i, j :: 0 <= i < j < |at| ==> at[i] < at[j]
  }

  lemma InOrderExtends(some: seq<string>, hosts: seq<string>, at: seq<nat>, h: string)
    requires InOrder(some, hosts, at)
    ensures InOrder(some, hosts + [h], at) && InOrder(some + [h], hosts + [h], at + [|hosts|])
  {
  }

  /** `at` holds exactly the places of hosts that no run is on. */
  ghost predicate MarksFree(at: seq<nat>, hosts: seq<string>, runs: seq<Run>) {
    forall k: nat :: k in at <==> k < |hosts| && Tally(hosts[k], runs) == 0
  }

  lemma MarksExtend(at: seq<nat>, hosts: seq<string>, runs: seq<Run>, h: string)
    requires MarksFree(at, hosts, runs)
    ensures MarksFree(if Tally(h, runs) == 0 then at + [|hosts|] else at, hosts + [h], runs)
  {
    forall k: nat | k < |hosts| ensures (hosts + [h])[k] == hosts[k] {
    }
  }

  /** The free hosts are the ones that no run is on, in table order. */
  lemma {:induction false} FreeHostsInOrder(hosts: seq<string>, runs: seq<Run>) returns (at: seq<nat>)
    ensures InOrder(FreeHosts(hosts, runs), hosts, at) && MarksFree(at, hosts, runs)
  {
    at := [];
    if hosts != [] {
      var last := |hosts| - 1;
      var h := hosts[last];
      var init := FreeHostsInOrder(hosts[..last], runs);
      InOrderExtends(FreeHosts(hosts[..last], runs), hosts[..last], init, h);
      MarksExtend(init, hosts[..last], runs, h);
      assert hosts == hosts[..last] + [h];
      at := if Tally(h, runs) == 0 then init + [last] else init;
    }
  }

  /** The eligible hosts come in the order of the node table. */
  lemma {:induction false} OnlineHostsInOrder(nodes: seq<Node>, gpuOnly: bool, now: real) returns (at: seq<nat>)
    ensures InOrder(OnlineHosts(nodes, gpuOnly, now), seq(|nodes|, i requires 0 <= i < |nodes| => nodes[i].hostname), at)
  {
    at := [];
    if nodes != [] {
      var last := |nodes| - 1;
      at := OnlineHostsInOrder(nodes[..last], gpuOnly, now);
      if Eligible(nodes[last], gpuOnly, now) {
        at := at + [last];
      }
    }
  }

  /**
   Which host a launch starts on: the first free one in table order, or, with none free, the first of the least loaded.
   A boost takes the free hosts from the front, as many as it may.
   */
  lemma PlanTakesFirst(hosts: seq<string>, runs: seq<Run>, wantsGpu: bool, boost: Option<int>) returns (k: nat)
    requires hosts != []
    ensures k < |hosts| && Plan(hosts, runs, wantsGpu, boost).node == Some(hosts[k])
    ensures Tally(hosts[k], runs) == 0 ==> forall j :: 0 <= j < k ==> Tally(hosts[j], runs) > 0
    ensures Tally(hosts[k], runs) > 0 ==>
              && (forall j :: 0 <= j < k ==> Tally(hosts[k], runs) < Tally(hosts[j], runs))
              && (forall j :: 0 <= j < |hosts| ==> Tally(hosts[k], runs) <= Tally(hosts[j], runs))
    ensures boost.Some? && Tally(hosts[k], runs) == 0 ==> Plan(hosts, runs, wantsGpu, boost).ddp <= FreeHosts(hosts, runs)
  {
    var at := FreeHostsInOrder(hosts, runs);
    if at != [] {
      k := at[0];
      assert k in at;
      forall j: nat | j < k ensures Tally(hosts[j], runs) > 0 {
        assert j !in at;
      }
    } else {
      k := LeastLoadedFirst(hosts, runs);
      assert k !in at;
    }
  }

  /** Every host a placement names is eligible; a boost's hosts are distinct and start with its node. */
  lemma PlanNamesHosts(hosts: seq<string>, runs: seq<Run>, wantsGpu: bool, boost: Option<int>)
    requires Distinct(hosts)
    ensures var p := Plan(hosts, runs, wantsGpu, boost);
            && (p.node.Some? <==> hosts != [])
            && (p.node.Some? ==> p.node.value in hosts)
            && (forall h :: h in p.ddp ==> h in hosts)
            && Distinct(p.ddp)
            && (p.ddp != [] ==> p.node == Some(p.ddp[0]))
  {
    FreeHostsExactly(hosts, runs);
    FreeHostsDistinct(hosts, runs);
    if hosts != [] {
      LeastLoadedIsLeast(hosts, runs);
    }
  }

  /** The hosts a placement will occupy. */
  function Claimed(p: Placement): set<string> {
    {p.node.GetOr("")} + set h | h in p.ddp
  }

  /** Whether a placement would land on somebody: shared, or a boost that found no free host. */
  predicate LandsOnBusy(p: Placement, hosts: seq<string>, runs: seq<Run>) {
    hosts != [] && p.mode != Exclusive && FreeHosts(hosts, runs) == []
  }

  ghost predicate Touches(claimed: set<string>, runs: seq<Run>) {
    exists i, h :: 0 <= i < |runs| && h in claimed && h in Footprint(runs[i])
  }

  /** A pinned placement meets another run's footprint exactly when there was no free host. */
  lemma PlanTouchesExactly(hosts: seq<string>, runs: seq<Run>, wantsGpu: bool, boost: Option<int>)
    requires hosts != [] && Distinct(hosts)
    ensures var p := Plan(hosts, runs, wantsGpu, boost);
            && (Touches(Claimed(p), runs) <==> FreeHosts(hosts, runs) == [])
            && (LandsOnBusy(p, hosts, runs) <==> FreeHosts(hosts, runs) == [])
            && (p.mode == Exclusive ==> FreeHosts(hosts, runs) != [])
            && (p.mode == Shared ==> FreeHosts(hosts, runs) == [])
  {
    var p := Plan(hosts, runs, wantsGpu, boost);
    var free := FreeHosts(hosts, runs);
    FreeHostsExactly(hosts, runs);
    LeastLoadedIsLeast(hosts, runs);
    if free == [] {
      var h := LeastLoaded(hosts, runs);
      assert h !in free && p.node == Some(h) && h in Claimed(p);
      TallyZero(h, runs);
      var i :| 0 <= i < |runs| && h in Footprint(runs[i]);
    } else {
      forall h | h in Claimed(p) ensures forall i :: 0 <= i < |runs| ==> h !in Footprint(runs[i]) {
        assert h in free;
        TallyZero(h, runs);
      }
    }
  }

  lemma {:induction false} DistinctSize(hosts: seq<string>)
    requires Distinct(hosts)
    ensures |set h | h in hosts| == |hosts|
  {
    if hosts != [] {
      var k := |hosts| - 1;
      DistinctSize(hosts[..k]);
      assert hosts == hosts[..k] + [hosts[k]];
      assert (set h | h in hosts) == (set h | h in hosts[..k]) + {hosts[k]};
    }
  }

  /** The eligible hosts that no run occupies. */
  function Idle(hosts: seq<string>, runs: seq<Run>): set<string> {
    set h | h in hosts && Tally(h, runs) == 0
  }

  lemma FreeAreIdle(hosts: seq<string>, runs: seq<Run>)
    requires Distinct(hosts)
    ensures |FreeHosts(hosts, runs)| == |Idle(hosts, runs)|
    ensures forall h :: h in FreeHosts(hosts, runs) ==> h in Idle(hosts, runs)
    ensures Idle(hosts, runs) == {} <==> FreeHosts(hosts, runs) == []
  {
    var free := FreeHosts(hosts, runs);
    FreeHostsExactly(hosts, runs);
    FreeHostsDistinct(hosts, runs);
    DistinctSize(free);
    assert (set h | h in free) == Idle(hosts, runs);
  }

  /**
   A boost gets as many idle hosts as were granted, or all of them when there are fewer; with none idle it gets one
   least-loaded host. Its size is the number of its hosts.
   */
  lemma BoostTakesIdle(hosts: seq<string>, runs: seq<Run>, wantsGpu: bool, granted: int)
    requires hosts != [] && Distinct(hosts)
    ensures var p, idle := Plan(hosts, runs, wantsGpu, Some(granted)), Idle(hosts, runs);
            && p.gpus == |p.ddp| && Distinct(p.ddp)
            && (idle != {} ==>
                  (forall h :: h in p.ddp ==> h in idle)
                  && |p.ddp| == (if Max(1, granted) < |idle| then Max(1, granted) else |idle|))
            && (idle == {} ==>
                  |p.ddp| == 1 && p.ddp[0] in hosts
                  && forall h :: h in hosts ==> Tally(p.ddp[0], runs) <= Tally(h, runs))
  {
    var free := FreeHosts(hosts, runs);
    FreeHostsDistinct(hosts, runs);
    FreeAreIdle(hosts, runs);
    if free == [] {
      LeastLoadedIsLeast(hosts, runs);
    }
  }

  // ---- Balance ---------------------------------------------------------------------------------

  lemma {:induction false} TotalAtLeast(hosts: seq<string>, runs: seq<Run>, m: nat)
    requires forall h :: h in hosts ==> m <= Tally(h, runs)
    ensures |hosts| * m <= TotalTally(hosts, runs)
  {
    if hosts != [] {
      var k := |hosts| - 1;
      TotalAtLeast(hosts[..k], runs, m);
      assert hosts[k] in hosts;
      assert |hosts| * m == k * m + m;
    }
  }

  lemma Scale(n: nat, a: int, b: int)
    requires a <= b
    ensures n * a <= n * b
  {
  }

  lemma ShareAtMost(n: nat, m: nat, total: nat)
    requires n > 0 && n * m <= total
    ensures m <= total / n
  {
    var q := total / n;
    assert total < n * q + n == n * (q + 1);
    if m > q {
      Scale(n, q + 1, m);
    }
  }

  /** A normal launch lands on a least-loaded eligible node and leaves it with at most floor(L / N) + 1 runs. */
  lemma LandsOnLeastLoaded(hosts: seq<string>, runs: seq<Run>, wantsGpu: bool)
    requires hosts != []
    ensures var p := Plan(hosts, runs, wantsGpu, None);
            && p.node.Some? && p.node.value in hosts
            && (forall h :: h in hosts ==> Tally(p.node.value, runs) <= Tally(h, runs))
            && Tally(p.node.value, runs) + 1 <= TotalTally(hosts, runs) / |hosts| + 1
            && (p.mode == Exclusive <==> exists h :: h in hosts && Tally(h, runs) == 0)
  {
    var p := Plan(hosts, runs, wantsGpu, None);
    FreeHostsExactly(hosts, runs);
    LeastLoadedIsLeast(hosts, runs);
    if FreeHosts(hosts, runs) != [] {
      assert p.node.value in FreeHosts(hosts, runs);
    } else {
      forall h | h in hosts ensures Tally(h, runs) != 0 {
        assert h !in FreeHosts(hosts, runs);
      }
    }
    TotalAtLeast(hosts, runs, Tally(p.node.value, runs));
    ShareAtMost(|hosts|, Tally(p.node.value, runs), TotalTally(hosts, runs));
  }
}
