/**
 When a node may be used, told from the messages alone: registrations and heartbeats (gateway/app/routers/nodes.py)
 and the administrators' switches (gateway/app/routers/admin.py), folded host by host without any table.
 */
module LedgerBeats {
  import opened Prelude
  import opened Scheduler
  import opened Ledger
  import opened LedgerRuns

  /** What has been heard of a host: when last, whether it is drained, whether it is labelled for GPU work. */
  datatype Beat = Beat(at: real, drained: bool, gpu: bool)

  /** The first registration makes a host known; each later one, and each heartbeat, is news of it. */
  function Hear(b: Option<Beat>, e: Event, host: string): Option<Beat> {
    match e
    case RegisterE(h, gpu, now) =>
      if h != host then b else Some(Beat(now, false, gpu.GetOr(if b.Some? then b.value.gpu else false)))
    case HeartbeatE(h, gpu, now) =>
      if h != host || b == None then b else Some(Beat(now, b.value.drained, gpu.GetOr(b.value.gpu)))
    case DrainE(h, _) => if h != host || b == None then b else Some(b.value.(drained := true))
    case ActivateE(h, _) => if h != host || b == None then b else Some(b.value.(drained := false))
    case _ => b
  }

  function Heard(run: Trace<Event>, host: string): Option<Beat> {
    match run
    case Start => None
    case Then(before, e) => Hear(Heard(before, host), e, host)
  }

  /** The table shows of a host what has been heard of it. */
  ghost predicate Shows(nodes: seq<Node>, host: string, b: Option<Beat>) {
    && (b == None ==> forall i :: 0 <= i < |nodes| ==> nodes[i].hostname != host)
    && (b.Some? ==> exists i :: 0 <= i < |nodes| && nodes[i].hostname == host)
    && (b.Some? ==> forall i :: 0 <= i < |nodes| && nodes[i].hostname == host ==>
          && nodes[i].heartbeat == Some(b.value.at) && nodes[i].gpu == b.value.gpu
          && (nodes[i].status == Draining <==> b.value.drained))
  }

  lemma RegisterShows(s: State, h: string, gpu: Option<bool>, now: real, host: string, b: Option<Beat>)
    requires DistinctNodes(s.nodes) && Shows(s.nodes, host, b)
    ensures Shows(Register(s, h, gpu, now).nodes, host, Hear(b, RegisterE(h, gpu, now), host))
  {
    FindNodeExactly(s.nodes, h);
    UpdateShows(s.nodes, h, Register(s, h, gpu, now).nodes, host, b);
    assert Register(s, h, gpu, now).nodes[FindNode(s.nodes, h).GetOr(|s.nodes|)].hostname == h;
  }

  lemma HeartbeatShows(s: State, h: string, gpu: Option<bool>, now: real, host: string, b: Option<Beat>)
    requires DistinctNodes(s.nodes) && Shows(s.nodes, host, b)
    ensures Shows(Heartbeat(s, h, gpu, now).nodes, host, Hear(b, HeartbeatE(h, gpu, now), host))
  {
    FindNodeExactly(s.nodes, h);
    UpdateShows(s.nodes, h, Heartbeat(s, h, gpu, now).nodes, host, b);
  }

  lemma SwitchShows(s: State, h: string, status: NodeStatus, host: string, b: Option<Beat>)
    requires DistinctNodes(s.nodes) && Shows(s.nodes, host, b)
    ensures Shows(SetStatus(s, h, status).nodes, host,
                  if h != host || b == None then b else Some(b.value.(drained := status == Draining)))
  {
    FindNodeExactly(s.nodes, h);
    UpdateShows(s.nodes, h, SetStatus(s, h, status).nodes, host, b);
  }

  lemma StepShows(s: State, e: Event, host: string, b: Option<Beat>)
    requires DistinctNodes(s.nodes) && Shows(s.nodes, host, b)
    ensures Shows(Step(s, e).nodes, host, Hear(b, e, host))
  {
    match e
    case RegisterE(h, gpu, now) => RegisterShows(s, h, gpu, now, host, b);
    case HeartbeatE(h, gpu, now) => HeartbeatShows(s, h, gpu, now, host, b);
    case DrainE(h, _) => SwitchShows(s, h, Draining, host, b);
    case ActivateE(h, _) => SwitchShows(s, h, Online, host, b);
    case LaunchE(uid, profile, hubOk, now) => LaunchKeepsCluster(s, uid, profile, hubOk, now);
    case _ =>
  }

  /** A change to the row of another host, or a row added for one, shows nothing new of this host. */
  lemma UpdateShows(nodes: seq<Node>, h: string, nodes': seq<Node>, host: string, b: Option<Beat>)
    requires Shows(nodes, host, b) && |nodes| <= |nodes'|
    requires forall i :: 0 <= i < |nodes| ==> nodes'[i].hostname == nodes[i].hostname && (nodes[i].hostname != h ==> nodes'[i] == nodes[i])
    requires forall i :: |nodes| <= i < |nodes'| ==> nodes'[i].hostname == h
    ensures h != host ==> Shows(nodes', host, b)
  {
    if h != host && b.Some? {
      var i :| 0 <= i < |nodes| && nodes[i].hostname == host;
      assert nodes'[i].hostname == host;
    }
  }

  lemma {:induction false} TableShows(run: Trace<Event>, host: string, now: real)
    requires MonotoneUpTo(run, TimeOf, now)
    ensures Shows(After(run).nodes, host, Heard(run, host))
  {
    match run
    case Start =>
    case Then(before, e) =>
      TableShows(before, host, e.now);
      Reachable(before, e.now);
      StepShows(After(before), e, host, Heard(before, host));
  }

  /**
   In every reachable ledger a launch may use a host exactly when it has been heard of in the last 90 seconds, is not
   drained, and, for GPU work, was last labelled for it.
   */
  lemma UsableExactly(run: Trace<Event>, host: string, gpuOnly: bool, now: real)
    requires MonotoneUpTo(run, TimeOf, now)
    ensures host in OnlineHosts(After(run).nodes, gpuOnly, now) <==>
              var b := Heard(run, host); b.Some? && now - b.value.at <= 90.0 && !b.value.drained && (gpuOnly ==> b.value.gpu)
  {
    TableShows(run, host, now);
    OnlineHostsExactly(After(run).nodes, gpuOnly, now);
  }

  /** Nothing drains `host` between `run` and `later`. */
  ghost predicate Undrained(later: Trace<Event>, run: Trace<Event>, host: string) {
    || later == run
    || (later.Then? && !(later.event.DrainE? && later.event.host == host) && Undrained(later.before, run, host))
  }

  lemma {:induction false} HeardLater(run: Trace<Event>, later: Trace<Event>, host: string, at: real, now: real)
    requires Undrained(later, run, host) && MonotoneUpTo(later, TimeOf, now) && at <= now
    requires run.Then? && run.event.now == at
    requires Heard(run, host).Some? && Heard(run, host).value.at >= at && !Heard(run, host).value.drained
    ensures Heard(later, host).Some? && Heard(later, host).value.at >= at && !Heard(later, host).value.drained
  {
    if later != run {
      UndrainedFollows(run, later.before, host);
      TimesGrow(run, later.before, later.event.now);
      HeardLater(run, later.before, host, at, later.event.now);
    }
  }

  lemma {:induction false} TimesGrow(run: Trace<Event>, later: Trace<Event>, now: real)
    requires Follows(later, run) && run.Then? && MonotoneUpTo(later, TimeOf, now)
    ensures run.event.now <= now
  {
    if later != run {
      TimesGrow(run, later.before, later.event.now);
    }
  }

  lemma {:induction false} UndrainedFollows(run: Trace<Event>, later: Trace<Event>, host: string)
    requires Undrained(later, run, host)
    ensures Follows(later, run)
  {
    if later != run {
      UndrainedFollows(run, later.before, host);
    }
  }

  /** A heartbeat of a host that is not drained keeps it usable for 90 seconds, unless it is drained in the meantime. */
  lemma HeartbeatKeepsUsable(before: Trace<Event>, e: Event, later: Trace<Event>, now: real)
    requires e.HeartbeatE? && Heard(before, e.host).Some? && !Heard(before, e.host).value.drained
    requires Undrained(later, Then(before, e), e.host) && MonotoneUpTo(later, TimeOf, now) && now <= e.now + 90.0
    ensures e.host in OnlineHosts(After(later).nodes, false, now)
  {
    UndrainedFollows(Then(before, e), later, e.host);
    TimesGrow(Then(before, e), later, now);
    HeardLater(Then(before, e), later, e.host, e.now, now);
    UsableExactly(later, e.host, false, now);
  }
}
