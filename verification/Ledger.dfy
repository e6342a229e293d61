/**
 The placement ledger: the tables that gateway/app/routers/notebooks.py, admin.py and nodes.py change when
 notebooks are launched and stopped, boosts are asked for and decided, and nodes come and go. Requests are
 taken one at a time; the Hub call inside a request succeeds or fails as its `hubOk` says.
 */
module Ledger {
  import opened Prelude
  import opened Scheduler
  import opened Accounting

  datatype Account = Account(username: string, quota: Option<real>)

  datatype BoostStatus = Pending | Approved | Denied | Consumed | Expired

  datatype Boost = Boost(userId: string, gpus: int, status: BoostStatus, created: real)

  datatype Tidings = QuotaReached | NowSharing(newcomer: string, host: string) | BoostActive(gpus: int)
                   | BoostGranted(gpus: int) | BoostDeclined | NodeFreed(host: string)

  datatype Notice = Notice(userId: string, tidings: Tidings)

  /** The tables. Accounts are keyed by the immutable account id. */
  datatype State = State(nodes: seq<Node>, accounts: map<string, Account>, runs: seq<Run>,
                         boosts: seq<Boost>, notices: seq<Notice>)

  const PROFILES: set<string> := {"small", "medium", "large", "gpu"}

  // ---- Launch ------------------------------------------------------------------------------------

  function Normalise(profile: string): string {
    if profile in PROFILES then profile else "medium"
  }

  /** The user's most recently created approved grant; the earlier row wins a tie. */
  function LatestGrant(boosts: seq<Boost>, uid: string): Option<nat> {
    if boosts == [] then None
    else
      var k := |boosts| - 1;
      var best := LatestGrant(boosts[..k], uid);
      if boosts[k].userId == uid && boosts[k].status == Approved
         && (best == None || (best.value < k && boosts[best.value].created < boosts[k].created))
      then Some(k) else best
  }

  /** `_active_run` */
  function ActiveRun(runs: seq<Run>, uid: string): Option<nat> {
    if runs == [] then None
    else
      var k := |runs| - 1;
      var first := ActiveRun(runs[..k], uid);
      if first == None && runs[k].userId == uid && runs[k].active then Some(k) else first
  }

  /** What the quota check leaves of a launch request. */
  datatype Admission = Admission(profile: string, grant: Option<nat>, overQuota: bool)

  function Admit(s: State, uid: string, profile: string, now: real): Admission
    requires uid in s.accounts
  {
    var asked := Normalise(profile);
    var grant := LatestGrant(s.boosts, uid);
    var limit := s.accounts[uid].quota;
    if limit.Some? && (asked == "gpu" || grant.Some?) && Round2(Usage(s.runs, uid, now)) >= limit.value
    then Admission(if asked == "gpu" then "medium" else asked, None, true)
    else Admission(asked, grant, false)
  }

  function GrantSize(s: State, grant: Option<nat>): Option<int> {
    if grant.Some? && grant.value < |s.boosts| then Some(s.boosts[grant.value].gpus) else None
  }

  /** The hosts the planner may use for this request. */
  function Candidates(s: State, a: Admission, now: real): seq<string> {
    OnlineHosts(s.nodes, WantsGpu(a.profile, GrantSize(s, a.grant)), now)
  }

  /** The placement of an admitted request. The table still shows the user's own run as active. */
  function PlanFor(s: State, uid: string, a: Admission, now: real): Placement
    requires uid in s.accounts
  {
    var boost := GrantSize(s, a.grant);
    Plan(Candidates(s, a, now), Others(s.runs, s.accounts[uid].username), WantsGpu(a.profile, boost), boost)
  }

  function NewRun(uid: string, username: string, a: Admission, p: Placement, now: real): Run {
    Run(uid, username, p.node.GetOr(""), a.profile, p.mode, p.gpus, p.shared, a.grant, true, now, None,
        if p.mode == Boosted then p.ddp else [], if p.mode == Boosted then p.rdzv else "")
  }

  function Halt(r: Run, now: real): Run {
    r.(active := false, stopped := Some(now))
  }

  function HaltAt(runs: seq<Run>, i: Option<nat>, now: real): (r: seq<Run>) {
    if i.Some? && i.value < |runs| then runs[i.value := Halt(runs[i.value], now)] else runs
  }

  /** Tell everybody else on the chosen node that it is now shared. */
  function SharingNotices(uid: string, username: string, host: string, colocated: seq<Run>): seq<Notice> {
    if colocated == [] then []
    else
      var r := colocated[|colocated| - 1];
      SharingNotices(uid, username, host, colocated[..|colocated| - 1])
      + if r.userId != uid then [Notice(r.userId, NowSharing(username, host))] else []
  }

  function Consume(boosts: seq<Boost>, grant: Option<nat>): seq<Boost> {
    if grant.Some? && grant.value < |boosts| then boosts[grant.value := boosts[grant.value].(status := Consumed)] else boosts
  }

  /** `on_run_stopped`: tell the longest-waiting sharer that `host` is free, and stop counting it as waiting. */
  function Announce(s: State, host: string): State {
    match Promoted(s.runs, host)
    case None => s
    case Some(i) =>
      if i < |s.runs| then
        s.(runs := s.runs[i := s.runs[i].(shared := false)],
           notices := s.notices + [Notice(s.runs[i].userId, NodeFreed(host))])
      else s
  }

  /** A freed host is announced unless it is unnamed or the new run is on it. */
  function Release(s: State, freed: string, kept: string): State {
    if freed != "" && freed != kept then Announce(s, freed) else s
  }

  /** The node of the run at `i`, or no name. */
  function NodeAt(runs: seq<Run>, i: Option<nat>): string {
    if i.Some? && i.value < |runs| then runs[i.value].node else ""
  }

  /** Everything that is committed once the Hub has started the server, before the freed host is announced. */
  function Record(s: State, uid: string, a: Admission, now: real): State
    requires uid in s.accounts
  {
    var username := s.accounts[uid].username;
    var p := PlanFor(s, uid, a, now);
    s.(runs := HaltAt(s.runs, ActiveRun(s.runs, uid), now) + [NewRun(uid, username, a, p, now)],
       boosts := Consume(s.boosts, a.grant),
       notices := s.notices + SharingNotices(uid, username, p.node.GetOr(""), p.colocated)
                  + if a.grant.Some? then [Notice(uid, BoostActive(p.gpus))] else [])
  }

  /** The quota notice is committed before the Hub is called, so it stays even if the launch fails. */
  function Warn(s: State, uid: string, a: Admission): State {
    if a.overQuota then s.(notices := s.notices + [Notice(uid, QuotaReached)]) else s
  }

  function Launch(s: State, uid: string, profile: string, hubOk: bool, now: real): State {
    if uid !in s.accounts then s
    else
      var a := Admit(s, uid, profile, now);
      var warned := Warn(s, uid, a);
      if !hubOk then warned
      else Release(Record(warned, uid, a, now), NodeAt(s.runs, ActiveRun(s.runs, uid)), PlanFor(s, uid, a, now).node.GetOr(""))
  }

  // ---- The other requests --------------------------------------------------------------------------

  function Stop(s: State, uid: string, hubOk: bool, now: real): State {
    var i := ActiveRun(s.runs, uid);
    if !hubOk || i == None then s
    else Release(s.(runs := HaltAt(s.runs, i, now)), NodeAt(s.runs, i), "")
  }

  function ExpirePending(boosts: seq<Boost>, uid: string): (r: seq<Boost>)
  {
    seq(|boosts|, i requires 0 <= i < |boosts| =>
      if boosts[i].userId == uid && boosts[i].status == Pending then boosts[i].(status := Expired) else boosts[i])
  }

  function RequestBoost(s: State, uid: string, gpus: int, now: real): State {
    if uid !in s.accounts then s
    else s.(boosts := ExpirePending(s.boosts, uid) + [Boost(uid, gpus, Pending, now)])
  }

  /** The size an administrator grants: none given, or zero, keeps what was asked for. */
  function GrantedSize(asked: int, granted: Option<int>): int {
    if granted.Some? && granted.value != 0 then granted.value else asked
  }

  /** An administrator may change the number of nodes while approving; a decided request is left alone. */
  function Approve(s: State, id: nat, gpus: Option<int>): State {
    if id >= |s.boosts| || s.boosts[id].status != Pending then s
    else
      var b := s.boosts[id].(status := Approved, gpus := GrantedSize(s.boosts[id].gpus, gpus));
      s.(boosts := s.boosts[id := b], notices := s.notices + [Notice(b.userId, BoostGranted(b.gpus))])
  }

  function Deny(s: State, id: nat): State {
    if id >= |s.boosts| || s.boosts[id].status != Pending then s
    else s.(boosts := s.boosts[id := s.boosts[id].(status := Denied)],
            notices := s.notices + [Notice(s.boosts[id].userId, BoostDeclined)])
  }

  function SetQuota(s: State, uid: string, limit: Option<real>): State {
    if uid !in s.accounts then s else s.(accounts := s.accounts[uid := s.accounts[uid].(quota := limit)])
  }

  /** A new account; ids and usernames are unique. */
  function AddAccount(s: State, uid: string, username: string): State {
    if uid in s.accounts || exists u :: u in s.accounts && s.accounts[u].username == username then s
    else s.(accounts := s.accounts[uid := Account(username, None)])
  }

  function FindNode(nodes: seq<Node>, host: string): Option<nat> {
    if nodes == [] then None
    else
      var k := |nodes| - 1;
      var first := FindNode(nodes[..k], host);
      if first == None && nodes[k].hostname == host then Some(k) else first
  }

  function WithNode(s: State, i: nat, n: Node): State {
    if i < |s.nodes| then s.(nodes := s.nodes[i := n]) else s
  }

  /** Registering again brings a node back online, even a draining one; empty labels keep the old ones. */
  function Register(s: State, host: string, gpu: Option<bool>, now: real): State {
    match FindNode(s.nodes, host)
    case None => s.(nodes := s.nodes + [Node(host, Online, gpu.GetOr(false), Some(now))])
    case Some(i) => if i < |s.nodes| then WithNode(s, i, Node(host, Online, gpu.GetOr(s.nodes[i].gpu), Some(now))) else s
  }

  /** A heartbeat refreshes a node but never ends a drain. */
  function Heartbeat(s: State, host: string, gpu: Option<bool>, now: real): State {
    match FindNode(s.nodes, host)
    case None => s
    case Some(i) =>
      if i < |s.nodes| then
        WithNode(s, i, Node(host, if s.nodes[i].status == Draining then Draining else Online,
                            gpu.GetOr(s.nodes[i].gpu), Some(now)))
      else s
  }

  function SetStatus(s: State, host: string, status: NodeStatus): State {
    match FindNode(s.nodes, host)
    case None => s
    case Some(i) => if i < |s.nodes| then WithNode(s, i, s.nodes[i].(status := status)) else s
  }

  // ---- Runs ----------------------------------------------------------------------------------------

  datatype Event =
    | LaunchE(uid: string, profile: string, hubOk: bool, now: real)
    | StopE(uid: string, hubOk: bool, now: real)
    | RequestBoostE(uid: string, gpus: int, now: real)
    | ApproveE(id: nat, granted: Option<int>, now: real)
    | DenyE(id: nat, now: real)
    | SetQuotaE(uid: string, limit: Option<real>, now: real)
    | AddAccountE(uid: string, username: string, now: real)
    | RegisterE(host: string, gpu: Option<bool>, now: real)
    | HeartbeatE(host: string, gpu: Option<bool>, now: real)
    | DrainE(host: string, now: real)
    | ActivateE(host: string, now: real)

  function Step(s: State, e: Event): State {
    match e
    case LaunchE(uid, profile, hubOk, now) => Launch(s, uid, profile, hubOk, now)
    case StopE(uid, hubOk, now) => Stop(s, uid, hubOk, now)
    case RequestBoostE(uid, gpus, now) => RequestBoost(s, uid, gpus, now)
    case ApproveE(id, granted, now) => Approve(s, id, granted)
    case DenyE(id, now) => Deny(s, id)
    case SetQuotaE(uid, limit, now) => SetQuota(s, uid, limit)
    case AddAccountE(uid, username, now) => AddAccount(s, uid, username)
    case RegisterE(host, gpu, now) => Register(s, host, gpu, now)
    case HeartbeatE(host, gpu, now) => Heartbeat(s, host, gpu, now)
    case DrainE(host, now) => SetStatus(s, host, Draining)
    case ActivateE(host, now) => SetStatus(s, host, Online)
  }

  const EMPTY: State := State([], map[], [], [], [])

  function After(run: Trace<Event>): State {
    match run
    case Start => EMPTY
    case Then(before, e) => Step(After(before), e)
  }

  function TimeOf(e: Event): real {
    e.now
  }
}
