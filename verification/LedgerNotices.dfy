/**
 The waiting list over whole runs of the ledger: who is told that a host has been freed, when, and how often.
 (gateway/app/scheduler.py on_run_stopped, as called by launch and stop.)
 */
module LedgerNotices {
  import opened Prelude
  import opened Scheduler
  import opened Accounting
  import opened Ledger
  import opened LedgerRuns

  // ---- The announcement inside a step ------------------------------------------------------------------

  predicate Places(s: State, e: Event) {
    e.LaunchE? && e.hubOk && e.uid in s.accounts
  }

  /** The runs at the moment `on_run_stopped` looks at them: the old run halted, the new one recorded. */
  function Moment(s: State, e: Event): seq<Run> {
    if Places(s, e) then
      var a := Admit(s, e.uid, e.profile, e.now);
      HaltAt(s.runs, ActiveRun(s.runs, e.uid), e.now)
      + [NewRun(e.uid, s.accounts[e.uid].username, a, PlanFor(s, e.uid, a, e.now), e.now)]
    else if e.StopE? && e.hubOk then HaltAt(s.runs, ActiveRun(s.runs, e.uid), e.now)
    else s.runs
  }

  /** The host a step frees: where the halted run was, unless the user's new run is there too. */
  function Freed(s: State, e: Event): string {
    if Places(s, e) then
      var host := NodeAt(s.runs, ActiveRun(s.runs, e.uid));
      if host != PlanFor(s, e.uid, Admit(s, e.uid, e.profile, e.now), e.now).node.GetOr("") then host else ""
    else if e.StopE? && e.hubOk then NodeAt(s.runs, ActiveRun(s.runs, e.uid))
    else ""
  }

  /** The run whose user is told about the freed host, if any. */
  function Tells(s: State, e: Event): Option<nat> {
    if Freed(s, e) == "" then None else Promoted(Moment(s, e), Freed(s, e))
  }

  /** The free-node notices among all notices, oldest first. */
  function Announcements(notices: seq<Notice>): seq<Notice> {
    if notices == [] then []
    else
      var n := notices[|notices| - 1];
      Announcements(notices[..|notices| - 1]) + if n.tidings.NodeFreed? then [n] else []
  }

  /** What the user of the run told is told. */
  function Word(runs: seq<Run>, told: Option<nat>, host: string): seq<Notice> {
    if told.Some? && told.value < |runs| then [Notice(runs[told.value].userId, NodeFreed(host))] else []
  }

  lemma {:induction false} AnnouncementsConcat(a: seq<Notice>, b: seq<Notice>)
    ensures Announcements(a + b) == Announcements(a) + Announcements(b)
  {
    if b == [] {
      assert a + b == a;
    } else {
      AnnouncementsConcat(a, b[..|b| - 1]);
      assert (a + b)[..|a + b| - 1] == a + b[..|b| - 1];
    }
  }

  lemma {:induction false} SharingTellsNobody(uid: string, username: string, host: string, colocated: seq<Run>)
    ensures Announcements(SharingNotices(uid, username, host, colocated)) == []
  {
    if colocated != [] {
      var init := colocated[..|colocated| - 1];
      SharingTellsNobody(uid, username, host, init);
      AnnouncementsConcat(SharingNotices(uid, username, host, init),
                       if colocated[|colocated| - 1].userId != uid
                       then [Notice(colocated[|colocated| - 1].userId, NowSharing(username, host))] else []);
    }
  }

  lemma OtherTidings(notices: seq<Notice>, n: Notice)
    requires !n.tidings.NodeFreed?
    ensures Announcements(notices + [n]) == Announcements(notices)
  {
    assert (notices + [n])[..|notices|] == notices;
  }

  lemma FreedTidings(notices: seq<Notice>, uid: string, host: string)
    ensures Announcements(notices + [Notice(uid, NodeFreed(host))]) == Announcements(notices) + [Notice(uid, NodeFreed(host))]
  {
    assert (notices + [Notice(uid, NodeFreed(host))])[..|notices|] == notices;
  }

  lemma AnnounceTells(s: State, host: string)
    requires host != ""
    ensures Announce(s, host).runs == Clear(s.runs, Promoted(s.runs, host))
    ensures Announcements(Announce(s, host).notices) == Announcements(s.notices) + Word(s.runs, Promoted(s.runs, host), host)
  {
    var told := Promoted(s.runs, host);
    if told.Some? && told.value < |s.runs| {
      FreedTidings(s.notices, s.runs[told.value].userId, host);
    }
  }

  lemma RecordTellsNobody(s: State, uid: string, a: Admission, now: real)
    requires uid in s.accounts
    ensures Announcements(Record(s, uid, a, now).notices) == Announcements(s.notices)
  {
    var p := PlanFor(s, uid, a, now);
    var sharing := SharingNotices(uid, s.accounts[uid].username, p.node.GetOr(""), p.colocated);
    SharingTellsNobody(uid, s.accounts[uid].username, p.node.GetOr(""), p.colocated);
    AnnouncementsConcat(s.notices, sharing);
    if a.grant.Some? {
      OtherTidings(s.notices + sharing, Notice(uid, BoostActive(p.gpus)));
      assert Record(s, uid, a, now).notices == s.notices + sharing + [Notice(uid, BoostActive(p.gpus))];
    } else {
      assert Record(s, uid, a, now).notices == s.notices + sharing;
    }
  }

  lemma WarnTellsNobody(s: State, uid: string, a: Admission)
    ensures Announcements(Warn(s, uid, a).notices) == Announcements(s.notices)
  {
    OtherTidings(s.notices, Notice(uid, QuotaReached));
  }

  lemma LaunchTells(s: State, e: Event)
    requires Places(s, e)
    ensures Announcements(Step(s, e).notices) == Announcements(s.notices) + Word(Moment(s, e), Tells(s, e), Freed(s, e))
    ensures Step(s, e).runs == Clear(Moment(s, e), Tells(s, e))
  {
    var a := Admit(s, e.uid, e.profile, e.now);
    var warned := Warn(s, e.uid, a);
    var recorded := Record(warned, e.uid, a, e.now);
    WarnTellsNobody(s, e.uid, a);
    RecordTellsNobody(warned, e.uid, a, e.now);
    assert recorded.runs == Moment(s, e);
    if Freed(s, e) != "" {
      AnnounceTells(recorded, Freed(s, e));
    }
  }

  lemma StopTells(s: State, e: Event)
    requires e.StopE? && e.hubOk
    ensures Announcements(Step(s, e).notices) == Announcements(s.notices) + Word(Moment(s, e), Tells(s, e), Freed(s, e))
    ensures Step(s, e).runs == Clear(Moment(s, e), Tells(s, e))
  {
    if Freed(s, e) != "" {
      AnnounceTells(s.(runs := Moment(s, e)), Freed(s, e));
    }
  }

  lemma QuietStep(s: State, e: Event)
    requires !Places(s, e) && !(e.StopE? && e.hubOk)
    ensures Announcements(Step(s, e).notices) == Announcements(s.notices) && Step(s, e).runs == s.runs
  {
    match e
    case LaunchE(uid, profile, _, now) =>
      if uid in s.accounts {
        WarnTellsNobody(s, uid, Admit(s, uid, profile, now));
      }
    case ApproveE(id, granted, _) =>
      if id < |s.boosts| && s.boosts[id].status == Pending {
        OtherTidings(s.notices, Notice(s.boosts[id].userId, BoostGranted(GrantedSize(s.boosts[id].gpus, granted))));
      }
    case DenyE(id, _) =>
      if id < |s.boosts| && s.boosts[id].status == Pending {
        OtherTidings(s.notices, Notice(s.boosts[id].userId, BoostDeclined));
      }
    case _ =>
  }

  /** Every step: at most one user is told, by a notice naming the freed host, and exactly that run's flag is cleared. */
  lemma StepTells(s: State, e: Event)
    ensures Announcements(Step(s, e).notices) == Announcements(s.notices) + Word(Moment(s, e), Tells(s, e), Freed(s, e))
    ensures Step(s, e).runs == Clear(Moment(s, e), Tells(s, e))
  {
    if Places(s, e) {
      LaunchTells(s, e);
    } else if e.StopE? && e.hubOk {
      StopTells(s, e);
    } else {
      QuietStep(s, e);
    }
  }

  // ---- Who is told about sharing --------------------------------------------------------------------------

  lemma {:induction false} SharingExactly(uid: string, username: string, host: string, colocated: seq<Run>, n: Notice)
    ensures n in SharingNotices(uid, username, host, colocated) <==>
              n.tidings == NowSharing(username, host) && n.userId != uid && exists r :: r in colocated && r.userId == n.userId
  {
    if colocated != [] {
      var k := |colocated| - 1;
      SharingExactly(uid, username, host, colocated[..k], n);
      assert colocated == colocated[..k] + [colocated[k]];
    }
  }

  lemma {:induction false} OnExactly(h: string, runs: seq<Run>, r: Run)
    ensures r in On(h, runs) <==> r in runs && r.node == h
  {
    if runs != [] {
      OnExactly(h, runs[..|runs| - 1], r);
      assert runs == runs[..|runs| - 1] + [runs[|runs| - 1]];
    }
  }

  lemma {:induction false} OthersExactly(runs: seq<Run>, username: string, r: Run)
    ensures r in Others(runs, username) <==> r in runs && r.active && r.username != username
  {
    if runs != [] {
      OthersExactly(runs[..|runs| - 1], username, r);
      assert runs == runs[..|runs| - 1] + [runs[|runs| - 1]];
    }
  }

  /**
   A launch that has to share warns exactly the other users with an active run on the chosen node; one that does not
   share warns nobody.
   */
  lemma SharersTold(s: State, uid: string, a: Admission, now: real, n: Notice)
    requires uid in s.accounts && UniqueNames(s.accounts) && Named(s.accounts, s.runs)
    ensures var p, username := PlanFor(s, uid, a, now), s.accounts[uid].username;
            n in SharingNotices(uid, username, p.node.GetOr(""), p.colocated) <==>
              && p.mode == Shared && n.tidings == NowSharing(username, p.node.GetOr("")) && n.userId != uid
              && exists r :: r in s.runs && r.active && r.node == p.node.GetOr("") && r.userId == n.userId
  {
    var p, username := PlanFor(s, uid, a, now), s.accounts[uid].username;
    var host := p.node.GetOr("");
    SharingExactly(uid, username, host, p.colocated, n);
    if p.mode == Shared {
      assert p.colocated == On(host, Others(s.runs, username));
      forall r | r in s.runs ensures r in p.colocated <==> r.active && r.username != username && r.node == host {
        OnExactly(host, Others(s.runs, username), r);
        OthersExactly(s.runs, username, r);
      }
      forall r | r in p.colocated ensures r in s.runs && r.active && r.node == host {
        OnExactly(host, Others(s.runs, username), r);
        OthersExactly(s.runs, username, r);
      }
      assert forall r :: r in s.runs && r.userId != uid ==> r.username != username;
    }
  }

  // ---- The ledger of notices ------------------------------------------------------------------------------

  /** The runs told so far, oldest announcement first. */
  function Told(run: Trace<Event>): seq<nat> {
    match run
    case Start => []
    case Then(before, e) =>
      Told(before) + if Tells(After(before), e).Some? then [Tells(After(before), e).value] else []
  }

  /** The hosts announced so far, oldest announcement first. */
  function HostsTold(run: Trace<Event>): seq<string> {
    match run
    case Start => []
    case Then(before, e) => HostsTold(before) + if Tells(After(before), e).Some? then [Freed(After(before), e)] else []
  }

  predicate Cleared(r: Run) {
    r.mode == Shared && !r.shared
  }

  /** `told` lists exactly the shared-mode runs whose waiting flag has been cleared, each once. */
  ghost predicate Listing(told: seq<nat>, runs: seq<Run>) {
    && Distinct(told)
    && (forall k :: 0 <= k < |told| ==> told[k] < |runs| && Cleared(runs[told[k]]))
    && (forall i :: 0 <= i < |runs| && Cleared(runs[i]) ==> i in told)
    && (forall i :: 0 <= i < |runs| && runs[i].shared ==> runs[i].mode == Shared)
  }

  function Words(told: seq<nat>, hosts: seq<string>, runs: seq<Run>): seq<Notice>
    requires |hosts| == |told| && forall k :: 0 <= k < |told| ==> told[k] < |runs|
  {
    seq(|told|, k requires 0 <= k < |told| => Notice(runs[told[k]].userId, NodeFreed(hosts[k])))
  }

  /** Nothing that a listing looks at changes while a step halts and appends. */
  lemma MomentListing(s: State, e: Event, told: seq<nat>, hosts: seq<string>)
    requires Listing(told, s.runs) && |hosts| == |told|
    ensures Listing(told, Moment(s, e)) && Words(told, hosts, Moment(s, e)) == Words(told, hosts, s.runs)
  {
    var runs := Moment(s, e);
    if Places(s, e) {
      assert !Cleared(runs[|s.runs|]);
    }
    assert |s.runs| <= |runs|;
    forall i | 0 <= i < |s.runs| ensures Cleared(runs[i]) <==> Cleared(s.runs[i])
      ensures runs[i].userId == s.runs[i].userId
    {
    }
  }

  lemma ClearListing(told: seq<nat>, hosts: seq<string>, runs: seq<Run>, w: nat, host: string)
    requires Listing(told, runs) && |hosts| == |told| && w < |runs| && Waiting(runs[w])
    ensures Listing(told + [w], Clear(runs, Some(w)))
    ensures Words(told + [w], hosts + [host], Clear(runs, Some(w))) == Words(told, hosts, runs) + Word(runs, Some(w), host)
  {
    var later := Clear(runs, Some(w));
    assert w !in told && Distinct(told + [w]);
    forall i | 0 <= i < |later| && Cleared(later[i]) ensures i in told + [w] {
      assert i == w || Cleared(runs[i]);
    }
    assert Words(told + [w], hosts + [host], later) == Words(told, hosts, runs) + Word(runs, Some(w), host) by {
      assert forall k :: 0 <= k < |told| ==> later[told[k]].userId == runs[told[k]].userId;
    }
  }

  /**
   The free-node notices sent so far went, in order, to the users of `Told`, naming the hosts of `HostsTold`: exactly the
   shared-mode runs whose waiting flag has been cleared, none of them twice.
   */
  lemma {:induction false} NoticesMatchCleared(run: Trace<Event>)
    ensures Listing(Told(run), After(run).runs)
    ensures |HostsTold(run)| == |Told(run)| && Announcements(After(run).notices) == Words(Told(run), HostsTold(run), After(run).runs)
  {
    match run
    case Start =>
    case Then(before, e) =>
      var s := After(before);
      NoticesMatchCleared(before);
      StepTells(s, e);
      MomentListing(s, e, Told(before), HostsTold(before));
      if Tells(s, e).Some? {
        NextWaiterExactly(Moment(s, e));
        ClearListing(Told(before), HostsTold(before), Moment(s, e), Tells(s, e).value, Freed(s, e));
      }
  }

  // ---- Who is told, and when ----------------------------------------------------------------------------------

  /** Rows are in order of their start times. */
  ghost predicate Ordered(runs: seq<Run>, now: real) {
    && (forall i :: 0 <= i < |runs| ==> runs[i].started <= now)
    && (forall i, j :: 0 <= i < j < |runs| ==> runs[i].started <= runs[j].started)
  }

  lemma MomentOrdered(s: State, e: Event, last: real)
    requires Ordered(s.runs, last) && last <= e.now
    ensures Ordered(Moment(s, e), e.now)
  {
  }

  lemma ClearOrdered(runs: seq<Run>, told: Option<nat>, last: real, now: real)
    requires Ordered(runs, last) && last <= now
    ensures Ordered(Clear(runs, told), now)
  {
  }

  lemma {:induction false} RowsOrdered(run: Trace<Event>, now: real)
    requires MonotoneUpTo(run, TimeOf, now)
    ensures Ordered(After(run).runs, now)
  {
    match run
    case Start =>
    case Then(before, e) =>
      var s := After(before);
      assert Ordered(s.runs, e.now) by { RowsOrdered(before, e.now); }
      MomentOrdered(s, e, e.now);
      StepTells(s, e);
      ClearOrdered(Moment(s, e), Tells(s, e), e.now, now);
  }

  ghost predicate LongestWaiting(runs: seq<Run>, w: nat) {
    && w < |runs| && Waiting(runs[w])
    && forall i :: 0 <= i < |runs| && Waiting(runs[i]) ==> w <= i && runs[w].started <= runs[i].started
  }

  lemma NextIsLongest(runs: seq<Run>, now: real)
    requires Ordered(runs, now)
    ensures NextWaiter(runs).Some? ==> LongestWaiting(runs, NextWaiter(runs).value)
  {
    NextWaiterExactly(runs);
  }

  /**
   In a reachable ledger a step tells somebody exactly when it frees a named host that no active run's footprint
   contains while somebody is waiting; the one told is the active waiter that has waited longest, which is the
   first waiting row; the one notice names that host; and that flag is the only thing the announcement changes.
   */
  lemma LongestWaiterTold(run: Trace<Event>, e: Event)
    requires MonotoneUpTo(run, TimeOf, e.now)
    ensures var s, told := After(run), Tells(After(run), e);
            && (told.Some? <==>
                  Freed(s, e) != "" && !Occupied(Moment(s, e), Freed(s, e))
                  && exists i :: 0 <= i < |Moment(s, e)| && Waiting(Moment(s, e)[i]))
            && (told.Some? ==> LongestWaiting(Moment(s, e), told.value))
            && Step(s, e).runs == Clear(Moment(s, e), told)
            && Announcements(Step(s, e).notices) == Announcements(s.notices) + Word(Moment(s, e), told, Freed(s, e))
  {
    var s := After(run);
    RowsOrdered(run, e.now);
    MomentOrdered(s, e, e.now);
    NextIsLongest(Moment(s, e), e.now);
    NextWaiterExactly(Moment(s, e));
    StepTells(s, e);
  }

  /** The host announced is the one where the run that this step halted was. */
  lemma AnnouncedHostWasHeld(s: State, e: Event)
    requires Announcements(Step(s, e).notices) != Announcements(s.notices)
    ensures exists i, uid :: 0 <= i < |s.runs| && s.runs[i].active && !Moment(s, e)[i].active && s.runs[i].userId == e.uid
              && Announcements(Step(s, e).notices) == Announcements(s.notices) + [Notice(uid, NodeFreed(s.runs[i].node))]
  {
    StepTells(s, e);
    FreedHostWasHeld(s, e);
    var i :| 0 <= i < |s.runs| && s.runs[i].active && !Moment(s, e)[i].active && s.runs[i].userId == e.uid
             && s.runs[i].node == Freed(s, e);
    var uid := Word(Moment(s, e), Tells(s, e), Freed(s, e))[0].userId;
    assert Announcements(Step(s, e).notices) == Announcements(s.notices) + [Notice(uid, NodeFreed(s.runs[i].node))];
  }

  lemma FreedHostWasHeld(s: State, e: Event)
    requires Freed(s, e) != ""
    ensures exists i :: 0 <= i < |s.runs| && s.runs[i].active && !Moment(s, e)[i].active && s.runs[i].userId == e.uid
                        && s.runs[i].node == Freed(s, e)
  {
    ActiveRunExactly(s.runs, e.uid);
    assert ActiveRun(s.runs, e.uid).Some?;
    var i := ActiveRun(s.runs, e.uid).value;
    assert Moment(s, e)[i] == Halt(s.runs[i], e.now);
  }

  // ---- Rows over time --------------------------------------------------------------------------------------------

  /** How a row may change: an active one may stop or lose its waiting flag, a stopped one not at all. */
  ghost predicate Ages(r: Run, later: Run) {
    && later.userId == r.userId && later.node == r.node && later.mode == r.mode && later.gpus == r.gpus
    && later.ddp == r.ddp && later.boostId == r.boostId && later.started == r.started
    && later.username == r.username && later.profile == r.profile && later.rdzv == r.rdzv
    && (later.shared ==> r.shared)
    && (later.active ==> r.active)
    && (!r.active ==> later == r)
  }

  lemma HaltAges(runs: seq<Run>, uid: string, now: real, i: nat)
    requires i < |runs|
    ensures Ages(runs[i], HaltAt(runs, ActiveRun(runs, uid), now)[i])
  {
    ActiveRunExactly(runs, uid);
  }

  lemma MomentAges(s: State, e: Event, i: nat)
    requires i < |s.runs|
    ensures i < |Moment(s, e)| && Ages(s.runs[i], Moment(s, e)[i])
  {
    if Places(s, e) || (e.StopE? && e.hubOk) {
      HaltAges(s.runs, e.uid, e.now, i);
      assert Moment(s, e)[i] == HaltAt(s.runs, ActiveRun(s.runs, e.uid), e.now)[i];
    }
  }

  lemma ClearAges(runs: seq<Run>, host: string, i: nat)
    requires i < |runs|
    ensures Ages(runs[i], Clear(runs, Promoted(runs, host))[i])
  {
    NextWaiterExactly(runs);
  }

  lemma StepAges(s: State, e: Event, i: nat)
    requires i < |s.runs|
    ensures i < |Step(s, e).runs| && Ages(s.runs[i], Step(s, e).runs[i])
  {
    StepTells(s, e);
    MomentAges(s, e, i);
    ClearAges(Moment(s, e), Freed(s, e), i);
  }

  /** Over every continuation a stopped run's row never changes and a cleared waiting flag is never set again. */
  lemma {:induction false} RowsAge(run: Trace<Event>, later: Trace<Event>, i: nat)
    requires Follows(later, run) && i < |After(run).runs|
    ensures i < |After(later).runs| && Ages(After(run).runs[i], After(later).runs[i])
  {
    if later != run {
      RowsAge(run, later.before, i);
      StepAges(After(later.before), later.event, i);
    }
  }
}
