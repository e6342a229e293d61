/**
 The request handlers of gateway/app/routers/notebooks.py, admin.py and nodes.py that write the ledger, as
 methods that change the tables step by step. Each one is proved to take exactly the ledger step of its name.
 */
module Notebooks {
  import opened Prelude
  import opened Scheduler
  import opened Accounting
  import Ledger
  import LedgerRuns

  class Tables {
    var nodes: seq<Node>
    var accounts: map<string, Ledger.Account>
    var runs: seq<Run>
    var boosts: seq<Ledger.Boost>
    var notices: seq<Ledger.Notice>

    constructor ()
      ensures View() == Ledger.EMPTY
    {
      nodes, accounts, runs, boosts, notices := [], map[], [], [], [];
    }

    function View(): Ledger.State
      reads this
    {
      Ledger.State(nodes, accounts, runs, boosts, notices)
    }

    // ---- Look-ups --------------------------------------------------------------------------------------

    /** `_active_run` */
    method ActiveRun(uid: string) returns (found: Option<nat>)
      ensures found == Ledger.ActiveRun(runs, uid)
      ensures found.Some? ==> found.value < |runs|
    {
      found := None;
      for i := 0 to |runs|
        invariant found == Ledger.ActiveRun(runs[..i], uid)
        invariant found.Some? ==> found.value < i
      {
        assert runs[..i + 1][..i] == runs[..i];
        if found == None && runs[i].userId == uid && runs[i].active {
          found := Some(i);
        }
      }
      assert runs[..|runs|] == runs;
    }

    /** The grant a launch would use: newest approved first. */
    method LatestGrant(uid: string) returns (found: Option<nat>)
      ensures found == Ledger.LatestGrant(boosts, uid)
      ensures found.Some? ==> found.value < |boosts|
    {
      found := None;
      for i := 0 to |boosts|
        invariant found == Ledger.LatestGrant(boosts[..i], uid)
        invariant found.Some? ==> found.value < i
      {
        assert boosts[..i + 1][..i] == boosts[..i];
        if boosts[i].userId == uid && boosts[i].status == Ledger.Approved
           && (found == None || boosts[found.value].created < boosts[i].created) {
          found := Some(i);
        }
      }
      assert boosts[..|boosts|] == boosts;
    }

    method FindNode(host: string) returns (found: Option<nat>)
      ensures found == Ledger.FindNode(nodes, host)
      ensures found.Some? ==> found.value < |nodes|
    {
      found := None;
      for i := 0 to |nodes|
        invariant found == Ledger.FindNode(nodes[..i], host)
        invariant found.Some? ==> found.value < i
      {
        assert nodes[..i + 1][..i] == nodes[..i];
        if found == None && nodes[i].hostname == host {
          found := Some(i);
        }
      }
      assert nodes[..|nodes|] == nodes;
    }

    // ---- Launch and stop ---------------------------------------------------------------------------------

    /** `on_run_stopped` */
    method OnRunStopped(freed: string)
      modifies this`runs, this`notices
      ensures View() == Ledger.Announce(old(View()), freed)
    {
      var next := FindPromoted(runs, freed);
      NextWaiterExactly(runs);
      if next.Some? {
        var r := runs[next.value];
        runs := runs[next.value := r.(shared := false)];
        notices := notices + [Ledger.Notice(r.userId, Ledger.NodeFreed(freed))];
      }
    }

    /** The quota check at the head of `launch`. */
    method Admit(uid: string, profile: string, now: real) returns (a: Ledger.Admission)
      requires uid in accounts
      modifies this`notices
      ensures a == Ledger.Admit(old(View()), uid, profile, now)
      ensures a.grant.Some? ==> a.grant.value < |boosts|
      ensures View() == Ledger.Warn(old(View()), uid, a)
    {
      var asked := if profile in Ledger.PROFILES then profile else "medium";
      var grant := LatestGrant(uid);
      a := Ledger.Admission(asked, grant, false);
      if accounts[uid].quota.Some? && (asked == "gpu" || grant.Some?) {
        var used := GpuHoursUsed(runs, uid, now);
        if used >= accounts[uid].quota.value {
          a := Ledger.Admission(if asked == "gpu" then "medium" else asked, None, true);
          notices := notices + [Ledger.Notice(uid, Ledger.QuotaReached)];
        }
      }
    }

    /** Tell the people already on the node. */
    method TellSharers(uid: string, username: string, host: string, colocated: seq<Run>)
      modifies this`notices
      ensures notices == old(notices) + Ledger.SharingNotices(uid, username, host, colocated)
    {
      for i := 0 to |colocated|
        invariant notices == old(notices) + Ledger.SharingNotices(uid, username, host, colocated[..i])
      {
        assert colocated[..i + 1][..i] == colocated[..i];
        if colocated[i].userId != uid {
          notices := notices + [Ledger.Notice(colocated[i].userId, Ledger.NowSharing(username, host))];
        }
      }
      assert colocated[..|colocated|] == colocated;
    }

    /** The rows that `launch` commits once the server is up. */
    method Commit(uid: string, a: Ledger.Admission, plan: Placement, halted: seq<Run>, now: real)
      requires uid in accounts && plan == Ledger.PlanFor(View(), uid, a, now)
      requires halted == Ledger.HaltAt(runs, Ledger.ActiveRun(runs, uid), now)
      requires a.grant.Some? ==> a.grant.value < |boosts|
      modifies this
      ensures View() == Ledger.Record(old(View()), uid, a, now)
    {
      var username, host := accounts[uid].username, plan.node.GetOr("");
      runs := halted + [Run(uid, username, host, a.profile, plan.mode, plan.gpus, plan.shared, a.grant, true, now, None,
                            if plan.mode == Boosted then plan.ddp else [],
                            if plan.mode == Boosted then plan.rdzv else "")];
      TellSharers(uid, username, host, plan.colocated);
      if a.grant.Some? {
        boosts := boosts[a.grant.value := boosts[a.grant.value].(status := Ledger.Consumed)];
        notices := notices + [Ledger.Notice(uid, Ledger.BoostActive(plan.gpus))];
      }
    }

    /**
     `launch`. The old run is halted in memory only until the commit: the planner still reads it as active from
     the table, and nothing of it remains when the Hub fails. Maintenance turns everybody but staff away.
     */
    method Launch(uid: string, staff: bool, maintenance: bool, profile: string, hubOk: bool, now: real) returns (code: int)
      modifies this
      ensures maintenance && !staff ==> View() == old(View()) && code == 503
      ensures !(maintenance && !staff) ==> View() == Ledger.Launch(old(View()), uid, profile, hubOk, now)
      ensures code == if maintenance && !staff then 503 else if uid !in old(accounts) then 401 else if !hubOk then 502 else 200
    {
      if maintenance && !staff {
        return 503;
      }
      if uid !in accounts {
        return 401;
      }
      var a := Admit(uid, profile, now);
      var running := ActiveRun(uid);
      var halted, freed := runs, "";
      if running.Some? {
        var r := runs[running.value];
        halted := runs[running.value := r.(active := false, stopped := Some(now))];
        freed := r.node;
      }
      var boost := if a.grant.Some? then Some(boosts[a.grant.value].gpus) else None;
      var plan := PlanPlacement(nodes, runs, accounts[uid].username, a.profile, boost, now);
      if !hubOk {
        return 502;
      }
      Commit(uid, a, plan, halted, now);
      if freed != "" && freed != plan.node.GetOr("") {
        OnRunStopped(freed);
      }
      return 200;
    }

    /** `stop` */
    method Stop(uid: string, hubOk: bool, now: real)
      modifies this
      ensures View() == Ledger.Stop(old(View()), uid, hubOk, now)
    {
      if !hubOk {
        return;
      }
      var running := ActiveRun(uid);
      if running.Some? {
        var r := runs[running.value];
        runs := runs[running.value := r.(active := false, stopped := Some(now))];
        if r.node != "" {
          OnRunStopped(r.node);
        }
      }
    }

    // ---- Boosts ----------------------------------------------------------------------------------------------

    /** `boost_request`: expire the user's pending requests, then add the new one. */
    method RequestBoost(uid: string, gpus: int, now: real)
      modifies this`boosts
      ensures View() == Ledger.RequestBoost(old(View()), uid, gpus, now)
    {
      if uid !in accounts {
        return;
      }
      for i := 0 to |boosts|
        invariant |boosts| == |old(boosts)|
        invariant forall k :: 0 <= k < i ==> boosts[k] == Ledger.ExpirePending(old(boosts), uid)[k]
        invariant forall k :: i <= k < |boosts| ==> boosts[k] == old(boosts)[k]
      {
        if boosts[i].userId == uid && boosts[i].status == Ledger.Pending {
          boosts := boosts[i := boosts[i].(status := Ledger.Expired)];
        }
      }
      assert boosts == Ledger.ExpirePending(old(boosts), uid);
      boosts := boosts + [Ledger.Boost(uid, gpus, Ledger.Pending, now)];
    }

    /** `approve_boost`; true unless the request is unknown or already decided. */
    method ApproveBoost(id: nat, gpus: Option<int>) returns (ok: bool)
      modifies this`boosts, this`notices
      ensures View() == Ledger.Approve(old(View()), id, gpus)
      ensures ok <==> id < |old(boosts)| && old(boosts)[id].status == Ledger.Pending
    {
      if id >= |boosts| || boosts[id].status != Ledger.Pending {
        return false;
      }
      if gpus.Some? && gpus.value != 0 {
        boosts := boosts[id := boosts[id].(gpus := gpus.value)];
      }
      boosts := boosts[id := boosts[id].(status := Ledger.Approved)];
      notices := notices + [Ledger.Notice(boosts[id].userId, Ledger.BoostGranted(boosts[id].gpus))];
      return true;
    }

    /** `deny_boost` */
    method DenyBoost(id: nat) returns (ok: bool)
      modifies this`boosts, this`notices
      ensures View() == Ledger.Deny(old(View()), id)
      ensures ok <==> id < |old(boosts)| && old(boosts)[id].status == Ledger.Pending
    {
      if id >= |boosts| || boosts[id].status != Ledger.Pending {
        return false;
      }
      boosts := boosts[id := boosts[id].(status := Ledger.Denied)];
      notices := notices + [Ledger.Notice(boosts[id].userId, Ledger.BoostDeclined)];
      return true;
    }

    // ---- Quotas and nodes ------------------------------------------------------------------------------------

    /** `set_quota`; the owner's account may not be touched. */
    method SetQuota(uid: string, owner: bool, limit: Option<real>, clear: bool) returns (code: int)
      modifies this`accounts
      ensures code == if uid !in old(accounts) then 404 else if owner then 403 else 200
      ensures View() == if code == 200 then Ledger.SetQuota(old(View()), uid, if clear then None else limit) else old(View())
    {
      if uid !in accounts {
        return 404;
      }
      if owner {
        return 403;
      }
      accounts := accounts[uid := accounts[uid].(quota := if clear then None else limit)];
      return 200;
    }

    /** `register` */
    method Register(host: string, gpu: Option<bool>, now: real)
      modifies this`nodes
      ensures View() == Ledger.Register(old(View()), host, gpu, now)
    {
      var i := FindNode(host);
      LedgerRuns.FindNodeExactly(nodes, host);
      if i == None {
        nodes := nodes + [Node(host, Online, gpu.GetOr(false), Some(now))];
      } else {
        var n := nodes[i.value];
        if gpu.Some? {
          n := n.(gpu := gpu.value);
        }
        n := n.(status := Online, heartbeat := Some(now));
        nodes := nodes[i.value := n];
      }
    }

    /** `heartbeat`; false for a node that never registered. */
    method Heartbeat(host: string, gpu: Option<bool>, now: real) returns (known: bool)
      modifies this`nodes
      ensures View() == Ledger.Heartbeat(old(View()), host, gpu, now)
      ensures known <==> exists k :: 0 <= k < |old(nodes)| && old(nodes)[k].hostname == host
    {
      var i := FindNode(host);
      LedgerRuns.FindNodeExactly(nodes, host);
      if i == None {
        return false;
      }
      var n := nodes[i.value].(heartbeat := Some(now));
      if n.status != Draining {
        n := n.(status := Online);
      }
      if gpu.Some? {
        n := n.(gpu := gpu.value);
      }
      nodes := nodes[i.value := n];
      return true;
    }

    /** `drain_node`; false for an unknown node. */
    method DrainNode(host: string) returns (known: bool)
      modifies this`nodes
      ensures View() == Ledger.SetStatus(old(View()), host, Draining)
      ensures known <==> exists k :: 0 <= k < |old(nodes)| && old(nodes)[k].hostname == host
    {
      var i := FindNode(host);
      LedgerRuns.FindNodeExactly(nodes, host);
      known := i.Some?;
      if known {
        nodes := nodes[i.value := nodes[i.value].(status := Draining)];
      }
    }

    /** `activate_node`; false for an unknown node. */
    method ActivateNode(host: string) returns (known: bool)
      modifies this`nodes
      ensures View() == Ledger.SetStatus(old(View()), host, Online)
      ensures known <==> exists k :: 0 <= k < |old(nodes)| && old(nodes)[k].hostname == host
    {
      var i := FindNode(host);
      LedgerRuns.FindNodeExactly(nodes, host);
      known := i.Some?;
      if known {
        nodes := nodes[i.value := nodes[i.value].(status := Online)];
      }
    }
  }
}
