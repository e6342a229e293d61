/**
 GPU-hour accounting over whole runs of the ledger: usage never exceeds the time that has passed since the
 user's first GPU run, never falls, and once it has reached the quota no later launch gets a GPU.
 */
module LedgerUsage {
  import opened Prelude
  import opened Scheduler
  import opened Accounting
  import opened Ledger
  import opened LedgerRuns

  predicate GpuRun(r: Run, uid: string) {
    r.userId == uid && r.gpus > 0
  }

  // ---- Usage fits in the time that has passed ----------------------------------------------------------

  /** When the last of the first `k` runs that used a GPU for `uid` ended; `base` if none did. */
  function LastEnd(runs: seq<Run>, k: nat, uid: string, base: real, now: real): real
    requires k <= |runs|
  {
    if k == 0 then base
    else if GpuRun(runs[k - 1], uid) then Ended(runs[k - 1], now)
    else LastEnd(runs, k - 1, uid, base, now)
  }

  lemma {:induction false} LastEndBefore(runs: seq<Run>, k: nat, j: nat, uid: string, base: real, now: real)
    requires Sequential(runs) && k <= j < |runs| && runs[j].userId == uid && base <= runs[j].started
    ensures LastEnd(runs, k, uid, base, now) <= runs[j].started
  {
    if k > 0 {
      LastEndBefore(runs, k - 1, j, uid, base, now);
    }
  }

  lemma {:induction false} LastEndByNow(runs: seq<Run>, k: nat, uid: string, base: real, now: real)
    requires Timed(runs, now) && k <= |runs| && base <= now
    ensures LastEnd(runs, k, uid, base, now) <= now
  {
    if k > 0 {
      LastEndByNow(runs, k - 1, uid, base, now);
    }
  }

  lemma UsageStep(runs: seq<Run>, k: nat, uid: string, now: real)
    requires 0 < k <= |runs|
    ensures Usage(runs[..k], uid, now) == Usage(runs[..k - 1], uid, now) + Hours(runs[k - 1], uid, now)
  {
    assert runs[..k][..k - 1] == runs[..k - 1];
  }

  lemma {:induction false} UsageTelescopes(runs: seq<Run>, k: nat, uid: string, base: real, now: real)
    requires Timed(runs, now) && Sequential(runs) && k <= |runs|
    requires forall i :: 0 <= i < |runs| && GpuRun(runs[i], uid) ==> base <= runs[i].started
    ensures Usage(runs[..k], uid, now) * 3600.0 <= LastEnd(runs, k, uid, base, now) - base
  {
    if k > 0 {
      UsageTelescopes(runs, k - 1, uid, base, now);
      UsageStep(runs, k, uid, now);
      if GpuRun(runs[k - 1], uid) {
        LastEndBefore(runs, k - 1, k - 1, uid, base, now);
      }
    }
  }

  /** The unrounded usage never exceeds the time since the user's first GPU run. */
  lemma UsageFitsInTime(run: Trace<Event>, uid: string, first: nat, now: real)
    requires MonotoneUpTo(run, TimeOf, now) && first < |After(run).runs| && GpuRun(After(run).runs[first], uid)
    requires forall i :: 0 <= i < first ==> !GpuRun(After(run).runs[i], uid)
    ensures Usage(After(run).runs, uid, now) <= (now - After(run).runs[first].started) / 3600.0
  {
    var runs := After(run).runs;
    var base := runs[first].started;
    Reachable(run, now);
    forall i | 0 <= i < |runs| && GpuRun(runs[i], uid) ensures base <= runs[i].started {
      if i > first {
        assert runs[first].started <= runs[first].stopped.value <= runs[i].started;
      }
    }
    assert runs[..|runs|] == runs;
    UsageTelescopes(runs, |runs|, uid, base, now);
    LastEndByNow(runs, |runs|, uid, base, now);
  }

  // ---- Usage never falls ---------------------------------------------------------------------------------

  /** The later table continues the earlier one: same runs, each ended no earlier than it was. */
  ghost predicate Continues(later: seq<Run>, runs: seq<Run>, now: real, then_: real) {
    && |runs| <= |later|
    && forall i :: 0 <= i < |runs| ==> SameRun(later[i], runs[i], now, then_)
  }

  ghost predicate SameRun(later: Run, r: Run, now: real, then_: real) {
    && later.userId == r.userId && later.gpus == r.gpus && later.mode == r.mode
    && later.started == r.started && Ended(r, then_) <= Ended(later, now)
  }

  lemma {:induction false} UsagePrefix(later: seq<Run>, runs: seq<Run>, k: nat, uid: string, then_: real, now: real)
    requires Continues(later, runs, now, then_) && k <= |runs|
    ensures Usage(runs[..k], uid, then_) <= Usage(later[..k], uid, now)
  {
    if k > 0 {
      UsagePrefix(later, runs, k - 1, uid, then_, now);
      UsageStep(runs, k, uid, then_);
      UsageStep(later, k, uid, now);
    }
  }

  lemma {:induction false} UsageOfMore(runs: seq<Run>, k: nat, m: nat, uid: string, now: real)
    requires k <= m <= |runs|
    ensures Usage(runs[..k], uid, now) <= Usage(runs[..m], uid, now)
  {
    if k < m {
      UsageOfMore(runs, k, m - 1, uid, now);
      UsageStep(runs, m, uid, now);
    }
  }

  lemma UsageNeverFalls(later: seq<Run>, runs: seq<Run>, uid: string, then_: real, now: real)
    requires Continues(later, runs, now, then_)
    ensures Usage(runs, uid, then_) <= Usage(later, uid, now)
  {
    assert runs[..|runs|] == runs && later[..|later|] == later;
    UsagePrefix(later, runs, |runs|, uid, then_, now);
    UsageOfMore(later, |runs|, |later|, uid, now);
  }

  lemma HaltContinues(runs: seq<Run>, uid: string, then_: real, now: real)
    requires Timed(runs, then_) && then_ <= now
    ensures Continues(HaltAt(runs, ActiveRun(runs, uid), now), runs, now, then_)
  {
    ActiveRunExactly(runs, uid);
  }

  /** Announcing a freed host changes nothing but a waiting flag. */
  lemma ReleaseOnlyFlags(runs: seq<Run>, freed: string, kept: string)
    ensures var told := ReleaseRuns(runs, freed, kept);
            |told| == |runs| && forall i :: 0 <= i < |runs| ==> told[i] == runs[i].(shared := told[i].shared)
  {
  }

  lemma AppendContinues(runs: seq<Run>, halted: seq<Run>, more: seq<Run>, told: seq<Run>, then_: real, now: real)
    requires Continues(halted, runs, now, then_) && |halted| == |runs|
    requires |told| == |halted| + |more|
    requires forall i :: 0 <= i < |told| ==> told[i] == (halted + more)[i].(shared := told[i].shared)
    ensures Continues(told, runs, now, then_)
    ensures forall i :: 0 <= i < |more| ==> told[|runs| + i] == more[i].(shared := told[|runs| + i].shared)
  {
    forall i | 0 <= i < |runs| ensures SameRun(told[i], runs[i], now, then_) {
      assert SameRun(halted[i], runs[i], now, then_);
      assert told[i] == halted[i].(shared := told[i].shared);
    }
    forall i | 0 <= i < |more| ensures told[|runs| + i] == more[i].(shared := told[|runs| + i].shared) {
      assert (halted + more)[|runs| + i] == more[i];
    }
  }

  /** Halting, appending and announcing continue a table, and what is appended keeps its user, GPUs and mode. */
  lemma TableContinues(runs: seq<Run>, uid: string, more: seq<Run>, freed: string, kept: string, then_: real, now: real)
    requires Timed(runs, then_) && then_ <= now
    ensures var later := ReleaseRuns(HaltAt(runs, ActiveRun(runs, uid), now) + more, freed, kept);
            && |later| == |runs| + |more|
            && Continues(later, runs, now, then_)
            && forall i :: 0 <= i < |more| ==> later[|runs| + i] == more[i].(shared := later[|runs| + i].shared)
  {
    var halted := HaltAt(runs, ActiveRun(runs, uid), now);
    var told := ReleaseRuns(halted + more, freed, kept);
    ReleaseOnlyFlags(halted + more, freed, kept);
    assert Continues(told, runs, now, then_)
           && forall i :: 0 <= i < |more| ==> told[|runs| + i] == more[i].(shared := told[|runs| + i].shared) by {
      HaltContinues(runs, uid, then_, now);
      AppendContinues(runs, halted, more, told, then_, now);
    }
  }

  /** The run appended to a table, whatever its waiting flag has become. */
  ghost predicate Appended(later: seq<Run>, n: nat, r: Run) {
    |later| == n + 1 && later[n].userId == r.userId && later[n].gpus == r.gpus && later[n].mode == r.mode
  }

  lemma OneMoreContinues(runs: seq<Run>, uid: string, r: Run, freed: string, kept: string, then_: real, now: real)
    requires Timed(runs, then_) && then_ <= now
    ensures var later := ReleaseRuns(HaltAt(runs, ActiveRun(runs, uid), now) + [r], freed, kept);
            Continues(later, runs, now, then_) && Appended(later, |runs|, r)
  {
    TableContinues(runs, uid, [r], freed, kept, then_, now);
    var later := ReleaseRuns(HaltAt(runs, ActiveRun(runs, uid), now) + [r], freed, kept);
    assert later[|runs| + 0] == [r][0].(shared := later[|runs|].shared);
  }

  lemma LaunchContinues(s: State, uid: string, profile: string, then_: real, now: real)
    requires uid in s.accounts && Timed(s.runs, then_) && then_ <= now
    ensures var later, p := Launch(s, uid, profile, true, now).runs, PlanFor(s, uid, Admit(s, uid, profile, now), now);
            && Continues(later, s.runs, now, then_)
            && |later| == |s.runs| + 1
            && later[|s.runs|].userId == uid && later[|s.runs|].gpus == p.gpus && later[|s.runs|].mode == p.mode
  {
    var a, old_ := Admit(s, uid, profile, now), ActiveRun(s.runs, uid);
    var p := PlanFor(s, uid, a, now);
    var r := NewRun(uid, s.accounts[uid].username, a, p, now);
    OneMoreContinues(s.runs, uid, r, NodeAt(s.runs, old_), p.node.GetOr(""), then_, now);
    LaunchRuns(s, uid, profile, now);
  }

  lemma StopContinues(s: State, uid: string, then_: real, now: real)
    requires Timed(s.runs, then_) && then_ <= now
    ensures |Stop(s, uid, true, now).runs| == |s.runs| && Continues(Stop(s, uid, true, now).runs, s.runs, now, then_)
  {
    var halted := HaltAt(s.runs, ActiveRun(s.runs, uid), now);
    TableContinues(s.runs, uid, [], NodeAt(s.runs, ActiveRun(s.runs, uid)), "", then_, now);
    assert halted + [] == halted;
    StopRuns(s, uid, now);
  }

  lemma StepContinues(s: State, e: Event, then_: real)
    requires RunsOk(s.accounts, s.runs, then_) && then_ <= e.now
    ensures Continues(Step(s, e).runs, s.runs, e.now, then_)
  {
    if TouchesRuns(e) && e.LaunchE? && e.uid in s.accounts {
      LaunchContinues(s, e.uid, e.profile, then_, e.now);
    } else if TouchesRuns(e) && e.StopE? {
      StopContinues(s, e.uid, then_, e.now);
    } else {
      assert Step(s, e).runs == s.runs;
      ContinuesSelf(s, then_, e.now);
    }
  }

  lemma ContinuesLater(later: seq<Run>, runs: seq<Run>, then_: real, now: real, now': real)
    requires Continues(later, runs, now, then_) && now <= now'
    ensures Continues(later, runs, now', then_)
  {
  }

  // ---- The quota sticks ------------------------------------------------------------------------------------

  /** `later` is `run` followed by events no earlier than `t`. */
  ghost predicate Extends(later: Trace<Event>, run: Trace<Event>, t: real) {
    later == run || (later.Then? && t <= later.event.now && Extends(later.before, run, t))
  }

  /** None of the events between `run` and `later` sets the quota of `uid`. */
  ghost predicate QuotaKept(later: Trace<Event>, run: Trace<Event>, uid: string) {
    || later == run
    || (later.Then? && !(later.event.SetQuotaE? && later.event.uid == uid) && QuotaKept(later.before, run, uid))
  }

  predicate OverQuota(s: State, uid: string, now: real) {
    uid in s.accounts && s.accounts[uid].quota.Some? && Round2(Usage(s.runs, uid, now)) >= s.accounts[uid].quota.value
  }

  /** An over-quota launch runs without a GPU and without a boost. */
  lemma OverQuotaPlan(s: State, uid: string, profile: string, now: real)
    requires OverQuota(s, uid, now)
    ensures var p := PlanFor(s, uid, Admit(s, uid, profile, now), now);
            p.gpus == 0 && p.mode != Boosted && Admit(s, uid, profile, now).grant == None
  {
  }

  /** The runs a step adds for an over-quota user have no GPU. */
  lemma OverQuotaStep(s: State, e: Event, uid: string)
    requires RunsOk(s.accounts, s.runs, e.now) && OverQuota(s, uid, e.now)
    ensures |s.runs| <= |Step(s, e).runs| <= |s.runs| + 1
    ensures |Step(s, e).runs| == |s.runs| + 1 && Step(s, e).runs[|s.runs|].userId == uid ==>
              Step(s, e).runs[|s.runs|].gpus == 0 && Step(s, e).runs[|s.runs|].mode != Boosted
  {
    if TouchesRuns(e) && e.LaunchE? && e.uid in s.accounts {
      LaunchContinues(s, e.uid, e.profile, e.now, e.now);
      if e.uid == uid {
        OverQuotaPlan(s, uid, e.profile, e.now);
      }
    } else if TouchesRuns(e) && e.StopE? {
      StopContinues(s, e.uid, e.now, e.now);
    } else {
      assert Step(s, e).runs == s.runs;
    }
  }

  lemma OverQuotaLater(s: State, s': State, uid: string, then_: real, now: real)
    requires OverQuota(s, uid, then_) && Continues(s'.runs, s.runs, now, then_)
    requires uid in s'.accounts && s'.accounts[uid].quota == s.accounts[uid].quota
    ensures OverQuota(s', uid, now)
  {
    UsageNeverFalls(s'.runs, s.runs, uid, then_, now);
    Round2Monotone(Usage(s.runs, uid, then_), Usage(s'.runs, uid, now));
  }

  lemma StepQuota(s: State, e: Event, uid: string)
    requires uid in s.accounts && !(e.SetQuotaE? && e.uid == uid)
    ensures uid in Step(s, e).accounts && Step(s, e).accounts[uid].quota == s.accounts[uid].quota
  {
    if TouchesRuns(e) {
      StepAccounts(s, e);
    }
  }

  lemma ContinuesSelf(s: State, then_: real, now: real)
    requires RunsOk(s.accounts, s.runs, then_) && then_ <= now
    ensures Continues(s.runs, s.runs, now, then_)
  {
  }

  /** Usage is non-decreasing along every run. */
  lemma {:induction false} UsageMonotone(run: Trace<Event>, later: Trace<Event>, uid: string, t: real, now: real)
    requires MonotoneUpTo(run, TimeOf, t) && MonotoneUpTo(later, TimeOf, now) && t <= now && Extends(later, run, t)
    ensures Usage(After(run).runs, uid, t) <= Usage(After(later).runs, uid, now)
  {
    if later == run {
      Reachable(run, t);
      ContinuesSelf(After(run), t, now);
      UsageNeverFalls(After(run).runs, After(run).runs, uid, t, now);
    } else {
      var e := later.event;
      UsageMonotone(run, later.before, uid, t, e.now);
      Reachable(later.before, e.now);
      StepContinues(After(later.before), e, e.now);
      ContinuesLater(After(later).runs, After(later.before).runs, e.now, e.now, now);
      UsageNeverFalls(After(later).runs, After(later.before).runs, uid, e.now, now);
    }
  }

  /** The rows from `n` on that belong to `uid` have neither a GPU nor a boost. */
  ghost predicate NoGpuFrom(runs: seq<Run>, n: nat, uid: string) {
    && n <= |runs|
    && forall i :: n <= i < |runs| && runs[i].userId == uid ==> runs[i].gpus == 0 && runs[i].mode != Boosted
  }

  lemma NoGpuStep(runs: seq<Run>, later: seq<Run>, n: nat, uid: string, then_: real, now: real)
    requires NoGpuFrom(runs, n, uid) && Continues(later, runs, now, then_) && |later| <= |runs| + 1
    requires |later| == |runs| + 1 && later[|runs|].userId == uid ==> later[|runs|].gpus == 0 && later[|runs|].mode != Boosted
    ensures NoGpuFrom(later, n, uid)
  {
  }

  /**
   Once the rounded usage has reached the quota, every later launch of that user has no GPU and is not a
   boost, until the quota is changed.
   */
  lemma {:induction false} QuotaSticks(run: Trace<Event>, later: Trace<Event>, uid: string, t: real, now: real)
    requires MonotoneUpTo(run, TimeOf, t) && MonotoneUpTo(later, TimeOf, now) && t <= now && Extends(later, run, t) && QuotaKept(later, run, uid)
    requires OverQuota(After(run), uid, t)
    ensures OverQuota(After(later), uid, now)
    ensures NoGpuFrom(After(later).runs, |After(run).runs|, uid)
  {
    if later == run {
      Reachable(run, t);
      ContinuesSelf(After(run), t, now);
      OverQuotaLater(After(run), After(run), uid, t, now);
    } else {
      var s, e := After(later.before), later.event;
      QuotaSticks(run, later.before, uid, t, e.now);
      Reachable(later.before, e.now);
      StepContinues(s, e, e.now);
      StepQuota(s, e, uid);
      OverQuotaStep(s, e, uid);
      NoGpuStep(s.runs, After(later).runs, |After(run).runs|, uid, e.now, e.now);
      ContinuesLater(After(later).runs, s.runs, e.now, e.now, now);
      OverQuotaLater(s, After(later), uid, e.now, now);
    }
  }
}
