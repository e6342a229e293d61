/**
 The tamper watchdog of owner-setup/watchdog.sh: mark, seal once, and after the grace minutes erase the keys.
 A seal and a wipe (owner-setup/lib_crypto.sh) are counted, not carried out. The mark lives on a file system
 that a reboot clears; the configuration is read again at every tick.
 */
module Watchdog {
  import opened Prelude

  /**
   What one tick observes. `rows` is None when no database container is running, and 0 when the query fails.
   The clock is read when the mark is written (`start`) and again for the grace check (`now`).
   */
  datatype Event =
    | Tick(tailscale: bool, rows: Option<nat>, start: int, now: int, armed: bool, grace: int)
    | Reboot
    | Redeploy

  /** `mark` is the content of tamper_since. */
  datatype State = State(mark: Option<int>, seals: nat, wipes: nat)

  /** Owner control looks intact; without a database there is nobody to miss. */
  predicate Healthy(e: Event)
    requires e.Tick?
  {
    e.tailscale && (e.rows == None || e.rows.value >= 1)
  }

  /** Shell arithmetic divides toward zero. */
  function Minutes(seconds: int): int {
    if seconds >= 0 then seconds / 60 else -((-seconds) / 60)
  }

  function OnTick(s: State, e: Event): State
    requires e.Tick?
  {
    if Healthy(e) then s.(mark := None)
    else
      var since := s.mark.GetOr(e.start);
      State(Some(since),
            s.seals + if s.mark == None then 1 else 0,
            s.wipes + if e.armed && Minutes(e.now - since) >= e.grace then 1 else 0)
  }

  function Step(s: State, e: Event): State {
    match e
    case Tick(_, _, _, _, _, _) => OnTick(s, e)
    case Reboot => s.(mark := None)
    case Redeploy => s
  }

  function After(run: Trace<Event>): State {
    match run
    case Start => State(None, 0, 0)
    case Then(before, e) => Step(After(before), e)
  }

  /** The script as it runs. */
  class Machine {
    var mark: Option<int>
    var seals: nat
    var wipes: nat

    constructor ()
      ensures View() == After(Start)
    {
      mark, seals, wipes := None, 0, 0;
    }

    function View(): State
      reads this
    {
      State(mark, seals, wipes)
    }

    method Run(tailscale: bool, rows: Option<nat>, start: int, now: int, armed: bool, grace: int)
      modifies this
      ensures View() == OnTick(old(View()), Tick(tailscale, rows, start, now, armed, grace))
    {
      var ownerPresent := rows == None || rows.value >= 1;
      if tailscale && ownerPresent {
        if mark.Some? {
          mark := None;
        }
        return;
      }
      if mark == None {
        mark := Some(start);
        seals := seals + 1;
      }
      if armed {
        var since := mark.GetOr(now);
        if Minutes(now - since) >= grace {
          wipes := wipes + 1;
        }
      }
    }
  }

  // ---- Tamper episodes --------------------------------------------------------------------------------

  /** A tick that finds the tunnel down, or a database without an owner in it. */
  predicate Tampered(e: Event) {
    e.Tick? && (!e.tailscale || e.rows == Some(0))
  }

  /** Ends an episode: a tick with the tunnel up and no ownerless database, or a reboot. */
  predicate Calms(e: Event) {
    e.Reboot? || (e.Tick? && e.tailscale && e.rows != Some(0))
  }

  /** So many seconds are past a grace of so many minutes; a grace that is not positive is shortened by rounding. */
  predicate PastGrace(seconds: int, grace: int) {
    if grace >= 1 then seconds >= 60 * grace else seconds > 60 * grace - 60
  }

  lemma MinutesExactly(seconds: int, grace: int)
    ensures Minutes(seconds) >= grace <==> PastGrace(seconds, grace)
  {
  }

  /** Whatever happened before, a tick leaves no mark exactly when it finds the tunnel up and no ownerless database. */
  lemma MarkExactly(before: Trace<Event>, e: Event)
    requires e.Tick?
    ensures After(Then(before, e)).mark == None <==> e.tailscale && e.rows != Some(0)
  {
  }

  /** No tick at all yet, or the last thing that was not a redeployment was calming. */
  ghost predicate Calm(run: Trace<Event>) {
    run.Start? || Calms(run.event) || (run.event.Redeploy? && Calm(run.before))
  }

  /** `first` ends with the tick that opens an episode. */
  ghost predicate Opens(first: Trace<Event>) {
    first.Then? && Tampered(first.event) && Calm(first.before)
  }

  /** `run` continues `first` and nothing since has been calming. */
  ghost predicate Unbroken(run: Trace<Event>, first: Trace<Event>) {
    run == first || (run.Then? && !Calms(run.event) && Unbroken(run.before, first))
  }

  lemma {:induction false} CalmExactly(run: Trace<Event>)
    ensures Calm(run) <==> After(run).mark == None
  {
    if run.Then? {
      CalmExactly(run.before);
    }
  }

  /** Throughout an episode the mark holds the time of its first tick, and the episode has sealed exactly once. */
  lemma {:induction false} EpisodeSealsOnce(run: Trace<Event>, first: Trace<Event>)
    requires Opens(first) && Unbroken(run, first)
    ensures After(run).mark == Some(first.event.start)
    ensures After(run).seals == After(first.before).seals + 1
  {
    CalmExactly(first.before);
    if run != first {
      EpisodeSealsOnce(run.before, first);
    }
  }

  /** A run that is not calm is in exactly one episode. */
  lemma {:induction false} EpisodeOf(run: Trace<Event>) returns (first: Trace<Event>)
    requires !Calm(run)
    ensures Opens(first) && Unbroken(run, first)
  {
    if Tampered(run.event) && Calm(run.before) {
      first := run;
    } else {
      first := EpisodeOf(run.before);
    }
  }

  /**
   A tick wipes exactly when auto-wipe is armed, the tick itself sees tamper, and the grace minutes have passed
   since the first tick of an episode of tamper that no healthy tick and no reboot has broken since.
   */
  lemma WipesExactly(before: Trace<Event>, e: Event)
    requires e.Tick?
    ensures After(Then(before, e)).wipes > After(before).wipes <==>
              e.armed && exists first :: Opens(first) && Unbroken(Then(before, e), first)
                                         && PastGrace(e.now - first.event.start, e.grace)
  {
    var run := Then(before, e);
    CalmExactly(run);
    if !Calm(run) {
      var first := EpisodeOf(run);
      EpisodeSealsOnce(run, first);
      OneTickWipes(After(before), e);
      forall other | Opens(other) && Unbroken(run, other) ensures other.event.start == first.event.start {
        EpisodeSealsOnce(run, other);
      }
    } else {
      forall first | Opens(first) && Unbroken(run, first) ensures false {
        EpisodeSealsOnce(run, first);
      }
    }
  }

  lemma OneTickWipes(s: State, e: Event)
    requires Tampered(e)
    ensures OnTick(s, e).wipes > s.wipes <==>
              e.armed && OnTick(s, e).mark.Some? && PastGrace(e.now - OnTick(s, e).mark.value, e.grace)
  {
    MinutesExactly(e.now - OnTick(s, e).mark.GetOr(0), e.grace);
  }

  /** With a grace of at least a minute, a wipe comes at least that many minutes after the seal of its episode. */
  lemma GraceIsKept(before: Trace<Event>, e: Event) returns (first: Trace<Event>)
    requires e.Tick? && e.grace >= 1 && After(Then(before, e)).wipes > After(before).wipes
    ensures e.armed && Opens(first) && Unbroken(Then(before, e), first)
    ensures e.now - first.event.start >= 60 * e.grace
  {
    WipesExactly(before, e);
    first :| Opens(first) && Unbroken(Then(before, e), first) && PastGrace(e.now - first.event.start, e.grace);
  }

  /** Seals count episodes: a tick seals exactly when it opens one. */
  lemma SealsExactly(before: Trace<Event>, e: Event)
    ensures After(Then(before, e)).seals > After(before).seals <==> Opens(Then(before, e))
  {
    CalmExactly(before);
  }

  // ---- The tunnel alone ---------------------------------------------------------------------------------

  /** The tunnel is down at every tick, and the machine is never rebooted. */
  ghost predicate TunnelDown(run: Trace<Event>) {
    run.Then? ==> TunnelDown(run.before) && !run.event.Reboot? && (run.event.Tick? ==> !run.event.tailscale)
  }

  /** When the first tick of the run read the clock. */
  function FirstTick(run: Trace<Event>): Option<int> {
    match run
    case Start => None
    case Then(before, e) => if FirstTick(before) == None && e.Tick? then Some(e.start) else FirstTick(before)
  }

  lemma {:induction false} TunnelDownMark(run: Trace<Event>)
    requires TunnelDown(run)
    ensures After(run).mark == FirstTick(run) && After(run).seals == if FirstTick(run) == None then 0 else 1
  {
    if run.Then? {
      TunnelDownMark(run.before);
    }
  }

  /**
   With the tunnel down throughout and no reboot, whatever the database shows and however often the platform is
   redeployed: the platform is sealed once, at the first tick, and the keys are erased exactly at the armed ticks that
   come the grace minutes, or more, after it.
   */
  lemma TunnelLostExactly(before: Trace<Event>, e: Event)
    requires TunnelDown(Then(before, e)) && e.Tick?
    ensures var s, s' := After(before), After(Then(before, e));
            var first := FirstTick(Then(before, e));
            && first.Some? && s'.seals == 1
            && (s'.seals > s.seals <==> FirstTick(before) == None)
            && s'.wipes == s.wipes + if e.armed && PastGrace(e.now - first.value, e.grace) then 1 else 0
  {
    TunnelDownMark(before);
    TunnelDownMark(Then(before, e));
    MinutesExactly(e.now - FirstTick(Then(before, e)).GetOr(0), e.grace);
  }

  // ---- Owner removal alone ---------------------------------------------------------------------------------

  /** While the mark stands, a tick finds no database, because the seal took the platform down. */
  ghost predicate SealHolds(run: Trace<Event>) {
    run.Then? ==>
      && SealHolds(run.before)
      && (run.event.Tick? && After(run.before).mark.Some? ==> run.event.rows == None)
  }

  /** The tunnel is up at every tick. */
  ghost predicate TunnelUp(run: Trace<Event>) {
    run.Then? ==> TunnelUp(run.before) && (run.event.Tick? ==> run.event.tailscale)
  }

  /** An armed tick that finds no owner and itself outlasts its grace period; with a grace of zero, every such tick. */
  predicate Outlasts(e: Event) {
    e.Tick? && Tampered(e) && e.armed && PastGrace(e.now - e.start, e.grace)
  }

  function CountOutlasting(run: Trace<Event>): nat {
    match run
    case Start => 0
    case Then(before, e) => CountOutlasting(before) + if Outlasts(e) then 1 else 0
  }

  /**
   With the tunnel up and the database gone while the mark stands, removing the owner account wipes exactly at the
   armed ticks that outlast their own grace period: the seal takes the database down, so the next tick finds nothing
   wrong and the clock starts over.
   */
  lemma {:induction false} OwnerRemovalWipesExactly(run: Trace<Event>)
    requires SealHolds(run) && TunnelUp(run)
    ensures After(run).wipes == CountOutlasting(run)
  {
    if run.Then? {
      OwnerRemovalWipesExactly(run.before);
      if run.event.Tick? {
        MinutesExactly(run.event.now - run.event.start, run.event.grace);
      }
    }
  }

  /** No armed tick that finds no owner outlasts its own grace period. */
  ghost predicate NoneOutlasts(run: Trace<Event>) {
    run.Then? ==> NoneOutlasts(run.before) && !Outlasts(run.event)
  }

  lemma {:induction false} NoneCounted(run: Trace<Event>)
    ensures CountOutlasting(run) == 0 <==> NoneOutlasts(run)
  {
    if run.Then? {
      NoneCounted(run.before);
    }
  }

  /** The grace is at least a minute and no tick takes that long. */
  ghost predicate Prompt(run: Trace<Event>) {
    run.Then? ==> Prompt(run.before) && (run.event.Tick? ==> !PastGrace(run.event.now - run.event.start, run.event.grace))
  }

  lemma {:induction false} PromptNeverOutlasts(run: Trace<Event>)
    requires Prompt(run)
    ensures NoneOutlasts(run)
  {
    if run.Then? {
      PromptNeverOutlasts(run.before);
    }
  }

  /** So it never wipes exactly when no armed tick outlasts its grace: in particular with a positive grace and prompt ticks. */
  lemma OwnerRemovalNeverWipes(run: Trace<Event>)
    requires SealHolds(run) && TunnelUp(run)
    ensures After(run).wipes == 0 <==> NoneOutlasts(run)
    ensures Prompt(run) ==> After(run).wipes == 0
  {
    OwnerRemovalWipesExactly(run);
    NoneCounted(run);
    if Prompt(run) {
      PromptNeverOutlasts(run);
    }
  }

  /** It takes a redeployment before the next tick: then the platform stays up unsealed and the clock runs on. */
  lemma RedeployedTooSoon(start: int, grace: nat) returns (run: Trace<Event>)
    requires grace >= 1
    ensures TunnelUp(run) && Prompt(run) && !SealHolds(run)
    ensures After(run).wipes == 1 && After(run).seals == 1
  {
    var first := Tick(true, Some(0), start, start, true, grace);
    var second := Tick(true, Some(0), start + 60 * grace, start + 60 * grace, true, grace);
    run := Then(Then(Then(Start, first), Redeploy), second);
    assert start - start == 0 && !PastGrace(0, grace) && Minutes(60 * grace) == grace;
    assert !PastGrace(first.now - first.start, first.grace);
    assert TunnelUp(Then(Start, first)) && Prompt(Then(Start, first));
    assert After(Then(Start, first)) == State(Some(start), 1, 0);
    assert After(Then(Then(Start, first), Redeploy)) == State(Some(start), 1, 0);
  }
}
