/**
 The failed-login lock over whole runs: gateway/app/routers/auth.py `_register_failure` and `login`. Only the
 gateway's own login counts; the Hub's credential check (internal.py authenticate) neither counts nor locks.
 */
module SessionLockout {
  import opened Prelude
  import opened Sessions
  import SlidingWindow

  /** A login attempt for `uid` that reaches a password or one-time code and gets it wrong. */
  predicate Fails(s: State, e: Event, uid: string) {
    e.LoginE? && e.uid == uid && uid in s.users && ChecksAndFails(s.users[uid], e.password, e.otp, e.now)
  }

  /** What sets the counter back: a session is issued, an administrator resets the password, the account is new. */
  predicate Resets(s: State, e: Event, uid: string, c: Config) {
    match e
    case LoginE(u, _, _, _, _) => u == uid && Take(s, e, c).reply == Granted
    case RefreshE(t, _, _) => t.sub == uid && Take(s, e, c).reply == Granted
    case ResetPasswordE(u, _) => u == uid && Take(s, e, c).reply == Granted
    case DeleteE(_, u, _) => u == uid && Take(s, e, c).reply == Granted
    case AddUserE(u, _, _, _, _, _) => u == uid && uid !in s.users
    case _ => false
  }

  function NextStreak(s: State, e: Event, uid: string, c: Config, streak: seq<real>): seq<real> {
    if Resets(s, e, uid, c) then [] else if Fails(s, e, uid) then streak + [e.now] else streak
  }

  /** The times of the failed checks since the last reset. */
  function Streak(run: Trace<Event>, uid: string, c: Config): seq<real> {
    match run
    case Start => []
    case Then(before, e) => NextStreak(After(before, c), e, uid, c, Streak(before, uid, c))
  }

  // ---- One account row -------------------------------------------------------------------------------

  /** The counter is the length of the streak modulo five, and each full five locked the account for 15 minutes. */
  ghost predicate Counted(u: User, streak: seq<real>) {
    && u.failed == |streak| % MAX_FAILED
    && (|streak| >= MAX_FAILED ==>
          u.lockedUntil == Some(streak[|streak| - |streak| % MAX_FAILED - 1] + LOCK_SECONDS))
  }

  ghost predicate Paced(streak: seq<real>, last: real) {
    && SlidingWindow.Sorted(streak) && SlidingWindow.Spaced(streak, MAX_FAILED, LOCK_SECONDS)
    && forall i :: 0 <= i < |streak| ==> streak[i] <= last
  }

  lemma OneMoreFailure(u: User, streak: seq<real>, last: real, now: real)
    requires Counted(u, streak) && Paced(streak, last) && last <= now && !IsLocked(u, now)
    ensures Counted(Failed(u, now), streak + [now]) && Paced(streak + [now], now)
  {
    var n := |streak|;
    var next := streak + [now];
    if n >= MAX_FAILED {
      var q := n - n % MAX_FAILED;
      assert streak[q - 1] + LOCK_SECONDS <= now;
      assert n - MAX_FAILED <= q - 1;
      assert streak[n - MAX_FAILED] <= streak[q - 1];
    }
    assert SlidingWindow.Spaced(next, MAX_FAILED, LOCK_SECONDS);
    assert (n + 1) % MAX_FAILED == if n % MAX_FAILED == MAX_FAILED - 1 then 0 else n % MAX_FAILED + 1;
  }

  // ---- Steps -------------------------------------------------------------------------------------------

  /** Whatever neither fails nor resets leaves the counter and the lock alone. */
  lemma OthersLeaveCounter(s: State, e: Event, uid: string, c: Config)
    requires uid in s.users && !Fails(s, e, uid) && !Resets(s, e, uid, c)
    ensures uid in Step(s, e, c).users
    ensures Step(s, e, c).users[uid].failed == s.users[uid].failed
    ensures Step(s, e, c).users[uid].lockedUntil == s.users[uid].lockedUntil
  {
    if e.RequestE? {
      RequestLeavesCounter(s, e.token, e.action, e.now, uid);
    }
  }

  lemma RequestLeavesCounter(s: State, t: Token, a: Action, now: real, uid: string)
    requires uid in s.users
    ensures var s' := Request(s, t, a, now).state;
            && uid in s'.users && s'.users[uid].failed == s.users[uid].failed
            && s'.users[uid].lockedUntil == s.users[uid].lockedUntil
  {
  }

  lemma ResetClears(s: State, e: Event, uid: string, c: Config)
    requires Resets(s, e, uid, c) && uid in Step(s, e, c).users
    ensures Step(s, e, c).users[uid].failed == 0
  {
  }

  lemma FailureCounts(s: State, e: Event, uid: string, c: Config)
    requires Fails(s, e, uid)
    ensures Step(s, e, c).users == s.users[uid := Failed(s.users[uid], e.now)] && Take(s, e, c).reply == Refused(401, InvalidCredentials)
  {
  }

  lemma OnlyAddUserAdds(s: State, e: Event, uid: string, c: Config)
    requires uid !in s.users && uid in Step(s, e, c).users
    ensures Resets(s, e, uid, c)
  {
  }

  lemma StepCounted(s: State, e: Event, uid: string, c: Config, streak: seq<real>)
    requires Paced(streak, e.now) && (uid in s.users ==> Counted(s.users[uid], streak))
    ensures Paced(NextStreak(s, e, uid, c, streak), e.now)
    ensures uid in Step(s, e, c).users ==> Counted(Step(s, e, c).users[uid], NextStreak(s, e, uid, c, streak))
  {
    if Resets(s, e, uid, c) {
      if uid in Step(s, e, c).users {
        ResetClears(s, e, uid, c);
      }
    } else if Fails(s, e, uid) {
      FailureCounts(s, e, uid, c);
      OneMoreFailure(s.users[uid], streak, e.now, e.now);
    } else if uid in s.users {
      OthersLeaveCounter(s, e, uid, c);
    } else if uid in Step(s, e, c).users {
      OnlyAddUserAdds(s, e, uid, c);
    }
  }

  lemma {:induction false} StreakCounted(run: Trace<Event>, uid: string, now: real, c: Config)
    requires MonotoneUpTo(run, TimeOf, now)
    ensures Paced(Streak(run, uid, c), now)
    ensures uid in After(run, c).users ==> Counted(After(run, c).users[uid], Streak(run, uid, c))
  {
    match run
    case Start =>
    case Then(before, e) =>
      StreakCounted(before, uid, e.now, c);
      StepCounted(After(before, c), e, uid, c, Streak(before, uid, c));
  }

  /**
   Between resets, any half-open 15 minutes hold at most five failed checks of an account, and the stored
   counter always stays below five.
   */
  lemma LockoutBound(run: Trace<Event>, uid: string, a: real, now: real, c: Config)
    requires MonotoneUpTo(run, TimeOf, now)
    ensures SlidingWindow.CountFrom(Streak(run, uid, c), a, a + LOCK_SECONDS) <= MAX_FAILED
    ensures uid in After(run, c).users ==> 0 <= After(run, c).users[uid].failed < MAX_FAILED
  {
    StreakCounted(run, uid, now, c);
    SlidingWindow.SpacedBounds(Streak(run, uid, c), MAX_FAILED, LOCK_SECONDS, a);
  }

  // ---- Across resets -------------------------------------------------------------------------------------

  /** Failed checks of `uid` at times in [a, a + 15 minutes), whatever resets lie between. */
  function FailuresIn(run: Trace<Event>, uid: string, a: real, c: Config): nat {
    match run
    case Start => 0
    case Then(before, e) =>
      FailuresIn(before, uid, a, c)
      + if a <= e.now < a + LOCK_SECONDS && Fails(After(before, c), e, uid) then 1 else 0
  }

  /** Sessions issued to `uid` in that time, each of which sets the counter back but leaves a lock standing. */
  function IssuesIn(run: Trace<Event>, uid: string, a: real, c: Config): nat {
    match run
    case Start => 0
    case Then(before, e) =>
      IssuesIn(before, uid, a, c)
      + if a <= e.now < a + LOCK_SECONDS && IssuesTo(After(before, c), e, uid, c) then 1 else 0
  }

  predicate IssuesTo(s: State, e: Event, uid: string, c: Config) {
    ((e.LoginE? && e.uid == uid) || (e.RefreshE? && e.token.sub == uid)) && Take(s, e, c).reply == Granted
  }

  /** From time `a` on nothing lifts a lock of `uid`. */
  ghost predicate NotLiftedFrom(run: Trace<Event>, uid: string, a: real, c: Config) {
    run.Then? ==>
      && NotLiftedFrom(run.before, uid, a, c)
      && (a <= run.event.now ==> !Lifts(After(run.before, c), run.event, uid, c))
  }

  /** Until the account locks inside the window, the counter accounts for the failures since the last issue. */
  ghost predicate Bounded(s: State, uid: string, a: real, failures: nat, issues: nat) {
    if uid in s.users then
      || failures <= 4 * issues + s.users[uid].failed
      || (s.users[uid].lockedUntil.Some? && s.users[uid].lockedUntil.value >= a + LOCK_SECONDS && failures <= 4 * issues + 5)
    else failures == 0
  }

  /** One event inside the window. */
  lemma InsideStep(s: State, e: Event, uid: string, a: real, failures: nat, issues: nat, c: Config)
    requires a <= e.now < a + LOCK_SECONDS && Bounded(s, uid, a, failures, issues) && !Lifts(s, e, uid, c)
    requires uid in s.users ==> 0 <= s.users[uid].failed < MAX_FAILED
    ensures Bounded(Step(s, e, c), uid, a, failures + if Fails(s, e, uid) then 1 else 0,
                    issues + if IssuesTo(s, e, uid, c) then 1 else 0)
  {
    if uid in s.users {
      if Fails(s, e, uid) {
        FailureCounts(s, e, uid, c);
      } else if IssuesTo(s, e, uid, c) {
        IssueKeepsLock(s, e, uid, c);
      } else {
        OthersLeaveCounter(s, e, uid, c);
      }
    }
  }

  lemma IssueKeepsLock(s: State, e: Event, uid: string, c: Config)
    requires uid in s.users && IssuesTo(s, e, uid, c)
    ensures uid in Step(s, e, c).users && Step(s, e, c).users[uid].failed == 0
    ensures Step(s, e, c).users[uid].lockedUntil == s.users[uid].lockedUntil && !Fails(s, e, uid)
  {
  }

  lemma {:induction false} CountersWithin(run: Trace<Event>, uid: string, a: real, now: real, c: Config)
    requires MonotoneUpTo(run, TimeOf, now) && NotLiftedFrom(run, uid, a, c) && now < a + LOCK_SECONDS
    ensures Bounded(After(run, c), uid, a, FailuresIn(run, uid, a, c), IssuesIn(run, uid, a, c))
  {
    match run
    case Start =>
    case Then(before, e) =>
      if e.now < a {
        NothingBefore(run, uid, a, e.now, c);
        LockoutBound(run, uid, a, now, c);
      } else {
        CountersWithin(before, uid, a, e.now, c);
        LockoutBound(before, uid, a, e.now, c);
        InsideStep(After(before, c), e, uid, a, FailuresIn(before, uid, a, c), IssuesIn(before, uid, a, c), c);
      }
  }

  lemma {:induction false} NothingBefore(run: Trace<Event>, uid: string, a: real, now: real, c: Config)
    requires MonotoneUpTo(run, TimeOf, now) && now < a
    ensures FailuresIn(run, uid, a, c) == 0 && IssuesIn(run, uid, a, c) == 0
  {
    if run.Then? {
      NothingBefore(run.before, uid, a, run.event.now, c);
    }
  }

  /**
   Resets do not open the door: with `r` sessions issued to the account inside a window of 15 minutes, and no password
   reset or deletion from its start on, the window holds at most 4 * r + 5 failed checks, because an issued session
   leaves a standing lock in place.
   */
  lemma {:induction false} WindowBound(run: Trace<Event>, uid: string, a: real, now: real, c: Config)
    requires MonotoneUpTo(run, TimeOf, now) && NotLiftedFrom(run, uid, a, c)
    ensures FailuresIn(run, uid, a, c) <= 4 * IssuesIn(run, uid, a, c) + 5
  {
    if run.Then? {
      if run.event.now < a + LOCK_SECONDS {
        CountersWithin(run, uid, a, run.event.now, c);
        LockoutBound(run, uid, a, run.event.now, c);
      } else {
        WindowBound(run.before, uid, a, run.event.now, c);
      }
    }
  }

  // ---- The lock itself -------------------------------------------------------------------------------------

  lemma LockedLogin(s: State, uid: string, password: bool, otp: Otp, jti: string, now: real, c: Config)
    requires uid in s.users && IsLocked(s.users[uid], now)
    ensures Take(s, LoginE(uid, password, otp, jti, now), c) == Outcome(s, Refused(423, Locked))
  {
  }

  /** What lifts a lock early: an administrator's password reset, or the account's deletion. */
  predicate Lifts(s: State, e: Event, uid: string, c: Config) {
    (e.ResetPasswordE? || e.DeleteE?) && e.uid == uid && Take(s, e, c).reply == Granted
  }

  /** `later` continues `run` and nothing in between lifts a lock of `uid`. */
  ghost predicate Unlifted(later: Trace<Event>, run: Trace<Event>, uid: string, c: Config) {
    || later == run
    || (later.Then? && !Lifts(After(later.before, c), later.event, uid, c) && Unlifted(later.before, run, uid, c))
  }

  /** The account is locked until `until`. */
  predicate LockedUntil(s: State, uid: string, until: real) {
    uid in s.users && s.users[uid].lockedUntil == Some(until)
  }

  lemma FifthFailureLocks(s: State, e: Event, uid: string, c: Config)
    requires Fails(s, e, uid) && s.users[uid].failed + 1 >= MAX_FAILED
    ensures LockedUntil(Step(s, e, c), uid, e.now + LOCK_SECONDS)
  {
    FailureCounts(s, e, uid, c);
  }

  lemma LockStays(s: State, e: Event, uid: string, until: real, c: Config)
    requires LockedUntil(s, uid, until) && e.now < until && !Lifts(s, e, uid, c)
    ensures LockedUntil(Step(s, e, c), uid, until)
  {
    if e.RequestE? {
      RequestLeavesCounter(s, e.token, e.action, e.now, uid);
    }
  }

  lemma {:induction false} LockLasts(run: Trace<Event>, later: Trace<Event>, uid: string, until: real, now: real, c: Config)
    requires MonotoneUpTo(later, TimeOf, now) && now < until && Unlifted(later, run, uid, c)
    requires LockedUntil(After(run, c), uid, until)
    ensures LockedUntil(After(later, c), uid, until)
  {
    if later != run {
      LockLasts(run, later.before, uid, until, later.event.now, c);
      LockStays(After(later.before, c), later.event, uid, until, c);
    }
  }

  /**
   For 15 minutes after the fifth failure each login attempt is turned away with 423 before its password is looked
   at, right or wrong, and changes nothing, whatever else happens meanwhile (refreshes and issued sessions included),
   short of a password reset or the deletion of the account.
   */
  lemma LockedOut(before: Trace<Event>, fifth: Event, later: Trace<Event>, uid: string, password: bool, otp: Otp,
                  jti: string, now: real, c: Config)
    requires Fails(After(before, c), fifth, uid) && After(before, c).users[uid].failed + 1 >= MAX_FAILED
    requires Unlifted(later, Then(before, fifth), uid, c) && MonotoneUpTo(later, TimeOf, now) && now < fifth.now + LOCK_SECONDS
    ensures Take(After(later, c), LoginE(uid, password, otp, jti, now), c) == Outcome(After(later, c), Refused(423, Locked))
  {
    FifthFailureLocks(After(before, c), fifth, uid, c);
    LockLasts(Then(before, fifth), later, uid, fifth.now + LOCK_SECONDS, now, c);
    LockedLogin(After(later, c), uid, password, otp, jti, now, c);
  }

  /** The stored counter is at four exactly when the next failed check since the last reset is a fifth one. */
  lemma NextIsFifth(run: Trace<Event>, uid: string, now: real, c: Config)
    requires MonotoneUpTo(run, TimeOf, now) && uid in After(run, c).users
    ensures After(run, c).users[uid].failed + 1 >= MAX_FAILED <==> (|Streak(run, uid, c)| + 1) % MAX_FAILED == 0
  {
    assert After(run, c).users[uid].failed == |Streak(run, uid, c)| % MAX_FAILED by { StreakCounted(run, uid, now, c); }
    FourOfFive(|Streak(run, uid, c)|);
  }

  lemma FourOfFive(n: nat)
    ensures n % 5 + 1 >= 5 <==> (n + 1) % 5 == 0
  {
  }

  // ---- The other door --------------------------------------------------------------------------------------

  /**
   The Hub's credential check answers right and wrong passwords of a locked account alike with any other: it grants
   exactly a right password for an approved account, while the login is refused, and leaves no trace.
   */
  lemma HubCheckIgnoresLock(s: State, uid: string, password: bool, now: real, c: Config)
    requires uid in s.users && IsLocked(s.users[uid], now)
    ensures Take(s, HubCheckE(uid, password, now), c).reply == Granted <==> password && s.users[uid].status == Approved
    ensures forall otp, jti :: Take(s, LoginE(uid, password, otp, jti, now), c).reply == Refused(423, Locked)
  {
    forall otp, jti ensures Take(s, LoginE(uid, password, otp, jti, now), c).reply == Refused(423, Locked) {
      LockedLogin(s, uid, password, otp, jti, now, c);
    }
  }

  /** A run without its Hub checks. */
  function WithoutHubChecks(run: Trace<Event>): Trace<Event> {
    match run
    case Start => Start
    case Then(before, e) => if e.HubCheckE? then WithoutHubChecks(before) else Then(WithoutHubChecks(before), e)
  }

  /** However many passwords are tried there, wrong ones included, nothing counts them: no state ever depends on them. */
  lemma {:induction false} HubChecksUncounted(run: Trace<Event>, c: Config)
    ensures After(run, c) == After(WithoutHubChecks(run), c)
  {
    if run.Then? {
      HubChecksUncounted(run.before, c);
    }
  }
}
