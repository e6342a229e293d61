/**
 Housekeeping is invisible: taking every `cleanup_once` out of a run, wherever it happened, changes no answer
 that the gateway gives afterwards. (gateway/app/maintenance.py, audit retention off.)
 */
module SessionCleanup {
  import opened Prelude
  import opened Sessions
  import opened SessionLineage

  /** The same run without its sweeps. */
  function Unswept(run: Trace<Event>): Trace<Event> {
    match run
    case Start => Start
    case Then(before, e) => if e.CleanupE? then Unswept(before) else Then(Unswept(before), e)
  }

  /** Session ids and single-use tokens are drawn at random, so they do not repeat; swept rows count as drawn. */
  ghost predicate FreshDraws(run: Trace<Event>, c: Config) {
    run.Then? ==>
      && FreshDraws(run.before, c)
      && (Issues(After(Unswept(run.before), c), run.event, c) ==> run.event.jti !in Births(Unswept(run.before), c))
      && (run.event.MintE? ==> run.event.ott !in After(Unswept(run.before), c).sso)
  }

  // ---- The simulation ---------------------------------------------------------------------------------

  /** Swept sessions are exactly as they would be, except that long-dead ones may be missing. */
  ghost predicate SessionsSwept(swept: map<string, Session>, full: map<string, Session>, c: Config, now: real) {
    && (forall j :: j in swept ==> j in full && swept[j] == full[j])
    && (forall j :: j in full && j !in swept ==> full[j].expires < now - c.refreshTtl)
  }

  /** Single-use tokens that are missing have been used or have expired. */
  ghost predicate SsoSwept(swept: map<string, Sso>, full: map<string, Sso>, now: real) {
    && (forall o :: o in swept ==> o in full && swept[o] == full[o])
    && (forall o :: o in full && o !in swept ==> full[o].used || full[o].expires < now)
  }

  ghost predicate Swept(a: State, b: State, c: Config, now: real) {
    && a.users == b.users && a.issued == b.issued
    && SessionsSwept(a.sessions, b.sessions, c, now) && SsoSwept(a.sso, b.sso, now)
  }

  // ---- Answers ------------------------------------------------------------------------------------------

  /** The same decision: both granted, or both refused with the same status code. */
  predicate SameDecision(r: Reply, r': Reply) {
    r == r' || (r.Refused? && r'.Refused? && r.code == r'.code)
  }

  lemma SessionAnswers(a: State, b: State, t: Token, last: real, now: real, c: Config)
    requires Swept(a, b, c, last) && last <= now && 0.0 <= c.refreshTtl
    ensures SameDecision(SessionCheck(a, t, now), SessionCheck(b, t, now))
    ensures SessionCheck(a, t, now) == Granted <==> SessionCheck(b, t, now) == Granted
    ensures RefreshReply(a, t, now) == RefreshReply(b, t, now)
  {
  }

  lemma RedeemAnswers(a: State, b: State, ott: string, last: real, now: real, c: Config)
    requires Swept(a, b, c, last) && last <= now
    ensures Redeemable(a.sso, ott, now) <==> Redeemable(b.sso, ott, now)
    ensures Redeem(a, ott, now).reply == Redeem(b, ott, now).reply
  {
  }

  lemma RequestAnswers(a: State, b: State, t: Token, x: Action, last: real, now: real, c: Config)
    requires Swept(a, b, c, last) && last <= now && 0.0 <= c.refreshTtl
    ensures SameDecision(Request(a, t, x, now).reply, Request(b, t, x, now).reply)
    ensures CurrentReply(a, t, Exempt(x), now) == CurrentReply(b, t, Exempt(x), now)
         || (SessionCheck(a, t, now) != Granted && SessionCheck(b, t, now) != Granted)
  {
    SessionAnswers(a, b, t, last, now, c);
  }

  lemma SameAnswer(a: State, b: State, e: Event, last: real, c: Config)
    requires Swept(a, b, c, last) && last <= e.now && 0.0 <= c.refreshTtl
    ensures SameDecision(Take(a, e, c).reply, Take(b, e, c).reply)
    ensures !e.RequestE? ==> Take(a, e, c).reply == Take(b, e, c).reply
  {
    match e
    case RefreshE(t, _, now) => SessionAnswers(a, b, t, last, now, c);
    case RequestE(t, x, now) => RequestAnswers(a, b, t, x, last, now, c);
    case RedeemE(ott, now) => RedeemAnswers(a, b, ott, last, now, c);
    case _ =>
  }

  // ---- Steps --------------------------------------------------------------------------------------------

  lemma RevokeOneSwept(swept: map<string, Session>, full: map<string, Session>, j: string, c: Config, now: real)
    requires SessionsSwept(swept, full, c, now)
    ensures SessionsSwept(RevokeOne(swept, j), RevokeOne(full, j), c, now)
  {
  }

  lemma RevokeManySwept(swept: map<string, Session>, full: map<string, Session>, uid: string, keep: string, c: Config, now: real)
    requires SessionsSwept(swept, full, c, now)
    ensures SessionsSwept(RevokeOthers(swept, uid, keep), RevokeOthers(full, uid, keep), c, now)
    ensures SessionsSwept(RevokeAll(swept, uid), RevokeAll(full, uid), c, now)
  {
  }

  lemma LaterSwept(a: State, b: State, c: Config, last: real, now: real)
    requires Swept(a, b, c, last) && last <= now
    ensures Swept(a, b, c, now)
  {
  }

  lemma CleanupSwept(a: State, b: State, c: Config, now: real)
    requires Swept(a, b, c, now)
    ensures Swept(Cleanup(a, now, c), b, c, now)
  {
  }

  lemma IssueSwept(a: State, b: State, e: Event, c: Config)
    requires Swept(a, b, c, e.now) && 0.0 <= c.refreshTtl
    requires Issues(b, e, c) && e.jti !in b.sessions
    ensures Swept(Step(a, e, c), Step(b, e, c), c, e.now)
  {
    SameAnswer(a, b, e, e.now, c);
    if e.RefreshE? {
      RevokeOneSwept(a.sessions, b.sessions, e.token.jti, c, e.now);
    }
    IssueStep(a, e, c);
    IssueStep(b, e, c);
  }

  lemma RequestSwept(a: State, b: State, t: Token, x: Action, now: real, c: Config)
    requires Swept(a, b, c, now) && 0.0 <= c.refreshTtl
    ensures Swept(Request(a, t, x, now).state, Request(b, t, x, now).state, c, now)
  {
    SessionAnswers(a, b, t, now, now, c);
    RevokeOneSwept(a.sessions, b.sessions, t.jti, c, now);
    RevokeManySwept(a.sessions, b.sessions, t.sub, t.jti, c, now);
  }

  lemma RedeemSwept(a: State, b: State, ott: string, now: real, c: Config)
    requires Swept(a, b, c, now)
    ensures Swept(Redeem(a, ott, now).state, Redeem(b, ott, now).state, c, now)
  {
    RedeemAnswers(a, b, ott, now, now, c);
  }

  lemma AdminSwept(a: State, b: State, e: Event, c: Config)
    requires Swept(a, b, c, e.now)
    requires e.SuspendE? || e.ResetPasswordE? || e.DeleteE? || e.EditE? || e.AddUserE? || e.HubCheckE?
    ensures Swept(Step(a, e, c), Step(b, e, c), c, e.now)
  {
    if e.SuspendE? || e.ResetPasswordE? {
      RevokeManySwept(a.sessions, b.sessions, e.uid, "", c, e.now);
    }
  }

  lemma StepSwept(a: State, b: State, e: Event, last: real, c: Config)
    requires Swept(a, b, c, last) && last <= e.now && 0.0 <= c.refreshTtl && !e.CleanupE?
    requires Issues(b, e, c) ==> e.jti !in b.sessions
    requires e.MintE? ==> e.ott !in b.sso
    ensures Swept(Step(a, e, c), Step(b, e, c), c, e.now)
  {
    LaterSwept(a, b, c, last, e.now);
    SameAnswer(a, b, e, e.now, c);
    match e
    case LoginE(_, _, _, _, _) =>
      if Issues(b, e, c) {
        IssueSwept(a, b, e, c);
      }
    case RefreshE(_, _, _) =>
      if Issues(b, e, c) {
        IssueSwept(a, b, e, c);
      }
    case RequestE(t, x, now) => RequestSwept(a, b, t, x, now, c);
    case RedeemE(ott, now) => RedeemSwept(a, b, ott, now, c);
    case MintE(_, _, _) =>
    case _ => AdminSwept(a, b, e, c);
  }

  lemma {:induction false} UnsweptFresh(run: Trace<Event>, c: Config)
    requires FreshDraws(run, c)
    ensures Fresh(Unswept(run), c)
  {
    match run
    case Start =>
    case Then(before, e) => UnsweptFresh(before, c);
  }

  lemma {:induction false} SweptAfter(run: Trace<Event>, now: real, c: Config)
    requires MonotoneUpTo(run, TimeOf, now) && FreshDraws(run, c) && 0.0 <= c.refreshTtl
    ensures Swept(After(run, c), After(Unswept(run), c), c, now)
  {
    match run
    case Start =>
    case Then(before, e) =>
      var a, b := After(before, c), After(Unswept(before), c);
      SweptAfter(before, e.now, c);
      if e.CleanupE? {
        CleanupSwept(a, b, c, e.now);
      } else {
        UnsweptFresh(before, c);
        Lineages(Unswept(before), c);
        StepSwept(a, b, e, e.now, c);
      }
      LaterSwept(After(run, c), After(Unswept(run), c), c, e.now, now);
  }

  /**
   Cleanup is unobservable: whatever request comes next gets the same decision from a gateway that has been sweeping
   its tables as from one that never has; refresh, redemption and login get the same answer word for word.
   */
  lemma CleanupUnobservable(run: Trace<Event>, e: Event, c: Config)
    requires MonotoneUpTo(run, TimeOf, e.now) && FreshDraws(run, c) && 0.0 <= c.refreshTtl
    ensures SameDecision(Take(After(run, c), e, c).reply, Take(After(Unswept(run), c), e, c).reply)
    ensures !e.RequestE? ==> Take(After(run, c), e, c).reply == Take(After(Unswept(run), c), e, c).reply
  {
    SweptAfter(run, e.now, c);
    SameAnswer(After(run, c), After(Unswept(run), c), e, e.now, c);
  }

  /** A session can only be missing when every access token for it has expired too. */
  lemma TokensDieFirst(births: map<string, Birth>, a: State, b: State, t: Token, now: real, c: Config)
    requires Swept(a, b, c, now) && Tied(births, b, c) && c.accessTtl <= 2.0 * c.refreshTtl
    requires t.jti in b.sessions && t.jti !in a.sessions
    ensures !Decodes(a, t, now) && !Decodes(b, t, now)
  {
    if t in b.issued {
      assert t.exp <= births[t.jti].at + c.accessTtl;
      assert b.sessions[t.jti].expires == births[t.jti].at + c.refreshTtl;
    }
  }

  /** When access tokens live no longer than two refresh lifetimes, not even the wording of a refusal changes. */
  lemma CleanupKeepsWording(run: Trace<Event>, e: Event, c: Config)
    requires MonotoneUpTo(run, TimeOf, e.now) && FreshDraws(run, c) && 0.0 <= c.refreshTtl
    requires c.accessTtl <= 2.0 * c.refreshTtl
    ensures Take(After(run, c), e, c).reply == Take(After(Unswept(run), c), e, c).reply
  {
    var a, b := After(run, c), After(Unswept(run), c);
    CleanupUnobservable(run, e, c);
    SweptAfter(run, e.now, c);
    if e.RequestE? {
      UnsweptFresh(run, c);
      Lineages(Unswept(run), c);
      if e.token.jti in b.sessions && e.token.jti !in a.sessions {
        TokensDieFirst(Births(Unswept(run), c), a, b, e.token, e.now, c);
      }
      assert SessionCheck(a, e.token, e.now) == SessionCheck(b, e.token, e.now);
    }
  }

  // ---- Single use ---------------------------------------------------------------------------------------

  /** How often the single-use token `ott` has been accepted. */
  function Redemptions(run: Trace<Event>, ott: string, c: Config): nat {
    match run
    case Start => 0
    case Then(before, e) =>
      Redemptions(before, ott, c)
      + if e.RedeemE? && e.ott == ott && Redeemable(After(before, c).sso, ott, e.now) then 1 else 0
  }

  predicate Spent(sso: map<string, Sso>, ott: string) {
    ott in sso && sso[ott].used
  }

  lemma StaysSpent(b: State, e: Event, ott: string, c: Config)
    requires Spent(b.sso, ott) && !e.CleanupE? && (e.MintE? ==> e.ott !in b.sso)
    ensures Spent(Step(b, e, c).sso, ott)
  {
  }

  /** A single-use token is accepted at most once in any run, however often the tables are swept. */
  lemma {:induction false} RedeemedOnce(run: Trace<Event>, ott: string, now: real, c: Config)
    requires MonotoneUpTo(run, TimeOf, now) && FreshDraws(run, c) && 0.0 <= c.refreshTtl
    ensures Redemptions(run, ott, c) <= 1
    ensures Redemptions(run, ott, c) == 1 ==> Spent(After(Unswept(run), c).sso, ott)
  {
    match run
    case Start =>
    case Then(before, e) =>
      var a, b := After(before, c), After(Unswept(before), c);
      RedeemedOnce(before, ott, e.now, c);
      SweptAfter(before, e.now, c);
      if e.RedeemE? && e.ott == ott {
        RedeemAnswers(a, b, ott, e.now, e.now, c);
      }
      if Spent(b.sso, ott) && !e.CleanupE? {
        StaysSpent(b, e, ott, c);
      }
  }
}
