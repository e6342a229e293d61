/**
 Rules that hold from one request to much later ones: the owner's account, a forced password change, the life of a
 single-use token, and what the sweep leaves. (gateway/app/routers/admin.py and internal.py, gateway/app/deps.py,
 gateway/app/maintenance.py.)
 */
module SessionRules {
  import opened Prelude
  import opened Sessions
  import opened SessionAnswers
  import opened SessionLineage

  // ---- The owner ---------------------------------------------------------------------------------------

  /** The row of `uid` is an owner's, with this name, status and end. */
  predicate OwnerRow(s: State, uid: string, username: string, status: Status, expires: Option<real>) {
    && uid in s.users && s.users[uid].role == Owner
    && s.users[uid].username == username && s.users[uid].status == status && s.users[uid].expires == expires
  }

  lemma StepKeepsOwner(s: State, e: Event, uid: string, username: string, status: Status, expires: Option<real>, c: Config)
    requires OwnerRow(s, uid, username, status, expires)
    ensures OwnerRow(Step(s, e, c), uid, username, status, expires)
  {
    if e.RequestE? {
      RequestChangesExactly(s, e.token, e.action, e.now, c);
      RequestAnsweredExactly(s, e.token, e.action, e.now, c);
    }
  }

  /** Nothing that anybody does removes, renames, suspends, demotes or dates the owner's account. */
  lemma {:induction false} OwnerStays(run: Trace<Event>, later: Trace<Event>, uid: string, c: Config)
    requires Follows(later, run) && uid in After(run, c).users && After(run, c).users[uid].role == Owner
    ensures var u := After(run, c).users[uid]; OwnerRow(After(later, c), uid, u.username, u.status, u.expires)
  {
    if later != run {
      var u := After(run, c).users[uid];
      OwnerStays(run, later.before, uid, c);
      StepKeepsOwner(After(later.before, c), later.event, uid, u.username, u.status, u.expires, c);
    }
  }

  lemma StepMakesNoOwner(s: State, e: Event, uid: string, c: Config)
    requires uid in Step(s, e, c).users && Step(s, e, c).users[uid].role == Owner
    requires uid in s.users ==> s.users[uid].role != Owner
    ensures e.AddUserE? && e.uid == uid && e.role == Owner
  {
    if e.RequestE? {
      RequestChangesExactly(s, e.token, e.action, e.now, c);
    }
  }

  /** Whoever is an owner was added as one. */
  lemma {:induction false} OwnersWereAdded(run: Trace<Event>, uid: string, c: Config) returns (added: Trace<Event>)
    requires uid in After(run, c).users && After(run, c).users[uid].role == Owner
    ensures Follows(run, added) && added.Then? && added.event.AddUserE? && added.event.uid == uid && added.event.role == Owner
  {
    var s := After(run.before, c);
    if uid in s.users && s.users[uid].role == Owner {
      added := OwnersWereAdded(run.before, uid, c);
    } else {
      StepMakesNoOwner(s, run.event, uid, c);
      added := run;
    }
  }

  // ---- The forced password change ------------------------------------------------------------------------

  /** The user changes the password, or the account goes. */
  predicate LiftsDuty(s: State, e: Event, uid: string, c: Config) {
    && ((e.RequestE? && e.action.ChangePassword? && e.token.sub == uid) || (e.DeleteE? && e.uid == uid))
    && Take(s, e, c).reply == Granted
  }

  /** `later` continues `run`, and nothing in between has lifted the duty of `uid`. */
  ghost predicate DutyStands(later: Trace<Event>, run: Trace<Event>, uid: string, c: Config) {
    || later == run
    || (later.Then? && !LiftsDuty(After(later.before, c), later.event, uid, c) && DutyStands(later.before, run, uid, c))
  }

  predicate Due(s: State, uid: string) {
    uid in s.users && s.users[uid].mustChange
  }

  lemma StepKeepsDue(s: State, e: Event, uid: string, c: Config)
    requires Due(s, uid) && !LiftsDuty(s, e, uid, c)
    ensures Due(Step(s, e, c), uid)
  {
    if e.RequestE? {
      RequestChangesExactly(s, e.token, e.action, e.now, c);
    }
  }

  lemma {:induction false} DueLasts(run: Trace<Event>, later: Trace<Event>, uid: string, c: Config)
    requires DutyStands(later, run, uid, c) && Due(After(run, c), uid)
    ensures Due(After(later, c), uid)
  {
    if later != run {
      DueLasts(run, later.before, uid, c);
      StepKeepsDue(After(later.before, c), later.event, uid, c);
    }
  }

  /**
   After an administrator's password reset the user gets nothing done but look at the account, log out and change the
   password, until that change has been made, however many logins and refreshes lie between.
   */
  lemma ResetForcesChange(before: Trace<Event>, uid: string, at: real, later: Trace<Event>, t: Token, a: Action, now: real, c: Config)
    requires Take(After(before, c), ResetPasswordE(uid, at), c).reply == Granted
    requires DutyStands(later, Then(before, ResetPasswordE(uid, at)), uid, c)
    requires t.sub == uid && Take(After(later, c), RequestE(t, a, now), c).reply == Granted
    ensures a == Use(true) || a == Logout || a == ChangePassword(true)
  {
    AdminAnsweredExactly(After(before, c), ResetPasswordE(uid, at), c);
    AdminChangesExactly(After(before, c), ResetPasswordE(uid, at), c);
    DueLasts(Then(before, ResetPasswordE(uid, at)), later, uid, c);
    RequestAnsweredExactly(After(later, c), t, a, now, c);
  }

  // ---- Single-use tokens -----------------------------------------------------------------------------------

  /** `later` continues `minted`, and `ott` has not been minted again since. */
  ghost predicate NotReminted(later: Trace<Event>, minted: Trace<Event>, ott: string) {
    || later == minted
    || (later.Then? && !(later.event.MintE? && later.event.ott == ott) && NotReminted(later.before, minted, ott))
  }

  /** Nobody has presented `ott` since `minted`. */
  ghost predicate Unpresented(later: Trace<Event>, minted: Trace<Event>, ott: string) {
    || later == minted
    || (later.Then? && !(later.event.RedeemE? && later.event.ott == ott) && Unpresented(later.before, minted, ott))
  }

  /** The row of a token minted at `at`, at a time `now`: there while it is fresh, used once it has been presented in time. */
  ghost predicate TokenRow(sso: map<string, Sso>, ott: string, username: string, until: real, presented: bool, now: real) {
    && (ott in sso ==> sso[ott].username == username && sso[ott].expires == until && (sso[ott].used ==> presented))
    && (!presented && now <= until ==> ott in sso)
    && (presented && now <= until && ott in sso ==> sso[ott].used)
  }

  lemma StepKeepsToken(s: State, e: Event, ott: string, username: string, until: real, presented: bool, c: Config)
    requires TokenRow(s.sso, ott, username, until, presented, e.now) && !(e.MintE? && e.ott == ott)
    ensures TokenRow(Step(s, e, c).sso, ott, username, until, presented || (e.RedeemE? && e.ott == ott), e.now)
  {
    if e.RequestE? {
      RequestChangesExactly(s, e.token, e.action, e.now, c);
    }
  }

  lemma {:induction false} TokenLives(before: Trace<Event>, mint: Event, later: Trace<Event>, now: real, c: Config)
    requires mint.MintE? && NotReminted(later, Then(before, mint), mint.ott) && MonotoneUpTo(later, TimeOf, now)
    ensures TokenRow(After(later, c).sso, mint.ott, mint.username, mint.now + c.ssoTtl,
                     !Unpresented(later, Then(before, mint), mint.ott), now)
  {
    if later != Then(before, mint) {
      TokenLives(before, mint, later.before, later.event.now, c);
      StepKeepsToken(After(later.before, c), later.event, mint.ott, mint.username, mint.now + c.ssoTtl,
                     !Unpresented(later.before, Then(before, mint), mint.ott), c);
    }
  }

  /**
   A minted token gets its bearer in exactly when it is presented within its lifetime, for the first time, and an
   approved account has the name it was minted for: over every run, sweeps and all.
   */
  lemma RedeemedExactly(before: Trace<Event>, mint: Event, later: Trace<Event>, now: real, c: Config)
    requires mint.MintE? && NotReminted(later, Then(before, mint), mint.ott) && MonotoneUpTo(later, TimeOf, now)
    ensures Take(After(later, c), RedeemE(mint.ott, now), c).reply == Granted <==>
              && now <= mint.now + c.ssoTtl && Unpresented(later, Then(before, mint), mint.ott)
              && exists u :: u in After(later, c).users && After(later, c).users[u].username == mint.username
                             && After(later, c).users[u].status == Approved
  {
    TokenLives(before, mint, later, now, c);
    RedeemAnsweredExactly(After(later, c), mint.ott, now, c);
  }

  // ---- The sweep ----------------------------------------------------------------------------------------------

  /**
   A sweep leaves exactly the single-use tokens that can still be redeemed, and the sessions issued no longer than two
   refresh lifetimes ago, revoked or not; what it leaves it leaves unchanged.
   */
  lemma SweepLeavesExactly(run: Trace<Event>, now: real, c: Config)
    requires Fresh(run, c)
    ensures var s, s' := After(run, c), After(Then(run, CleanupE(now)), c);
            && s'.users == s.users && s'.issued == s.issued
            && (forall o :: o in s'.sso <==> o in s.sso && !s.sso[o].used && now <= s.sso[o].expires)
            && (forall o :: o in s'.sso ==> s'.sso[o] == s.sso[o])
            && (forall j :: j in s'.sessions <==>
                  j in s.sessions && j in Births(run, c) && now <= Births(run, c)[j].at + c.refreshTtl + c.refreshTtl)
            && (forall j :: j in s'.sessions ==> s'.sessions[j] == s.sessions[j])
  {
    Lineages(run, c);
  }
}
