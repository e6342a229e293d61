/**
 When each request is granted and what it changes, in terms of the rows and the request alone: login, refresh,
 requests with an access token, redemption, the Hub's check and the administrators' actions. Everything here holds in
 every state, so in every state a run reaches.
 */
module SessionAnswers {
  import opened Prelude
  import opened Sessions

  // ---- Login -----------------------------------------------------------------------------------------

  /** A lock of the account is still running. */
  predicate Barred(u: User, now: real) {
    u.lockedUntil.Some? && now < u.lockedUntil.value
  }

  /** A login that deserves a session: known, not barred, right password, approved, and the right code where one is due. */
  predicate Deserves(users: map<string, User>, e: Event)
    requires e.LoginE?
  {
    && e.uid in users && !Barred(users[e.uid], e.now) && e.password && users[e.uid].status == Approved
    && (users[e.uid].totp ==> e.otp == Right)
  }

  /** A login that got as far as the password or the code and had it wrong. */
  predicate Misses(users: map<string, User>, e: Event)
    requires e.LoginE?
  {
    && e.uid in users && !Barred(users[e.uid], e.now)
    && (!e.password || (users[e.uid].status == Approved && users[e.uid].totp && e.otp == Wrong))
  }

  /** A login is granted exactly when it deserves a session, and each refusal is given exactly for its reason. */
  lemma LoginAnsweredExactly(s: State, e: Event, c: Config)
    requires e.LoginE?
    ensures var r := Take(s, e, c).reply;
            && (r == Granted <==> Deserves(s.users, e))
            && (r == Refused(423, Locked) <==> e.uid in s.users && Barred(s.users[e.uid], e.now))
            && (r == Refused(401, InvalidCredentials) <==> e.uid !in s.users || Misses(s.users, e))
            && (r == Refused(403, NotActive) <==>
                  e.uid in s.users && !Barred(s.users[e.uid], e.now) && e.password && s.users[e.uid].status != Approved)
            && (r == Refused(401, OtpRequired) <==>
                  && e.uid in s.users && !Barred(s.users[e.uid], e.now) && e.password
                  && s.users[e.uid].status == Approved && s.users[e.uid].totp && e.otp == Missing)
  {
  }

  /** A session of `uid` that has just been issued: a live row for the refresh lifetime, two tokens to the whole second. */
  ghost predicate Issued(s': State, s: State, sessions: map<string, Session>, uid: string, jti: string, now: real, c: Config) {
    && s'.sessions == sessions[jti := Session(uid, now + c.refreshTtl, false)]
    && s'.sso == s.sso
    && (forall t :: t in s'.issued <==>
          t in s.issued || (t.sub == uid && t.jti == jti && t.exp == (now + c.accessTtl).Floor as real))
  }

  lemma IssueIssues(s: State, uid: string, jti: string, now: real, c: Config)
    requires uid in s.users
    ensures Issued(Issue(s, uid, jti, now, c), s, s.sessions, uid, jti, now, c)
  {
    var s' := Issue(s, uid, jti, now, c);
    forall t ensures t in s'.issued <==> t in s.issued || (t.sub == uid && t.jti == jti && t.exp == (now + c.accessTtl).Floor as real) {
      if t.sub == uid && t.jti == jti && t.exp == TokenExpiry(now, c) {
        assert t == Token(t.kind, uid, jti, TokenExpiry(now, c)) && (t.kind == Access || t.kind == Refresh);
      }
    }
  }

  /** Only the account `uid` may differ. */
  ghost predicate OthersSame(users': map<string, User>, users: map<string, User>, uid: string) {
    forall u :: u != uid ==> (u in users' <==> u in users) && (u in users ==> users'[u] == users[u])
  }

  /**
   A deserved login issues a session and clears the counter; a missed one counts, and the fifth in a row locks the
   account for 900 seconds and starts the count again; any other changes nothing.
   */
  lemma LoginChangesExactly(s: State, e: Event, c: Config)
    requires e.LoginE?
    ensures var s' := Step(s, e, c);
            && OthersSame(s'.users, s.users, e.uid) && (e.uid in s'.users <==> e.uid in s.users)
            && (Deserves(s.users, e) ==>
                  Issued(s', s, s.sessions, e.uid, e.jti, e.now, c) && s'.users[e.uid] == s.users[e.uid].(failed := 0))
            && (Misses(s.users, e) ==>
                  && s'.users[e.uid] == (if s.users[e.uid].failed >= 4
                                         then s.users[e.uid].(failed := 0, lockedUntil := Some(e.now + 900.0))
                                         else s.users[e.uid].(failed := s.users[e.uid].failed + 1))
                  && s' == s.(users := s'.users))
            && (!Deserves(s.users, e) && !Misses(s.users, e) ==> s' == s)
  {
    if Deserves(s.users, e) {
      IssueIssues(s, e.uid, e.jti, e.now, c);
    }
  }

  /** The Hub's check is granted exactly for a right password of an approved account, and changes nothing. */
  lemma HubCheckAnsweredExactly(s: State, uid: string, password: bool, now: real, c: Config)
    ensures var o := Take(s, HubCheckE(uid, password, now), c);
            && o.state == s
            && (o.reply == Granted <==> password && uid in s.users && s.users[uid].status == Approved)
            && (o.reply == Refused(403, NotActive) <==> password && uid in s.users && s.users[uid].status != Approved)
  {
  }

  // ---- Tokens ------------------------------------------------------------------------------------------

  /** A token of the gateway's own, of this kind, not expired, whose session is there, not revoked and not over. */
  predicate Opening(s: State, t: Token, kind: Kind, now: real) {
    && t in s.issued && now < t.exp && t.kind == kind
    && t.jti in s.sessions && !s.sessions[t.jti].revoked && now <= s.sessions[t.jti].expires
  }

  /** A refresh is granted exactly for an opening refresh token of an approved account; the old session is traded for a new one. */
  lemma RefreshAnsweredExactly(s: State, t: Token, jti: string, now: real, c: Config)
    ensures var o := Take(s, RefreshE(t, jti, now), c);
            && (o.reply == Granted <==> Opening(s, t, Refresh, now) && t.sub in s.users && s.users[t.sub].status == Approved)
            && (o.reply == Refused(403, NotActive) <==>
                  Opening(s, t, Refresh, now) && (t.sub in s.users ==> s.users[t.sub].status != Approved))
            && (o.reply != Granted ==> o.state == s)
            && (o.reply == Granted ==>
                  && Issued(o.state, s, s.sessions[t.jti := s.sessions[t.jti].(revoked := true)], t.sub, jti, now, c)
                  && o.state.users == s.users[t.sub := s.users[t.sub].(failed := 0)])
  {
    if Take(s, RefreshE(t, jti, now), c).reply == Granted {
      IssueIssues(s.(sessions := RevokeOne(s.sessions, t.jti)), t.sub, jti, now, c);
    }
  }

  /** The account may be served: approved, not past its end unless it is staff, and no password change in the way. */
  predicate Welcome(users: map<string, User>, uid: string, exempt: bool, now: real) {
    && uid in users && users[uid].status == Approved
    && (users[uid].expires.Some? && users[uid].expires.value < now ==> users[uid].role != Member)
    && (users[uid].mustChange ==> exempt)
  }

  /** Looking at oneself, changing the password and logging out stay possible while a password change is due. */
  predicate StaysPossible(a: Action) {
    a == Use(true) || a == Logout || a.ChangePassword?
  }

  /** What the handler itself asks for: the old password, or the right code. */
  predicate Proven(a: Action) {
    (a.ChangePassword? ==> a.oldOk) && (a.Totp? ==> a.codeOk)
  }

  /** A request is granted exactly for an opening access token of a welcome account with what the handler asks for. */
  lemma RequestAnsweredExactly(s: State, t: Token, a: Action, now: real, c: Config)
    ensures var o := Take(s, RequestE(t, a, now), c);
            && (o.reply == Granted <==> Opening(s, t, Access, now) && Welcome(s.users, t.sub, StaysPossible(a), now) && Proven(a))
            && (o.reply == Refused(403, AccountExpired) <==>
                  && Opening(s, t, Access, now) && t.sub in s.users && s.users[t.sub].status == Approved
                  && s.users[t.sub].role == Member && s.users[t.sub].expires.Some? && s.users[t.sub].expires.value < now)
            && (o.reply == Refused(403, PasswordChangeRequired) <==>
                  && Opening(s, t, Access, now) && Welcome(s.users, t.sub, true, now)
                  && s.users[t.sub].mustChange && !StaysPossible(a))
  {
  }

  /**
   What a request changes: a logout revokes its session, a password change lifts the duty to change it and revokes
   the user's other sessions, the second factor is set, a lapsed account is suspended, and nothing else ever changes.
   */
  lemma RequestChangesExactly(s: State, t: Token, a: Action, now: real, c: Config)
    ensures var o := Take(s, RequestE(t, a, now), c);
            var done := o.reply == Granted;
            && o.state.issued == s.issued && o.state.sso == s.sso && o.state.users.Keys == s.users.Keys
            && o.state.sessions.Keys == s.sessions.Keys
            && (forall j :: j in s.sessions ==>
                  && o.state.sessions[j].userId == s.sessions[j].userId && o.state.sessions[j].expires == s.sessions[j].expires
                  && (o.state.sessions[j].revoked <==>
                        || s.sessions[j].revoked
                        || (done && a == Logout && j == t.jti)
                        || (done && a.ChangePassword? && s.sessions[j].userId == t.sub && j != t.jti)))
            && OthersSame(o.state.users, s.users, t.sub)
            && (t.sub in s.users ==>
                  var u, u' := s.users[t.sub], o.state.users[t.sub];
                  u' == if o.reply == Refused(403, AccountExpired) then u.(status := Suspended)
                        else if done && a.ChangePassword? then u.(mustChange := false)
                        else if done && a.Totp? then u.(totp := a.on)
                        else u)
  {
  }

  // ---- Single-use tokens ------------------------------------------------------------------------------------

  /**
   A single-use token gets its bearer in exactly when it has been minted, has neither been used nor run out, and an
   approved account has its name; a token that has not been used or run out is spent in any case.
   */
  lemma RedeemAnsweredExactly(s: State, ott: string, now: real, c: Config)
    ensures var o := Take(s, RedeemE(ott, now), c);
            var unspent := ott in s.sso && !s.sso[ott].used && now <= s.sso[ott].expires;
            && (o.reply == Granted <==>
                  unspent && exists u :: u in s.users && s.users[u].username == s.sso[ott].username && s.users[u].status == Approved)
            && (o.reply == Refused(401, BadSsoToken) <==> !unspent)
            && o.state == (if unspent then s.(sso := s.sso[ott := s.sso[ott].(used := true)]) else s)
  {
  }

  /** A new account has no end, no second factor, no failure and no lock; a name already taken keeps its row. */
  lemma AddUserChangesExactly(s: State, e: Event, c: Config)
    requires e.AddUserE?
    ensures var s' := Step(s, e, c);
            && s' == s.(users := s'.users) && OthersSame(s'.users, s.users, e.uid) && e.uid in s'.users
            && (e.uid in s.users ==> s' == s)
            && (e.uid !in s.users ==>
                  var u := s'.users[e.uid];
                  && u.username == e.username && u.status == e.status && u.role == e.role && u.mustChange == e.mustChange
                  && u.expires == None && !u.totp && u.failed == 0 && u.lockedUntil == None)
  {
  }

  // ---- Administration ------------------------------------------------------------------------------------------

  /** An account an administrator may act on at all. */
  predicate Touchable(users: map<string, User>, uid: string) {
    uid in users && users[uid].role != Owner
  }

  predicate Administers(e: Event) {
    e.SuspendE? || e.ResetPasswordE? || e.DeleteE? || e.EditE?
  }

  /** Suspension, deletion and a change of role are not for one's own account. */
  predicate OnOneself(e: Event) {
    (e.SuspendE? || e.DeleteE? || (e.EditE? && e.edit.SetRole?)) && e.uid == e.admin
  }

  predicate GrantsOwner(e: Event) {
    e.EditE? && (e.edit == Approve(Owner) || e.edit == SetRole(Owner))
  }

  /** An administrator's action is granted exactly on a touchable account, not on oneself, and never hands out the owner role. */
  lemma AdminAnsweredExactly(s: State, e: Event, c: Config)
    requires Administers(e)
    ensures var r := Take(s, e, c).reply;
            && (r == Granted <==> Touchable(s.users, e.uid) && !OnOneself(e) && !GrantsOwner(e))
            && (r == Refused(404, NotFound) <==> e.uid !in s.users)
            && (r == Refused(400, OwnAccount) <==> Touchable(s.users, e.uid) && OnOneself(e))
            && (r != Granted ==> Step(s, e, c) == s)
  {
  }

  /** What is left of the sessions when `uid` is thrown out: the same rows, those of `uid` revoked. */
  ghost predicate AllRevoked(sessions': map<string, Session>, sessions: map<string, Session>, uid: string) {
    && sessions'.Keys == sessions.Keys
    && forall j :: j in sessions ==>
         sessions'[j] == Session(sessions[j].userId, sessions[j].expires, sessions[j].revoked || sessions[j].userId == uid)
  }

  /** What a granted action of an administrator changes: one account, and its sessions when the user is thrown out. */
  lemma AdminChangesExactly(s: State, e: Event, c: Config)
    requires Administers(e) && Take(s, e, c).reply == Granted
    ensures var s', u := Step(s, e, c), s.users[e.uid];
            && s'.issued == s.issued && s'.sso == s.sso && OthersSame(s'.users, s.users, e.uid)
            && (e.DeleteE? <==> e.uid !in s'.users)
            && (e.DeleteE? ==> forall j :: (j in s'.sessions <==> j in s.sessions && s.sessions[j].userId != e.uid)
                                           && (j in s'.sessions ==> s'.sessions[j] == s.sessions[j]))
            && (e.SuspendE? || e.ResetPasswordE? ==> AllRevoked(s'.sessions, s.sessions, e.uid))
            && (e.EditE? ==> s'.sessions == s.sessions)
            && (e.SuspendE? ==> s'.users[e.uid] == u.(status := Suspended))
            && (e.ResetPasswordE? ==> s'.users[e.uid] == u.(mustChange := true, failed := 0, lockedUntil := None))
            && (e.EditE? ==> EditedAs(s'.users[e.uid], u, e.edit))
  {
  }

  /** The one or two fields an edit is about have the new value, the others the old one. */
  ghost predicate EditedAs(u': User, u: User, d: Edit) {
    && u'.username == u.username && u'.mustChange == u.mustChange && u'.failed == u.failed && u'.lockedUntil == u.lockedUntil
    && u'.status == (if d.Approve? then Approved else if d.SetStatus? then d.status else u.status)
    && u'.role == (if d.Approve? || d.SetRole? then d.role else u.role)
    && u'.expires == (if d.SetExpiry? then d.expires else u.expires)
    && u'.totp == (u.totp && !d.ClearTotp?)
  }
}
