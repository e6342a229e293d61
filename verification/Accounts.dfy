/**
 The handlers behind Sessions as methods that change the tables: gateway/app/routers/auth.py, admin.py and
 internal.py, gateway/app/deps.py and gateway/app/maintenance.py. Each is proved to take exactly the step of its
 name; a bulk action is proved to be its single actions one after another.
 */
module Accounts {
  import opened Prelude
  import opened Sessions
  import opened SessionAnswers

  datatype BulkAction = BulkStatus(status: Status) | BulkSuspend | BulkDelete

  /** What a bulk action does to one account. */
  function BulkEvent(action: BulkAction, admin: string, uid: string, now: real): Event {
    match action
    case BulkStatus(status) => EditE(admin, uid, SetStatus(status), now)
    case BulkSuspend => SuspendE(admin, uid, now)
    case BulkDelete => DeleteE(admin, uid, now)
  }

  /** A bulk action as a run of single actions; the administrator's own account is left out. */
  function Bulk(run: Trace<Event>, action: BulkAction, uids: seq<string>, admin: string, now: real): Trace<Event> {
    if uids == [] then run
    else
      var init, uid := uids[..|uids| - 1], uids[|uids| - 1];
      if uid == admin then Bulk(run, action, init, admin, now)
      else Then(Bulk(run, action, init, admin, now), BulkEvent(action, admin, uid, now))
  }

  /** Whether a bulk action applies to an account: known, not the owner's and not one's own. */
  predicate Eligible(users: map<string, User>, admin: string, uid: string) {
    uid in users && users[uid].role != Owner && uid != admin
  }

  function CountEligible(users: map<string, User>, admin: string, uids: seq<string>): nat {
    if uids == [] then 0
    else CountEligible(users, admin, uids[..|uids| - 1]) + if Eligible(users, admin, uids[|uids| - 1]) then 1 else 0
  }

  class Gateway {
    const c: Config
    var users: map<string, User>
    var sessions: map<string, Session>
    var sso: map<string, Sso>
    var issued: set<Token>

    constructor (c: Config)
      ensures this.c == c && View() == EMPTY
    {
      this.c := c;
      users, sessions, sso, issued := map[], map[], map[], {};
    }

    function View(): State
      reads this
    {
      State(users, sessions, sso, issued)
    }

    // ---- Login ---------------------------------------------------------------------------------------

    /** `_register_failure` */
    method RegisterFailure(uid: string, now: real)
      requires uid in users
      modifies this`users
      ensures users == old(users)[uid := Failed(old(users)[uid], now)]
    {
      var u := users[uid];
      u := u.(failed := u.failed + 1);
      if u.failed >= MAX_FAILED {
        u := u.(lockedUntil := Some(now + LOCK_SECONDS));
        u := u.(failed := 0);
      }
      users := users[uid := u];
    }

    /** `_issue_session` */
    method IssueSession(uid: string, jti: string, now: real)
      requires uid in users
      modifies this`users, this`sessions, this`issued
      ensures View() == Issue(old(View()), uid, jti, now, c)
    {
      sessions := sessions[jti := Session(uid, now + c.refreshTtl, false)];
      users := users[uid := users[uid].(failed := 0)];
      var exp := (now + c.accessTtl).Floor as real;
      issued := issued + {Token(Kind.Access, uid, jti, exp), Token(Kind.Refresh, uid, jti, exp)};
    }

    /** `login` */
    method Login(uid: string, password: bool, otp: Otp, jti: string, now: real) returns (reply: Reply)
      modifies this`users, this`sessions, this`issued
      ensures Outcome(View(), reply) == Sessions.Login(old(View()), uid, password, otp, jti, now, c)
    {
      if uid !in users {
        return Refused(401, InvalidCredentials);
      }
      var u := users[uid];
      if u.lockedUntil.Some? && u.lockedUntil.value > now {
        return Refused(423, Locked);
      }
      if !password {
        RegisterFailure(uid, now);
        return Refused(401, InvalidCredentials);
      }
      if u.status == Pending {
        return Refused(403, NotActive);
      }
      if u.status == Rejected || u.status == Suspended {
        return Refused(403, NotActive);
      }
      if u.totp {
        if otp == Missing {
          return Refused(401, OtpRequired);
        }
        if otp != Right {
          RegisterFailure(uid, now);
          return Refused(401, InvalidCredentials);
        }
      }
      IssueSession(uid, jti, now);
      return Granted;
    }

    // ---- Tokens ------------------------------------------------------------------------------------------

    /** `refresh` */
    method Refresh(t: Token, jti: string, now: real) returns (reply: Reply)
      modifies this`users, this`sessions, this`issued
      ensures Outcome(View(), reply) == RefreshWith(old(View()), t, jti, now, c)
    {
      if t !in issued || now >= t.exp {
        return Refused(401, BadToken);
      }
      if t.kind != Kind.Refresh {
        return Refused(401, WrongType);
      }
      if t.jti !in sessions || sessions[t.jti].revoked || sessions[t.jti].expires < now {
        return Refused(401, SessionExpired);
      }
      if t.sub !in users || users[t.sub].status != Approved {
        return Refused(403, NotActive);
      }
      sessions := sessions[t.jti := sessions[t.jti].(revoked := true)];
      IssueSession(t.sub, jti, now);
      return Granted;
    }

    /** `get_current_session` */
    method CurrentSession(t: Token, exempt: bool, now: real) returns (reply: Reply)
      modifies this`users
      ensures reply == CurrentReply(old(View()), t, exempt, now)
      ensures View() == Lapse(old(View()), t, reply)
    {
      if t !in issued || now >= t.exp {
        return Refused(401, BadToken);
      }
      if t.kind != Access {
        return Refused(401, WrongType);
      }
      if t.jti !in sessions || sessions[t.jti].revoked {
        return Refused(401, SessionRevoked);
      }
      if sessions[t.jti].expires < now {
        return Refused(401, SessionExpired);
      }
      if t.sub !in users {
        return Refused(401, UnknownUser);
      }
      var u := users[t.sub];
      if u.status != Approved {
        return Refused(403, NotActive);
      }
      if u.expires.Some? && u.expires.value < now && u.role == Member {
        users := users[t.sub := u.(status := Suspended)];
        return Refused(403, AccountExpired);
      }
      if u.mustChange && !exempt {
        return Refused(403, PasswordChangeRequired);
      }
      return Granted;
    }

    /** The handlers behind the session check. */
    method Serve(t: Token, a: Action, now: real) returns (reply: Reply)
      modifies this`users, this`sessions
      ensures Outcome(View(), reply) == Request(old(View()), t, a, now)
    {
      reply := CurrentSession(t, a != Use(false) && !a.Totp?, now);
      if reply != Granted {
        return;
      }
      match a
      case Use(_) =>
      case Logout =>
        if t.jti in sessions {
          sessions := sessions[t.jti := sessions[t.jti].(revoked := true)];
        }
      case ChangePassword(oldOk) =>
        if !oldOk || t.sub !in users {
          return Refused(400, WrongPassword);
        }
        users := users[t.sub := users[t.sub].(mustChange := false)];
        RevokeSessions(t.sub, Some(t.jti));
      case Totp(on, codeOk) =>
        if !codeOk || t.sub !in users {
          return Refused(400, WrongCode);
        }
        users := users[t.sub := users[t.sub].(totp := on)];
    }

    /** The loops that revoke a user's sessions, all of them or all but one. */
    method RevokeSessions(uid: string, keep: Option<string>)
      modifies this`sessions
      ensures sessions == if keep.Some? then RevokeOthers(old(sessions), uid, keep.value) else RevokeAll(old(sessions), uid)
    {
      var rest := sessions.Keys;
      while rest != {}
        invariant rest <= sessions.Keys == old(sessions).Keys
        invariant forall j :: j in rest ==> sessions[j] == old(sessions)[j]
        invariant forall j :: j in sessions && j !in rest ==>
          sessions[j] == if old(sessions)[j].userId == uid && Some(j) != keep
                         then old(sessions)[j].(revoked := true) else old(sessions)[j]
        decreases |rest|
      {
        var j :| j in rest;
        if sessions[j].userId == uid && Some(j) != keep {
          sessions := sessions[j := sessions[j].(revoked := true)];
        }
        rest := rest - {j};
      }
    }

    // ---- Administration ------------------------------------------------------------------------------------

    /** The checks at the head of an administrator's action. */
    method Check(admin: string, uid: string, selfAllowed: bool) returns (reply: Reply)
      ensures reply == Guard(users, admin, uid, selfAllowed)
    {
      if uid !in users {
        return Refused(404, NotFound);
      }
      if users[uid].role == Owner {
        return Refused(403, OwnerProtected);
      }
      if uid == admin && !selfAllowed {
        return Refused(400, OwnAccount);
      }
      return Granted;
    }

    /** `suspend` */
    method SuspendUser(admin: string, uid: string) returns (reply: Reply)
      modifies this`users, this`sessions
      ensures Outcome(View(), reply) == Suspend(old(View()), admin, uid)
    {
      reply := Check(admin, uid, false);
      if reply == Granted {
        users := users[uid := users[uid].(status := Suspended)];
        RevokeSessions(uid, None);
      }
    }

    /** `reset_password` */
    method ResetUserPassword(uid: string) returns (reply: Reply)
      modifies this`users, this`sessions
      ensures Outcome(View(), reply) == ResetPassword(old(View()), uid)
    {
      reply := Check("", uid, true);
      if reply == Granted {
        users := users[uid := users[uid].(mustChange := true, failed := 0, lockedUntil := None)];
        RevokeSessions(uid, None);
      }
    }

    /** `reject`, `reinstate`: the status changes and the sessions stay as they are. */
    method SetUserStatus(admin: string, uid: string, status: Status) returns (reply: Reply)
      modifies this`users
      ensures Outcome(View(), reply) == EditUser(old(View()), admin, uid, SetStatus(status))
    {
      reply := Check(admin, uid, true);
      if reply == Granted {
        users := users[uid := users[uid].(status := status)];
      }
    }

    /** `approve`, with the role asked for. */
    method ApproveUser(admin: string, uid: string, role: Role) returns (reply: Reply)
      modifies this`users
      ensures Outcome(View(), reply) == EditUser(old(View()), admin, uid, Approve(role))
    {
      reply := Check(admin, uid, true);
      if reply == Granted {
        if role == Owner {
          return Refused(403, OwnerProtected);
        }
        users := users[uid := users[uid].(status := Approved)];
        users := users[uid := users[uid].(role := role)];
      }
    }

    /** `delete_user` */
    method DeleteUser(admin: string, uid: string) returns (reply: Reply)
      modifies this`users, this`sessions
      ensures Outcome(View(), reply) == Delete(old(View()), admin, uid)
    {
      reply := Check(admin, uid, false);
      if reply == Granted {
        users := users - {uid};
        sessions := map j | j in sessions && sessions[j].userId != uid :: sessions[j];
      }
    }

    /** The loop body of `bulk_users` for an eligible account. */
    method Act(action: BulkAction, admin: string, uid: string, ghost now: real)
      requires uid != admin
      modifies this`users, this`sessions
      ensures View() == Step(old(View()), BulkEvent(action, admin, uid, now), c)
    {
      match action {
        case BulkStatus(status) => var _ := SetUserStatus(admin, uid, status);
        case BulkSuspend => var _ := SuspendUser(admin, uid);
        case BulkDelete => var _ := DeleteUser(admin, uid);
      }
    }

    /** `bulk_users`: accounts are looked up as they were before the action, and repeated ids count again. */
    method BulkUsers(action: BulkAction, uids: seq<string>, admin: string, now: real, ghost run: Trace<Event>)
      returns (done: nat, skipped: nat)
      requires View() == After(run, c)
      modifies this`users, this`sessions
      ensures View() == After(Bulk(run, action, uids, admin, now), c)
      ensures done == CountEligible(old(users), admin, uids) && skipped == |uids| - done
    {
      var known := users;
      done, skipped := 0, 0;
      for i := 0 to |uids|
        invariant View() == After(Bulk(run, action, uids[..i], admin, now), c)
        invariant done == CountEligible(known, admin, uids[..i]) && skipped == i - done
        invariant forall u :: u in users ==> u in known && users[u].role == known[u].role
      {
        assert uids[..i + 1][..i] == uids[..i];
        if uids[i] !in known || known[uids[i]].role == Owner || uids[i] == admin {
          skipped := skipped + 1;
          BulkSkips(View(), action, admin, uids[i], now, c);
          continue;
        }
        BulkKeepsRoles(View(), action, admin, uids[i], now, c);
        Act(action, admin, uids[i], now);
        done := done + 1;
      }
      assert uids[..|uids|] == uids;
    }

    // ---- Single-use tokens and the sweep -----------------------------------------------------------------------

    /** `redeem_ott`; `trusted` is whether the caller showed the internal secret. */
    method RedeemOtt(trusted: bool, ott: string, now: real) returns (reply: Reply)
      modifies this`sso
      ensures trusted ==> Outcome(View(), reply) == Redeem(old(View()), ott, now)
      ensures !trusted ==> View() == old(View()) && reply == Refused(401, BadInternalAuth)
    {
      if !trusted {
        return Refused(401, BadInternalAuth);
      }
      if ott !in sso || sso[ott].used || sso[ott].expires < now {
        return Refused(401, BadSsoToken);
      }
      sso := sso[ott := sso[ott].(used := true)];
      if !ApprovedNamed(users, sso[ott].username) {
        return Refused(403, NotActive);
      }
      return Granted;
    }

    /** `authenticate`, the Hub's credential check: it reads and changes nothing. */
    method Authenticate(trusted: bool, uid: string, password: bool) returns (reply: Reply)
      ensures reply == if trusted then HubReply(users, uid, password) else Refused(401, BadInternalAuth)
    {
      if !trusted {
        return Refused(401, BadInternalAuth);
      }
      if uid !in users || !password {
        return Refused(401, InvalidCredentials);
      }
      if users[uid].status != Approved {
        return Refused(403, NotActive);
      }
      return Granted;
    }

    method SweepTokens(now: real) returns (removed: nat)
      modifies this`sso
      ensures sso == map o | o in old(sso) && !old(sso)[o].used && !(old(sso)[o].expires < now) :: old(sso)[o]
      ensures removed == |old(sso)| - |sso|
    {
      var usedUp := set o | o in sso && (sso[o].used || sso[o].expires < now);
      Removed(sso, usedUp);
      sso := sso - usedUp;
      removed := |usedUp|;
    }

    method SweepSessions(cutoff: real) returns (removed: nat)
      modifies this`sessions
      ensures sessions == map j | j in old(sessions) && !(old(sessions)[j].expires < cutoff) :: old(sessions)[j]
      ensures removed == |old(sessions)| - |sessions|
    {
      var over := set j | j in sessions && sessions[j].expires < cutoff;
      Removed(sessions, over);
      sessions := sessions - over;
      removed := |over|;
    }

    /** `cleanup_once`; the counts it reports. */
    method CleanupOnce(now: real) returns (tokens: nat, dead: nat)
      modifies this`sso, this`sessions
      ensures View() == Cleanup(old(View()), now, c)
      ensures tokens == |old(sso)| - |sso| && dead == |old(sessions)| - |sessions|
    {
      tokens := SweepTokens(now);
      dead := SweepSessions(now - c.refreshTtl);
    }
  }

  /** A single action on an account that the bulk action skips would have changed nothing. */
  lemma BulkSkips(s: State, action: BulkAction, admin: string, uid: string, now: real, c: Config)
    ensures !Eligible(s.users, admin, uid) && uid != admin ==> Step(s, BulkEvent(action, admin, uid, now), c) == s
  {
  }

  lemma BulkKeepsRoles(s: State, action: BulkAction, admin: string, uid: string, now: real, c: Config)
    ensures var s' := Step(s, BulkEvent(action, admin, uid, now), c);
            forall u :: u in s'.users ==> u in s.users && s'.users[u].role == s.users[u].role
  {
  }

  // ---- What a bulk action comes to ---------------------------------------------------------------------

  predicate Hit(users: map<string, User>, admin: string, uids: seq<string>, u: string) {
    u in uids && Eligible(users, admin, u)
  }

  /** Each listed account that may be acted on is dealt with, and no other account changes. */
  ghost predicate UsersDone(users': map<string, User>, users: map<string, User>, action: BulkAction, admin: string, uids: seq<string>) {
    forall u :: u in users || u in users' ==>
      if !Hit(users, admin, uids, u) then u in users && u in users' && users'[u] == users[u]
      else if action.BulkDelete? then u !in users'
      else u in users' && users'[u] == users[u].(status := if action.BulkSuspend? then Suspended else action.status)
  }

  /** Suspended accounts lose their sessions to revocation, deleted ones altogether; no other session changes. */
  ghost predicate SessionsDone(sessions': map<string, Session>, sessions: map<string, Session>, users: map<string, User>,
                               action: BulkAction, admin: string, uids: seq<string>) {
    forall j :: j in sessions || j in sessions' ==>
      && j in sessions
      && (var hit := Hit(users, admin, uids, sessions[j].userId);
          if action.BulkDelete? && hit then j !in sessions'
          else j in sessions' && sessions'[j] == if action.BulkSuspend? && hit then sessions[j].(revoked := true) else sessions[j])
  }

  lemma OneMoreUser(s: State, s': State, action: BulkAction, admin: string, uids: seq<string>, uid: string, now: real, c: Config)
    requires UsersDone(s'.users, s.users, action, admin, uids) && uid != admin
    ensures UsersDone(Step(s', BulkEvent(action, admin, uid, now), c).users, s.users, action, admin, uids + [uid])
  {
  }

  lemma OneMoreOwner(s: State, s': State, action: BulkAction, admin: string, uids: seq<string>, uid: string, now: real, c: Config)
    requires UsersDone(s'.users, s.users, action, admin, uids)
    requires SessionsDone(s'.sessions, s.sessions, s.users, action, admin, uids) && uid != admin
    ensures SessionsDone(Step(s', BulkEvent(action, admin, uid, now), c).sessions, s.sessions, s.users, action, admin, uids + [uid])
  {
  }

  lemma SkipAdmin(s: State, s': State, action: BulkAction, admin: string, uids: seq<string>)
    requires UsersDone(s'.users, s.users, action, admin, uids) && SessionsDone(s'.sessions, s.sessions, s.users, action, admin, uids)
    ensures UsersDone(s'.users, s.users, action, admin, uids + [admin])
    ensures SessionsDone(s'.sessions, s.sessions, s.users, action, admin, uids + [admin])
  {
  }

  /**
   A bulk action gives every listed account that is known, not an owner's and not one's own the status asked for, or
   suspends it and revokes its sessions, or deletes it with them; nothing else changes.
   */
  lemma {:induction false} BulkExactly(run: Trace<Event>, action: BulkAction, uids: seq<string>, admin: string, now: real, c: Config)
    ensures var s, s' := After(run, c), After(Bulk(run, action, uids, admin, now), c);
            UsersDone(s'.users, s.users, action, admin, uids) && SessionsDone(s'.sessions, s.sessions, s.users, action, admin, uids)
  {
    if uids != [] {
      var init, uid := uids[..|uids| - 1], uids[|uids| - 1];
      var s, s' := After(run, c), After(Bulk(run, action, init, admin, now), c);
      BulkExactly(run, action, init, admin, now, c);
      assert uids == init + [uid];
      if uid == admin {
        SkipAdmin(s, s', action, admin, init);
      } else {
        OneMoreUser(s, s', action, admin, init, uid, now, c);
        OneMoreOwner(s, s', action, admin, init, uid, now, c);
      }
    }
  }

  lemma Removed<T>(table: map<string, T>, keys: set<string>)
    requires keys <= table.Keys
    ensures |table - keys| == |table| - |keys|
  {
    assert (table - keys).Keys == table.Keys - keys;
    assert |table.Keys| == |table| && |(table - keys).Keys| == |table - keys|;
  }
}
