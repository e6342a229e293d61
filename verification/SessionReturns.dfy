/**
 Who comes back: what a rejection or an expiry followed by a reinstatement does to old sessions, and what a passed
 expiry date does to a login.
 */
module SessionReturns {
  import opened Prelude
  import opened Sessions
  import opened SessionLineage

  /** The two ways an account stops being approved without its sessions being revoked. */
  predicate Interrupts(s: State, e: Event, uid: string, c: Config) {
    || (e.EditE? && e.uid == uid && e.edit == SetStatus(Rejected) && Take(s, e, c).reply == Granted)
    || (e.RequestE? && e.token.sub == uid && Take(s, e, c).reply == Refused(403, AccountExpired))
  }

  predicate NotApproved(s: State, uid: string) {
    uid in s.users ==> s.users[uid].status != Approved
  }

  /** What makes an account approved: an approval, a reinstatement, or a new account under the same id. */
  predicate Approves(e: Event, uid: string) {
    || (e.EditE? && e.uid == uid && (e.edit.Approve? || e.edit == SetStatus(Approved)))
    || (e.AddUserE? && e.uid == uid)
  }

  /** `later` continues `run` and nothing in between approves `uid`. */
  ghost predicate NeverApproved(later: Trace<Event>, run: Trace<Event>, uid: string) {
    || later == run
    || (later.Then? && !Approves(later.event, uid) && NeverApproved(later.before, run, uid))
  }

  lemma StaysNotApproved(s: State, e: Event, uid: string, c: Config)
    requires NotApproved(s, uid) && !Approves(e, uid)
    ensures NotApproved(Step(s, e, c), uid)
  {
    if e.RequestE? {
      RequestKeepsStatus(s, e.token, e.action, e.now, uid);
    }
  }

  lemma RequestKeepsStatus(s: State, t: Token, a: Action, now: real, uid: string)
    requires NotApproved(s, uid)
    ensures NotApproved(Request(s, t, a, now).state, uid)
  {
  }

  lemma {:induction false} NotApprovedLasts(run: Trace<Event>, later: Trace<Event>, uid: string, c: Config)
    requires NeverApproved(later, run, uid) && NotApproved(After(run, c), uid)
    ensures NotApproved(After(later, c), uid)
  {
    if later != run {
      NotApprovedLasts(run, later.before, uid, c);
      StaysNotApproved(After(later.before, c), later.event, uid, c);
    }
  }

  /** From a rejection or a lapse until it is approved again, none of the account's tokens opens anything. */
  lemma InterruptedIsOut(run: Trace<Event>, e: Event, later: Trace<Event>, t: Token, exempt: bool, now: real, c: Config)
    requires Interrupts(After(run, c), e, t.sub, c) && NeverApproved(later, Then(run, e), t.sub)
    ensures CurrentReply(After(later, c), t, exempt, now) != Granted && RefreshReply(After(later, c), t, now) != Granted
  {
    NotApprovedLasts(Then(run, e), later, t.sub, c);
  }

  /**
   After a rejection, or a suspension by expiry, and a reinstatement, exactly the tokens open again whose session is
   still unrevoked and unexpired: for a refresh that is all, for a request the account must also not have lapsed and
   no password change be due.
   */
  lemma ReinstatedExactly(s: State, e: Event, admin: string, t: Token, exempt: bool, at: real, now: real, c: Config)
    requires Interrupts(s, e, t.sub, c) && t.sub in s.users
    requires Take(Step(s, e, c), EditE(admin, t.sub, SetStatus(Approved), at), c).reply == Granted
    ensures var s' := Step(Step(s, e, c), EditE(admin, t.sub, SetStatus(Approved), at), c);
            && (RefreshReply(s', t, now) == Granted <==>
                  Decodes(s, t, now) && t.kind == Refresh && Live(s, t.jti) && !(s.sessions[t.jti].expires < now))
            && (CurrentReply(s', t, exempt, now) == Granted <==>
                  SessionCheck(s, t, now) == Granted && !Lapsed(s.users[t.sub], now) && (s.users[t.sub].mustChange ==> exempt))
  {
  }

  /** It happens: a rejected user's session works again after the reinstatement. */
  lemma RejectedComesBack(c: Config) returns (rejected: Trace<Event>, back: Trace<Event>, t: Token)
    requires c.accessTtl >= 2.0 && c.refreshTtl >= 1.0
    ensures back == Then(rejected, EditE("admin", t.sub, SetStatus(Approved), 1.0))
    ensures SessionCheck(After(rejected, c), t, 1.0) == Granted && CurrentReply(After(rejected, c), t, false, 1.0) != Granted
    ensures CurrentReply(After(back, c), t, false, 1.0) == Granted
  {
    var added := Then(Start, AddUserE("u", "user", Approved, Member, false, 0.0));
    var loggedIn := Then(added, LoginE("u", true, Missing, "j", 0.0));
    rejected := Then(loggedIn, EditE("admin", "u", SetStatus(Rejected), 1.0));
    back := Then(rejected, EditE("admin", "u", SetStatus(Approved), 1.0));
    t := Token(Access, "u", "j", TokenExpiry(0.0, c));
    assert c.accessTtl.Floor >= 2;
    assert After(added, c).users == map["u" := User("user", Approved, Member, None, false, false, 0, None)];
    assert t in After(loggedIn, c).issued && Live(After(loggedIn, c), "j");
  }

  // ---- Over whole runs ---------------------------------------------------------------------------------------

  /** Event `e` neither ends the chain of session `j` nor trades `j` for a successor. */
  predicate Spares(s: State, e: Event, j: string, owner: string, c: Config) {
    j in s.sessions ==> !Cuts(s, e, j, owner, c) && !(e.RefreshE? && e.token.jti == j && Issues(s, e, c))
  }

  /** `later` continues `run`, and every event in between spares session `j`. */
  ghost predicate Spared(later: Trace<Event>, run: Trace<Event>, j: string, owner: string, c: Config) {
    || later == run
    || (later.Then? && Spared(later.before, run, j, owner, c) && Spares(After(later.before, c), later.event, j, owner, c))
  }

  lemma SparedStep(births: map<string, Birth>, s: State, e: Event, j: string, c: Config)
    requires Tied(births, s, c) && j in births && Live(s, j) && (Issues(s, e, c) ==> e.jti !in births)
    ensures Live(Step(s, e, c), j) <==> Spares(s, e, j, births[j].owner, c)
  {
    if Issues(s, e, c) {
      IssueStep(s, e, c);
    } else {
      GoneExactly(births, s, e, j, c);
    }
  }

  /** A live session is still live at a later point of the run exactly when every event in between has spared it. */
  lemma {:induction false} LivesExactly(run: Trace<Event>, later: Trace<Event>, j: string, c: Config)
    requires Follows(later, run) && Fresh(later, c) && j in Births(run, c) && Live(After(run, c), j)
    ensures Live(After(later, c), j) <==> Spared(later, run, j, Births(run, c)[j].owner, c)
  {
    if later != run {
      var before := later.before;
      LivesExactly(run, before, j, c);
      BirthsGrow(before, run, c);
      if Live(After(before, c), j) {
        Lineages(before, c);
        SparedStep(Births(before, c), After(before, c), later.event, j, c);
      } else {
        StaysDead(Births(before, c), After(before, c), later.event, j, c);
      }
    }
  }

  /**
   Whatever rejections, lapses and reinstatements lie between, a refresh token of a session that was live works at a
   later time exactly when its session has been spared since, the access lifetime has not run out, and the account is
   approved then.
   */
  lemma RefreshWorksExactly(run: Trace<Event>, later: Trace<Event>, t: Token, now: real, c: Config)
    requires Follows(later, run) && Fresh(later, c) && c.accessTtl <= c.refreshTtl
    requires t in After(run, c).issued && t.kind == Refresh && Live(After(run, c), t.jti)
    ensures RefreshReply(After(later, c), t, now) == Granted <==>
              && Spared(later, run, t.jti, t.sub, c) && now < t.exp
              && t.sub in After(later, c).users && After(later, c).users[t.sub].status == Approved
  {
    FreshPrefix(later, run, c);
    Lineages(run, c);
    Lineages(later, c);
    LivesExactly(run, later, t.jti, c);
    IssuedGrows(run, later, t, c);
  }

  lemma {:induction false} IssuedGrows(run: Trace<Event>, later: Trace<Event>, t: Token, c: Config)
    requires Follows(later, run) && t in After(run, c).issued
    ensures t in After(later, c).issued
  {
    if later != run {
      IssuedGrows(run, later.before, t, c);
      var s, e := After(later.before, c), later.event;
      if Issues(s, e, c) {
        IssueStep(s, e, c);
      } else {
        QuietStep(s, e, c);
      }
    }
  }

  // ---- Expiry at login --------------------------------------------------------------------------------------

  /** A login does not look at the account's expiry date: with any other date it is answered the same. */
  lemma LoginIgnoresExpiry(s: State, uid: string, expires: Option<real>, password: bool, otp: Otp, jti: string, now: real, c: Config)
    requires uid in s.users
    ensures var other := s.(users := s.users[uid := s.users[uid].(expires := expires)]);
            Take(other, LoginE(uid, password, otp, jti, now), c).reply == Take(s, LoginE(uid, password, otp, jti, now), c).reply
  {
  }

  /**
   The first request with the new token finds out: it is refused as expired, and the account suspended, exactly when
   the date has passed for an account that is not staff.
   */
  lemma LapsedFoundOutAtOnce(s: State, uid: string, otp: Otp, jti: string, now: real, a: Action, later: real, c: Config)
    requires Take(s, LoginE(uid, true, otp, jti, now), c).reply == Granted
    requires now <= later < TokenExpiry(now, c) && later <= now + c.refreshTtl
    ensures var s', t := Step(s, LoginE(uid, true, otp, jti, now), c), Token(Access, uid, jti, TokenExpiry(now, c));
            var o := Take(s', RequestE(t, a, later), c);
            && (o.reply == Refused(403, AccountExpired) <==> Lapsed(s.users[uid], later))
            && (Lapsed(s.users[uid], later) ==> o.state.users[uid].status == Suspended && Live(o.state, jti))
  {
  }
}
