/**
 Session lineages over whole runs: a login starts a chain, each refresh replaces its link, and a chain that has
 been cut never carries anybody in again.
 */
module SessionLineage {
  import opened Prelude
  import opened Sessions
  import opened SessionAnswers

  /** Where a session came from: the login at the root of its chain, its owner, and when it was issued. */
  datatype Birth = Birth(root: string, owner: string, at: real)

  predicate Issues(s: State, e: Event, c: Config) {
    (e.LoginE? || e.RefreshE?) && Take(s, e, c).reply == Granted
  }

  function BirthOf(births: map<string, Birth>, e: Event): Birth
    requires e.LoginE? || e.RefreshE?
  {
    if e.LoginE? then Birth(e.jti, e.uid, e.now)
    else Birth(if e.token.jti in births then births[e.token.jti].root else e.jti, e.token.sub, e.now)
  }

  /** Every session ever issued. */
  function Births(run: Trace<Event>, c: Config): map<string, Birth> {
    match run
    case Start => map[]
    case Then(before, e) =>
      if Issues(After(before, c), e, c) then Births(before, c)[e.jti := BirthOf(Births(before, c), e)] else Births(before, c)
  }

  /** Session ids are drawn at random: none is ever drawn twice. */
  ghost predicate Fresh(run: Trace<Event>, c: Config) {
    run.Then? ==>
      Fresh(run.before, c) && (Issues(After(run.before, c), run.event, c) ==> run.event.jti !in Births(run.before, c))
  }

  // ---- What a step does to sessions ------------------------------------------------------------------

  /** Sessions may go away or be revoked, and nothing else happens to them. */
  ghost predicate Weaker(later: map<string, Session>, sessions: map<string, Session>) {
    forall j :: j in later ==>
      && j in sessions && later[j].userId == sessions[j].userId && later[j].expires == sessions[j].expires
      && (sessions[j].revoked ==> later[j].revoked)
  }

  function Kept(s: State, e: Event): map<string, Session> {
    if e.RefreshE? then RevokeOne(s.sessions, e.token.jti) else s.sessions
  }

  function Bearer(e: Event): string
    requires e.LoginE? || e.RefreshE?
  {
    if e.LoginE? then e.uid else e.token.sub
  }

  lemma IssueStep(s: State, e: Event, c: Config)
    requires Issues(s, e, c)
    ensures Step(s, e, c).sessions == Kept(s, e)[e.jti := Session(Bearer(e), e.now + c.refreshTtl, false)]
    ensures Step(s, e, c).issued == s.issued + Tokens(Bearer(e), e.jti, e.now, c)
    ensures Weaker(Kept(s, e), s.sessions)
    ensures e.RefreshE? ==> Decodes(s, e.token, e.now) && Live(s, e.token.jti)
  {
  }

  lemma RequestWeakens(s: State, t: Token, a: Action, now: real)
    ensures Weaker(Request(s, t, a, now).state.sessions, s.sessions) && Request(s, t, a, now).state.issued == s.issued
  {
  }

  lemma QuietStep(s: State, e: Event, c: Config)
    requires !Issues(s, e, c)
    ensures Weaker(Step(s, e, c).sessions, s.sessions) && Step(s, e, c).issued == s.issued
  {
    if e.RequestE? {
      RequestWeakens(s, e.token, e.action, e.now);
    }
  }

  // ---- The invariant -----------------------------------------------------------------------------------

  ghost predicate TiedSessions(births: map<string, Birth>, sessions: map<string, Session>, c: Config) {
    forall j :: j in sessions ==>
      j in births && births[j].owner == sessions[j].userId && sessions[j].expires == births[j].at + c.refreshTtl
  }

  ghost predicate TiedTokens(births: map<string, Birth>, issued: set<Token>, c: Config) {
    forall t :: t in issued ==>
      t.jti in births && births[t.jti].owner == t.sub && t.exp == TokenExpiry(births[t.jti].at, c)
  }

  ghost predicate Rooted(births: map<string, Birth>) {
    forall j :: j in births ==>
      && births[j].root in births && births[births[j].root].owner == births[j].owner
      && births[births[j].root].root == births[j].root
  }

  /** At most one session of a chain is unrevoked. */
  ghost predicate OneLive(births: map<string, Birth>, sessions: map<string, Session>) {
    forall j, k :: j in sessions && k in sessions && j in births && k in births && births[j].root == births[k].root ==>
      sessions[j].revoked || sessions[k].revoked || j == k
  }

  ghost predicate Tied(births: map<string, Birth>, s: State, c: Config) {
    TiedSessions(births, s.sessions, c) && TiedTokens(births, s.issued, c) && Rooted(births) && OneLive(births, s.sessions)
  }

  lemma WeakerKeeps(births: map<string, Birth>, later: map<string, Session>, sessions: map<string, Session>, c: Config)
    requires Weaker(later, sessions) && TiedSessions(births, sessions, c) && OneLive(births, sessions)
    ensures TiedSessions(births, later, c) && OneLive(births, later)
  {
  }

  ghost predicate RootDead(births: map<string, Birth>, sessions: map<string, Session>, root: string) {
    forall j :: j in sessions && j in births && births[j].root == root ==> sessions[j].revoked
  }

  /** Adding one session whose chain has no unrevoked session. */
  lemma BirthKeepsOneLive(births: map<string, Birth>, sessions: map<string, Session>, j: string, b: Birth, row: Session)
    requires OneLive(births, sessions) && j !in births && RootDead(births, sessions, b.root)
    ensures OneLive(births[j := b], sessions[j := row])
  {
  }

  lemma BirthKeepsRooted(births: map<string, Birth>, j: string, b: Birth)
    requires Rooted(births) && j !in births
    requires GoodRoot(births, j, b)
    ensures Rooted(births[j := b])
  {
  }

  lemma BirthKeepsTokens(births: map<string, Birth>, issued: set<Token>, j: string, b: Birth, c: Config)
    requires TiedTokens(births, issued, c) && j !in births
    ensures TiedTokens(births[j := b], issued + Tokens(b.owner, j, b.at, c), c)
  {
  }

  lemma BirthKeepsSessions(births: map<string, Birth>, sessions: map<string, Session>, j: string, b: Birth, c: Config)
    requires TiedSessions(births, sessions, c) && j !in births
    ensures TiedSessions(births[j := b], sessions[j := Session(b.owner, b.at + c.refreshTtl, false)], c)
  {
  }

  /** The chain a new session joins is free: a login starts one, a refresh has just revoked its only live link. */
  lemma ChainFree(births: map<string, Birth>, s: State, e: Event, c: Config)
    requires Tied(births, s, c) && Issues(s, e, c) && e.jti !in births
    ensures RootDead(births, Kept(s, e), BirthOf(births, e).root)
    ensures BirthOf(births, e).owner == Bearer(e)
  {
    IssueStep(s, e, c);
    if e.LoginE? {
      assert forall j :: j in births ==> births[j].root in births;
    } else {
      var t := e.token;
      assert t.jti in births;
      forall j | j in Kept(s, e) && j in births && births[j].root == births[t.jti].root ensures Kept(s, e)[j].revoked {
        assert j == t.jti || s.sessions[j].revoked;
      }
    }
  }

  /** The root a new session gets: its own id at login, the old session's root at refresh. */
  ghost predicate GoodRoot(births: map<string, Birth>, j: string, b: Birth) {
    b.root == j || (b.root in births && births[b.root].owner == b.owner && births[b.root].root == b.root)
  }

  lemma BirthRootGood(births: map<string, Birth>, s: State, e: Event, c: Config)
    requires Tied(births, s, c) && Issues(s, e, c)
    ensures GoodRoot(births, e.jti, BirthOf(births, e))
  {
    IssueStep(s, e, c);
  }

  lemma BirthKeeps(births: map<string, Birth>, sessions: map<string, Session>, issued: set<Token>,
                   j: string, b: Birth, c: Config)
    requires TiedSessions(births, sessions, c) && TiedTokens(births, issued, c) && Rooted(births) && OneLive(births, sessions)
    requires j !in births && RootDead(births, sessions, b.root) && GoodRoot(births, j, b)
    ensures var births', sessions' := births[j := b], sessions[j := Session(b.owner, b.at + c.refreshTtl, false)];
            && TiedSessions(births', sessions', c) && OneLive(births', sessions') && Rooted(births')
            && TiedTokens(births', issued + Tokens(b.owner, j, b.at, c), c)
  {
    BirthKeepsSessions(births, sessions, j, b, c);
    BirthKeepsOneLive(births, sessions, j, b, Session(b.owner, b.at + c.refreshTtl, false));
    BirthKeepsRooted(births, j, b);
    BirthKeepsTokens(births, issued, j, b, c);
  }

  /** The step of an issuing event, read off the new session's birth. */
  ghost predicate Installs(s: State, s': State, e: Event, b: Birth, c: Config) {
    && (e.LoginE? || e.RefreshE?)
    && s'.sessions == Kept(s, e)[e.jti := Session(b.owner, b.at + c.refreshTtl, false)]
    && s'.issued == s.issued + Tokens(b.owner, e.jti, b.at, c)
  }

  lemma IssueInstalls(births: map<string, Birth>, s: State, e: Event, c: Config)
    requires Tied(births, s, c) && Issues(s, e, c) && e.jti !in births
    ensures Installs(s, Step(s, e, c), e, BirthOf(births, e), c)
    ensures RootDead(births, Kept(s, e), BirthOf(births, e).root) && GoodRoot(births, e.jti, BirthOf(births, e))
    ensures Weaker(Kept(s, e), s.sessions)
  {
    IssueStep(s, e, c);
    ChainFree(births, s, e, c);
    BirthRootGood(births, s, e, c);
  }

  lemma InstallKeepsTied(births: map<string, Birth>, s: State, s': State, e: Event, b: Birth, c: Config)
    requires Tied(births, s, c) && Installs(s, s', e, b, c) && e.jti !in births
    requires RootDead(births, Kept(s, e), b.root) && GoodRoot(births, e.jti, b) && Weaker(Kept(s, e), s.sessions)
    ensures Tied(births[e.jti := b], s', c)
  {
    WeakerKeeps(births, Kept(s, e), s.sessions, c);
    BirthKeeps(births, Kept(s, e), s.issued, e.jti, b, c);
  }

  /** In every run with fresh ids each chain has at most one unrevoked session, and tokens belong to their sessions. */
  lemma {:induction false} Lineages(run: Trace<Event>, c: Config)
    requires Fresh(run, c)
    ensures Tied(Births(run, c), After(run, c), c)
  {
    match run
    case Start =>
    case Then(before, e) =>
      Lineages(before, c);
      var s := After(before, c);
      if Issues(s, e, c) {
        var b := BirthOf(Births(before, c), e);
        IssueInstalls(Births(before, c), s, e, c);
        InstallKeepsTied(Births(before, c), s, Step(s, e, c), e, b, c);
      } else {
        QuietStep(s, e, c);
        WeakerKeeps(Births(before, c), Step(s, e, c).sessions, s.sessions, c);
      }
  }

  // ---- Cut chains stay cut -------------------------------------------------------------------------------

  /** No session of the chain that starts at `root` is unrevoked. */
  ghost predicate Ended(births: map<string, Birth>, s: State, root: string) {
    forall j :: j in births && births[j].root == root ==> !Live(s, j)
  }

  lemma StepKeepsEnded(births: map<string, Birth>, s: State, e: Event, root: string, c: Config)
    requires Tied(births, s, c) && root in births && Ended(births, s, root)
    requires Issues(s, e, c) ==> e.jti !in births
    ensures Ended(if Issues(s, e, c) then births[e.jti := BirthOf(births, e)] else births, Step(s, e, c), root)
  {
    if Issues(s, e, c) {
      IssueStep(s, e, c);
      assert e.RefreshE? ==> e.token.jti in births;
      assert BirthOf(births, e).root != root;
    } else {
      QuietStep(s, e, c);
    }
  }

  /** Once a chain has no unrevoked session it never has one again, whatever follows. */
  lemma {:induction false} EndedForever(run: Trace<Event>, later: Trace<Event>, root: string, c: Config)
    requires Follows(later, run) && Fresh(later, c)
    requires root in Births(run, c) && Ended(Births(run, c), After(run, c), root)
    ensures root in Births(later, c) && Ended(Births(later, c), After(later, c), root)
  {
    if later != run {
      EndedForever(run, later.before, root, c);
      Lineages(later.before, c);
      StepKeepsEnded(Births(later.before, c), After(later.before, c), later.event, root, c);
    }
  }

  /** The actions that throw a user out: suspension, a password reset by an administrator, deletion. */
  predicate Expels(e: Event, uid: string) {
    (e.SuspendE? || e.ResetPasswordE? || e.DeleteE?) && e.uid == uid
  }

  lemma ExpelEnds(births: map<string, Birth>, s: State, e: Event, root: string, c: Config)
    requires Tied(births, s, c) && root in births
    requires Expels(e, births[root].owner) && Take(s, e, c).reply == Granted
    ensures Ended(births, Step(s, e, c), root)
  {
    forall j | j in births && births[j].root == root ensures !Live(Step(s, e, c), j) {
      assert births[j].owner == births[root].owner;
      assert j in s.sessions ==> s.sessions[j].userId == e.uid;
    }
  }

  /** A token that gets its bearer in, or a new session. */
  predicate Opens(s: State, t: Token, now: real) {
    SessionCheck(s, t, now) == Granted || RefreshReply(s, t, now) == Granted
  }

  /**
   After a suspension, password reset or deletion, a token that works for that user, at any later time and whatever
   happened in between, reinstatement included, descends from a login made after it.
   */
  lemma ExpelledStayOut(before: Trace<Event>, e: Event, later: Trace<Event>, t: Token, now: real, c: Config)
    requires Follows(later, Then(before, e)) && Fresh(later, c)
    requires Expels(e, t.sub) && Take(After(before, c), e, c).reply == Granted
    requires Opens(After(later, c), t, now)
    ensures t.jti in Births(later, c) && Births(later, c)[t.jti].root !in Births(before, c)
  {
    FreshPrefix(later, Then(before, e), c);
    Lineages(later, c);
    assert t.jti in Births(later, c) && Live(After(later, c), t.jti);
    var root := Births(later, c)[t.jti].root;
    if root in Births(before, c) {
      BirthsGrow(later, Then(before, e), c);
      Lineages(before, c);
      assert Births(Then(before, e), c) == Births(before, c);
      assert Births(before, c)[root].owner == t.sub;
      ExpelEnds(Births(before, c), After(before, c), e, root, c);
      EndedForever(Then(before, e), later, root, c);
    }
  }

  lemma {:induction false} FreshPrefix(later: Trace<Event>, run: Trace<Event>, c: Config)
    requires Follows(later, run) && Fresh(later, c)
    ensures Fresh(run, c)
  {
    if later != run {
      FreshPrefix(later.before, run, c);
    }
  }

  lemma {:induction false} BirthsGrow(later: Trace<Event>, run: Trace<Event>, c: Config)
    requires Follows(later, run) && Fresh(later, c)
    ensures forall j :: j in Births(run, c) ==> j in Births(later, c) && Births(later, c)[j] == Births(run, c)[j]
  {
    if later != run {
      BirthsGrow(later.before, run, c);
    }
  }

  /**
   Every chain starts at a login of the owner of all its sessions which deserved one when it was made: the account was
   there, approved and not locked, the password was right, and so was the code if the second factor was on.
   */
  lemma {:induction false} RootIsLogin(run: Trace<Event>, j: string, c: Config) returns (login: Trace<Event>)
    requires Fresh(run, c) && j in Births(run, c)
    ensures Follows(run, login) && login.Then? && login.event.LoginE? && Deserves(After(login.before, c).users, login.event)
    ensures login.event.jti == Births(run, c)[j].root && login.event.uid == Births(run, c)[j].owner
  {
    var before, e := run.before, run.event;
    if Issues(After(before, c), e, c) && e.jti == j {
      if e.LoginE? {
        LoginAnsweredExactly(After(before, c), e, c);
        login := run;
      } else {
        Lineages(before, c);
        login := RootIsLogin(before, e.token.jti, c);
      }
    } else {
      login := RootIsLogin(before, j, c);
    }
  }

  /** A successful password change leaves only the session that made it: every other chain of the user is cut. */
  lemma PasswordChangeEndsOthers(run: Trace<Event>, t: Token, now: real, root: string, c: Config)
    requires Fresh(run, c) && root in Births(run, c) && Births(run, c)[root].owner == t.sub
    requires Take(After(run, c), RequestE(t, ChangePassword(true), now), c).reply == Granted
    ensures t.jti in Births(run, c)
    ensures Live(Step(After(run, c), RequestE(t, ChangePassword(true), now), c), t.jti)
    ensures Births(run, c)[t.jti].root != root ==>
              Ended(Births(run, c), Step(After(run, c), RequestE(t, ChangePassword(true), now), c), root)
  {
    Lineages(run, c);
    var births, s := Births(run, c), After(run, c);
    var s' := Step(s, RequestE(t, ChangePassword(true), now), c);
    assert t in s.issued && t.jti in births;
    if births[t.jti].root != root {
      forall j | j in births && births[j].root == root ensures !Live(s', j) {
        assert births[j].owner == t.sub && j != t.jti;
        assert j in s.sessions ==> s.sessions[j].userId == t.sub;
      }
    }
  }

  // ---- Exactly what cuts a chain ---------------------------------------------------------------------------

  /** Whether event `e` ends the chain whose one live session is `j` of `owner`: each way by the guard of its branch. */
  predicate Cuts(s: State, e: Event, j: string, owner: string, c: Config)
    requires j in s.sessions
  {
    match e
    case RequestE(t, a, now) =>
      && CurrentReply(s, t, Exempt(a), now) == Granted
      && ((a == Logout && t.jti == j) || (a == ChangePassword(true) && t.sub == owner && t.jti != j))
    case SuspendE(admin, uid, _) => uid == owner && Guard(s.users, admin, uid, false) == Granted
    case ResetPasswordE(uid, _) => uid == owner && Guard(s.users, "", uid, true) == Granted
    case DeleteE(admin, uid, _) => uid == owner && Guard(s.users, admin, uid, false) == Granted
    case CleanupE(now) => s.sessions[j].expires < now - c.refreshTtl
    case _ => false
  }

  function BirthsAfter(births: map<string, Birth>, s: State, e: Event, c: Config): map<string, Birth> {
    if Issues(s, e, c) then births[e.jti := BirthOf(births, e)] else births
  }

  lemma OnlyLiveOne(births: map<string, Birth>, s: State, j: string, c: Config)
    requires Tied(births, s, c) && j in births && Live(s, j)
    ensures forall k :: k in births && births[k].root == births[j].root && Live(s, k) ==> k == j
  {
  }

  /** A step that issues no session ends the chain exactly when it takes the live session away. */
  lemma EndedMeansGone(births: map<string, Birth>, s: State, e: Event, j: string, c: Config)
    requires Tied(births, s, c) && j in births && Live(s, j) && !Issues(s, e, c)
    ensures Ended(births, Step(s, e, c), births[j].root) <==> !Live(Step(s, e, c), j)
  {
    OnlyLiveOne(births, s, j, c);
    QuietStep(s, e, c);
  }

  lemma RequestCuts(births: map<string, Birth>, s: State, t: Token, a: Action, now: real, j: string, c: Config)
    requires Tied(births, s, c) && j in births && Live(s, j)
    ensures Live(Request(s, t, a, now).state, j) <==> !Cuts(s, RequestE(t, a, now), j, births[j].owner, c)
  {
  }

  lemma GoneExactly(births: map<string, Birth>, s: State, e: Event, j: string, c: Config)
    requires Tied(births, s, c) && j in births && Live(s, j) && !Issues(s, e, c)
    ensures Live(Step(s, e, c), j) <==> !Cuts(s, e, j, births[j].owner, c)
  {
    assert s.sessions[j].userId == births[j].owner;
    if e.RequestE? {
      RequestCuts(births, s, e.token, e.action, e.now, j, c);
    }
  }

  /** An issued session never leaves its chain without a live one, nor any other chain. */
  lemma IssueCutsNothing(births: map<string, Birth>, s: State, e: Event, j: string, c: Config)
    requires Tied(births, s, c) && j in births && Live(s, j) && Issues(s, e, c) && e.jti !in births
    ensures !Ended(BirthsAfter(births, s, e, c), Step(s, e, c), births[j].root)
  {
    IssueStep(s, e, c);
    if e.RefreshE? && e.token.jti == j {
      assert Live(Step(s, e, c), e.jti);
    } else {
      assert Live(Step(s, e, c), j);
    }
  }

  /**
   What cuts a chain that still has a live session, over every reachable state and every event: a logout with that
   session, a password change with another one of the user's, a suspension, an administrator's password reset, a
   deletion, and the sweep once the session is a refresh lifetime past its end. Nothing else does.
   */
  lemma ChainCutExactly(run: Trace<Event>, e: Event, j: string, c: Config)
    requires Fresh(Then(run, e), c) && j in Births(run, c) && Live(After(run, c), j)
    ensures Ended(Births(Then(run, e), c), After(Then(run, e), c), Births(run, c)[j].root)
            <==> Cuts(After(run, c), e, j, Births(run, c)[j].owner, c)
  {
    var births, s := Births(run, c), After(run, c);
    Lineages(run, c);
    assert Births(Then(run, e), c) == BirthsAfter(births, s, e, c);
    if Issues(s, e, c) {
      IssueCutsNothing(births, s, e, j, c);
    } else {
      EndedMeansGone(births, s, e, j, c);
      GoneExactly(births, s, e, j, c);
    }
  }

  // ---- Rotation ----------------------------------------------------------------------------------------------

  /** How many sessions the refresh token of session `jti` has yielded. */
  function Successors(run: Trace<Event>, jti: string, c: Config): nat {
    match run
    case Start => 0
    case Then(before, e) =>
      Successors(before, jti, c) + if e.RefreshE? && e.token.jti == jti && Issues(After(before, c), e, c) then 1 else 0
  }

  lemma StaysDead(births: map<string, Birth>, s: State, e: Event, jti: string, c: Config)
    requires jti in births && !Live(s, jti) && (Issues(s, e, c) ==> e.jti !in births)
    ensures !Live(Step(s, e, c), jti)
  {
    if Issues(s, e, c) {
      IssueStep(s, e, c);
    } else {
      QuietStep(s, e, c);
    }
  }

  lemma RefreshKills(births: map<string, Birth>, s: State, e: Event, c: Config)
    requires Tied(births, s, c) && Issues(s, e, c) && e.RefreshE? && e.jti !in births
    ensures Live(s, e.token.jti) && e.token.jti in births && !Live(Step(s, e, c), e.token.jti)
  {
    IssueStep(s, e, c);
  }

  /** A refresh token yields at most one successor, and once it has, its session is gone for good. */
  lemma {:induction false} RotatedOnce(run: Trace<Event>, jti: string, c: Config)
    requires Fresh(run, c)
    ensures Successors(run, jti, c) <= 1
    ensures Successors(run, jti, c) == 1 ==> jti in Births(run, c) && !Live(After(run, c), jti)
  {
    match run
    case Start =>
    case Then(before, e) =>
      RotatedOnce(before, jti, c);
      Lineages(before, c);
      if e.RefreshE? && Issues(After(before, c), e, c) && e.token.jti == jti {
        RefreshKills(Births(before, c), After(before, c), e, c);
      } else if jti in Births(before, c) && !Live(After(before, c), jti) {
        StaysDead(Births(before, c), After(before, c), e, jti, c);
      }
  }

  /** Revocation is permanent: a session that is revoked or gone is never live again. */
  lemma {:induction false} RevokedForever(run: Trace<Event>, later: Trace<Event>, jti: string, c: Config)
    requires Follows(later, run) && Fresh(later, c) && jti in Births(run, c) && !Live(After(run, c), jti)
    ensures !Live(After(later, c), jti)
  {
    if later != run {
      RevokedForever(run, later.before, jti, c);
      BirthsGrow(later.before, run, c);
      StaysDead(Births(later.before, c), After(later.before, c), later.event, jti, c);
    }
  }

  // ---- How long a refresh token lasts -----------------------------------------------------------------------------

  /**
   Although a session is kept for the refresh lifetime, its refresh token carries the access lifetime: while the
   session is live and the account approved, it can be exchanged exactly until the access lifetime is over.
   */
  lemma RefreshWindowExactly(run: Trace<Event>, t: Token, now: real, c: Config)
    requires Fresh(run, c) && t in After(run, c).issued && t.kind == Refresh && Live(After(run, c), t.jti)
    requires t.sub in After(run, c).users && After(run, c).users[t.sub].status == Approved
    requires c.accessTtl <= c.refreshTtl
    ensures t.jti in Births(run, c)
    ensures RefreshReply(After(run, c), t, now) == Granted <==> now < TokenExpiry(Births(run, c)[t.jti].at, c)
    ensures TokenExpiry(Births(run, c)[t.jti].at, c) <= Births(run, c)[t.jti].at + c.accessTtl
  {
    Lineages(run, c);
  }
}
