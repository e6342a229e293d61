/**
 Accounts, sessions and single-use tokens as the gateway's tables hold them, and what each request does to
 them and answers: gateway/app/routers/auth.py, admin.py and internal.py, gateway/app/deps.py and
 gateway/app/maintenance.py. Passwords, one-time codes and JWT signatures are ideal: an event says whether a
 password or code is right, and a token verifies exactly when the gateway issued it.
 */
module Sessions {
  import opened Prelude

  datatype Status = Pending | Approved | Rejected | Suspended

  datatype Role = Member | Admin | Owner

  datatype User = User(username: string, status: Status, role: Role, expires: Option<real>, mustChange: bool,
                       totp: bool, failed: int, lockedUntil: Option<real>)

  datatype Session = Session(userId: string, expires: real, revoked: bool)

  datatype Sso = Sso(username: string, expires: real, used: bool)

  datatype Kind = Access | Refresh

  datatype Token = Token(kind: Kind, sub: string, jti: string, exp: real)

  /** The tables; `issued` stands for the signing key: the tokens that verify. Sessions are keyed by jti. */
  datatype State = State(users: map<string, User>, sessions: map<string, Session>, sso: map<string, Sso>, issued: set<Token>)

  datatype Config = Config(accessTtl: real, refreshTtl: real, ssoTtl: real)

  datatype Reason = InvalidCredentials | Locked | NotActive | OtpRequired | BadToken | WrongType | SessionRevoked
                  | SessionExpired | UnknownUser | AccountExpired | PasswordChangeRequired | BadSsoToken | WrongPassword
                  | WrongCode | NotFound | OwnerProtected | OwnAccount | BadInternalAuth

  datatype Reply = Granted | Refused(code: int, reason: Reason)

  datatype Outcome = Outcome(state: State, reply: Reply)

  const MAX_FAILED := 5
  const LOCK_SECONDS := 900.0

  // ---- Issuing -----------------------------------------------------------------------------------

  /** JWT expiry is a whole second, and refresh tokens get the access lifetime too. */
  function TokenExpiry(now: real, c: Config): real {
    (now + c.accessTtl).Floor as real
  }

  function Tokens(uid: string, jti: string, now: real, c: Config): set<Token> {
    {Token(Access, uid, jti, TokenExpiry(now, c)), Token(Refresh, uid, jti, TokenExpiry(now, c))}
  }

  /** `_issue_session` */
  function Issue(s: State, uid: string, jti: string, now: real, c: Config): State
    requires uid in s.users
  {
    State(s.users[uid := s.users[uid].(failed := 0)],
          s.sessions[jti := Session(uid, now + c.refreshTtl, false)],
          s.sso,
          s.issued + Tokens(uid, jti, now, c))
  }

  // ---- Login -----------------------------------------------------------------------------------------

  /** `_register_failure` */
  function Failed(u: User, now: real): User {
    if u.failed + 1 >= MAX_FAILED then u.(failed := 0, lockedUntil := Some(now + LOCK_SECONDS))
    else u.(failed := u.failed + 1)
  }

  predicate IsLocked(u: User, now: real) {
    u.lockedUntil.Some? && u.lockedUntil.value > now
  }

  datatype Otp = Missing | Wrong | Right

  /** Whether a login attempt reaches a password or one-time code and gets it wrong. */
  predicate ChecksAndFails(u: User, password: bool, otp: Otp, now: real) {
    !IsLocked(u, now) && (!password || (u.status == Approved && u.totp && otp == Wrong))
  }

  function LoginReply(u: User, password: bool, otp: Otp, now: real): Reply {
    if IsLocked(u, now) then Refused(423, Locked)
    else if !password then Refused(401, InvalidCredentials)
    else if u.status != Approved then Refused(403, NotActive)
    else if u.totp && otp == Missing then Refused(401, OtpRequired)
    else if u.totp && otp == Wrong then Refused(401, InvalidCredentials)
    else Granted
  }

  /** `login` */
  function Login(s: State, uid: string, password: bool, otp: Otp, jti: string, now: real, c: Config): Outcome {
    if uid !in s.users then Outcome(s, Refused(401, InvalidCredentials))
    else
      var u := s.users[uid];
      var reply := LoginReply(u, password, otp, now);
      if reply == Granted then Outcome(Issue(s, uid, jti, now, c), Granted)
      else if ChecksAndFails(u, password, otp, now) then Outcome(s.(users := s.users[uid := Failed(u, now)]), reply)
      else Outcome(s, reply)
  }

  /** `authenticate`: the Hub's own credential check. */
  function HubReply(users: map<string, User>, uid: string, password: bool): Reply {
    if uid !in users || !password then Refused(401, InvalidCredentials)
    else if users[uid].status != Approved then Refused(403, NotActive)
    else Granted
  }

  // ---- Tokens ------------------------------------------------------------------------------------------

  /** `decode_token` succeeds. */
  predicate Decodes(s: State, t: Token, now: real) {
    t in s.issued && now < t.exp
  }

  predicate Live(s: State, jti: string) {
    jti in s.sessions && !s.sessions[jti].revoked
  }

  function RefreshReply(s: State, t: Token, now: real): Reply {
    if !Decodes(s, t, now) then Refused(401, BadToken)
    else if t.kind != Refresh then Refused(401, WrongType)
    else if !Live(s, t.jti) || s.sessions[t.jti].expires < now then Refused(401, SessionExpired)
    else if t.sub !in s.users || s.users[t.sub].status != Approved then Refused(403, NotActive)
    else Granted
  }

  function RevokeOne(sessions: map<string, Session>, jti: string): map<string, Session> {
    if jti in sessions then sessions[jti := sessions[jti].(revoked := true)] else sessions
  }

  /** `refresh`: revoke the old session and mint a new one. */
  function RefreshWith(s: State, t: Token, jti: string, now: real, c: Config): Outcome {
    var reply := RefreshReply(s, t, now);
    if reply == Granted && t.sub in s.users
    then Outcome(Issue(s.(sessions := RevokeOne(s.sessions, t.jti)), t.sub, jti, now, c), reply)
    else Outcome(s, reply)
  }

  // ---- Requests that carry an access token ----------------------------------------------------------------

  /** The session half of `get_current_session`. */
  function SessionCheck(s: State, t: Token, now: real): Reply {
    if !Decodes(s, t, now) then Refused(401, BadToken)
    else if t.kind != Access then Refused(401, WrongType)
    else if !Live(s, t.jti) then Refused(401, SessionRevoked)
    else if s.sessions[t.jti].expires < now then Refused(401, SessionExpired)
    else Granted
  }

  /** Administrators and the owner never lapse. */
  predicate Lapsed(u: User, now: real) {
    u.expires.Some? && u.expires.value < now && u.role == Member
  }

  /** The account half; `exempt` paths stay reachable while a password change is due. */
  function AccountCheck(users: map<string, User>, uid: string, exempt: bool, now: real): Reply {
    if uid !in users then Refused(401, UnknownUser)
    else if users[uid].status != Approved then Refused(403, NotActive)
    else if Lapsed(users[uid], now) then Refused(403, AccountExpired)
    else if users[uid].mustChange && !exempt then Refused(403, PasswordChangeRequired)
    else Granted
  }

  function CurrentReply(s: State, t: Token, exempt: bool, now: real): Reply {
    if SessionCheck(s, t, now) != Granted then SessionCheck(s, t, now) else AccountCheck(s.users, t.sub, exempt, now)
  }

  /** A lapsed account is suspended by the first request that notices; its sessions are left alone. */
  function Lapse(s: State, t: Token, reply: Reply): State {
    if reply == Refused(403, AccountExpired) && t.sub in s.users
    then s.(users := s.users[t.sub := s.users[t.sub].(status := Suspended)])
    else s
  }

  /** `Totp` turns the second factor on or off, given the right code where one is asked for. */
  datatype Action = Use(exempt: bool) | Logout | ChangePassword(oldOk: bool) | Totp(on: bool, codeOk: bool)

  function RevokeOthers(sessions: map<string, Session>, uid: string, keep: string): map<string, Session> {
    map j | j in sessions :: if sessions[j].userId == uid && j != keep then sessions[j].(revoked := true) else sessions[j]
  }

  /** `logout`, `change_password`, the second-factor handlers, or any other authenticated request. */
  function Perform(s: State, t: Token, a: Action): Outcome {
    match a
    case Use(_) => Outcome(s, Granted)
    case Logout => Outcome(s.(sessions := RevokeOne(s.sessions, t.jti)), Granted)
    case ChangePassword(oldOk) =>
      if !oldOk || t.sub !in s.users then Outcome(s, Refused(400, WrongPassword))
      else Outcome(s.(users := s.users[t.sub := s.users[t.sub].(mustChange := false)],
                      sessions := RevokeOthers(s.sessions, t.sub, t.jti)), Granted)
    case Totp(on, codeOk) =>
      if !codeOk || t.sub !in s.users then Outcome(s, Refused(400, WrongCode))
      else Outcome(s.(users := s.users[t.sub := s.users[t.sub].(totp := on)]), Granted)
  }

  predicate Exempt(a: Action) {
    a != Use(false) && !a.Totp?
  }

  function Request(s: State, t: Token, a: Action, now: real): Outcome {
    var reply := CurrentReply(s, t, Exempt(a), now);
    if reply == Granted then Perform(s, t, a) else Outcome(Lapse(s, t, reply), reply)
  }

  // ---- Administration ----------------------------------------------------------------------------------------

  function RevokeAll(sessions: map<string, Session>, uid: string): map<string, Session> {
    map j | j in sessions :: if sessions[j].userId == uid then sessions[j].(revoked := true) else sessions[j]
  }

  /** What stands in the way of an administrator's action: no such account, the owner's, or one's own. */
  function Guard(users: map<string, User>, admin: string, uid: string, selfAllowed: bool): Reply {
    if uid !in users then Refused(404, NotFound)
    else if users[uid].role == Owner then Refused(403, OwnerProtected)
    else if !selfAllowed && uid == admin then Refused(400, OwnAccount)
    else Granted
  }

  /** `suspend` */
  function Suspend(s: State, admin: string, uid: string): Outcome {
    var reply := Guard(s.users, admin, uid, false);
    if reply == Granted && uid in s.users
    then Outcome(s.(users := s.users[uid := s.users[uid].(status := Suspended)], sessions := RevokeAll(s.sessions, uid)), reply)
    else Outcome(s, reply)
  }

  /** `reset_password` */
  function ResetPassword(s: State, uid: string): Outcome {
    var reply := Guard(s.users, "", uid, true);
    if reply == Granted && uid in s.users
    then Outcome(s.(users := s.users[uid := s.users[uid].(mustChange := true, failed := 0, lockedUntil := None)],
                    sessions := RevokeAll(s.sessions, uid)), reply)
    else Outcome(s, reply)
  }

  /** `delete_user`; the account's sessions go with it. */
  function Delete(s: State, admin: string, uid: string): Outcome {
    var reply := Guard(s.users, admin, uid, false);
    if reply == Granted
    then Outcome(s.(users := s.users - {uid},
                    sessions := map j | j in s.sessions && s.sessions[j].userId != uid :: s.sessions[j]), reply)
    else Outcome(s, reply)
  }

  /** Edits that touch only the account row: approve, reject or reinstate, role, expiry, second factor off. */
  datatype Edit = Approve(role: Role) | SetStatus(status: Status) | SetRole(role: Role) | SetExpiry(expires: Option<real>)
                | ClearTotp

  function Edited(u: User, d: Edit): User {
    match d
    case Approve(role) => u.(status := Approved, role := role)
    case SetStatus(status) => u.(status := status)
    case SetRole(role) => u.(role := role)
    case SetExpiry(expires) => u.(expires := expires)
    case ClearTotp => u.(totp := false)
  }

  /** The owner role is never granted, and nobody changes their own role. */
  function EditReply(users: map<string, User>, admin: string, uid: string, d: Edit): Reply {
    var reply := Guard(users, admin, uid, !d.SetRole?);
    if reply == Granted && (d.Approve? || d.SetRole?) && d.role == Owner then Refused(403, OwnerProtected) else reply
  }

  function EditUser(s: State, admin: string, uid: string, d: Edit): Outcome {
    var reply := EditReply(s.users, admin, uid, d);
    if reply == Granted && uid in s.users then Outcome(s.(users := s.users[uid := Edited(s.users[uid], d)]), reply)
    else Outcome(s, reply)
  }

  /** A new account: registered, created by an administrator, or seeded. */
  function AddUser(s: State, uid: string, username: string, status: Status, role: Role, mustChange: bool): State {
    if uid in s.users then s
    else s.(users := s.users[uid := User(username, status, role, None, mustChange, false, 0, None)])
  }

  // ---- Single-use tokens and the sweep -------------------------------------------------------------------------

  /** The token minted at the end of a launch. */
  function Mint(s: State, ott: string, username: string, now: real, c: Config): State {
    s.(sso := s.sso[ott := Sso(username, now + c.ssoTtl, false)])
  }

  predicate Redeemable(sso: map<string, Sso>, ott: string, now: real) {
    ott in sso && !sso[ott].used && !(sso[ott].expires < now)
  }

  predicate ApprovedNamed(users: map<string, User>, username: string) {
    exists u :: u in users && users[u].username == username && users[u].status == Approved
  }

  /** `redeem_ott`: the token is spent even when the account turns out not to be approved. */
  function Redeem(s: State, ott: string, now: real): Outcome {
    if !Redeemable(s.sso, ott, now) then Outcome(s, Refused(401, BadSsoToken))
    else Outcome(s.(sso := s.sso[ott := s.sso[ott].(used := true)]),
                 if ApprovedNamed(s.users, s.sso[ott].username) then Granted else Refused(403, NotActive))
  }

  /** `cleanup_once`, audit retention off. */
  function Cleanup(s: State, now: real, c: Config): State {
    s.(sso := map o | o in s.sso && !s.sso[o].used && !(s.sso[o].expires < now) :: s.sso[o],
       sessions := map j | j in s.sessions && !(s.sessions[j].expires < now - c.refreshTtl) :: s.sessions[j])
  }

  // ---- Runs --------------------------------------------------------------------------------------------------------

  datatype Event =
    | LoginE(uid: string, password: bool, otp: Otp, jti: string, now: real)
    | RefreshE(token: Token, jti: string, now: real)
    | RequestE(token: Token, action: Action, now: real)
    | SuspendE(admin: string, uid: string, now: real)
    | ResetPasswordE(uid: string, now: real)
    | DeleteE(admin: string, uid: string, now: real)
    | EditE(admin: string, uid: string, edit: Edit, now: real)
    | AddUserE(uid: string, username: string, status: Status, role: Role, mustChange: bool, now: real)
    | HubCheckE(uid: string, password: bool, now: real)
    | MintE(ott: string, username: string, now: real)
    | RedeemE(ott: string, now: real)
    | CleanupE(now: real)

  function Take(s: State, e: Event, c: Config): Outcome {
    match e
    case LoginE(uid, password, otp, jti, now) => Login(s, uid, password, otp, jti, now, c)
    case RefreshE(token, jti, now) => RefreshWith(s, token, jti, now, c)
    case RequestE(token, action, now) => Request(s, token, action, now)
    case SuspendE(admin, uid, _) => Suspend(s, admin, uid)
    case ResetPasswordE(uid, _) => ResetPassword(s, uid)
    case DeleteE(admin, uid, _) => Delete(s, admin, uid)
    case EditE(admin, uid, d, _) => EditUser(s, admin, uid, d)
    case AddUserE(uid, username, status, role, mustChange, _) =>
      Outcome(AddUser(s, uid, username, status, role, mustChange), Granted)
    case HubCheckE(uid, password, _) => Outcome(s, HubReply(s.users, uid, password))
    case MintE(ott, username, now) => Outcome(Mint(s, ott, username, now, c), Granted)
    case RedeemE(ott, now) => Redeem(s, ott, now)
    case CleanupE(now) => Outcome(Cleanup(s, now, c), Granted)
  }

  function Step(s: State, e: Event, c: Config): State {
    Take(s, e, c).state
  }

  const EMPTY: State := State(map[], map[], map[], {})

  function After(run: Trace<Event>, c: Config): State {
    match run
    case Start => EMPTY
    case Then(before, e) => Step(After(before, c), e, c)
  }

  function TimeOf(e: Event): real {
    e.now
  }
}
