/**
 Signed requests: the canonical string of gateway/app/security.py, the checks of
 gateway/app/middleware/request_signing.py in their order, and what they add up to over whole runs of a
 fleet of gateway replicas.
 */
module Signing {
  import opened Prelude
  import opened SharedStore
  import opened Fleet
  import NonceCache

  type Bytes = seq<bv8>

  // ---- The canonical string ------------------------------------------------------------------

  /** The keyed MAC and the body digest, as hex text. Nothing is assumed of the MAC here. */
  datatype Crypto = Crypto(mac: (string, string) -> string, digest: Bytes -> string)

  function UpperChar(ch: char): char {
    if 'a' <= ch <= 'z' then ((ch as int) - 32) as char else ch
  }

  function Upper(s: string): string {
    seq(|s|, i requires 0 <= i < |s| => UpperChar(s[i]))
  }

  function Canonical(method_: string, path: string, ts: string, nonce: string, bodyHash: string): string {
    Upper(method_) + ("\n" + (path + ("\n" + (ts + ("\n" + (nonce + ("\n" + bodyHash)))))))
  }

  ghost predicate OneLine(s: string) {
    '\n' !in s
  }

  lemma UpperOneLine(s: string)
    requires OneLine(s)
    ensures OneLine(Upper(s))
  {
  }

  /** The first newline of a text is where its first line ends. */
  lemma SplitFirst(a: string, x: string, b: string, y: string)
    requires OneLine(a) && OneLine(b)
    requires a + ("\n" + x) == b + ("\n" + y)
    ensures a == b && x == y
  {
    var s, t := a + ("\n" + x), b + ("\n" + y);
    assert forall i :: 0 <= i < |a| ==> s[i] == a[i];
    assert forall i :: 0 <= i < |b| ==> t[i] == b[i];
    assert s[|a|] == '\n' && t[|b|] == '\n';
    assert |a| == |b|;
    assert a == s[..|a|] && b == t[..|b|];
    assert x == s[|a| + 1..] && y == t[|b| + 1..];
  }

  /** The last newline of a text is where its last line starts. */
  lemma SplitLast(x: string, a: string, y: string, b: string)
    requires OneLine(a) && OneLine(b)
    requires x + ("\n" + a) == y + ("\n" + b)
    ensures x == y && a == b
  {
    var s, t := x + ("\n" + a), y + ("\n" + b);
    assert |s| == |x| + 1 + |a| == |y| + 1 + |b|;
    assert forall i :: |x| < i < |s| ==> s[i] == a[i - |x| - 1];
    assert forall i :: |y| < i < |s| ==> t[i] == b[i - |y| - 1];
    assert s[|x|] == '\n' && t[|y|] == '\n';
    assert |x| == |y|;
    assert x == s[..|x|] && y == t[..|y|];
    assert a == s[|x| + 1..] && b == t[|y| + 1..];
  }

  lemma Regroup(path: string, ts: string, nonce: string, h: string)
    ensures path + ("\n" + (ts + ("\n" + (nonce + ("\n" + h)))))
         == (((path + ("\n" + ts)) + ("\n" + nonce)) + ("\n" + h))
  {
  }

  /**
   The canonical string determines all its fields, even when the (percent-decoded) path contains
   newlines: the method is the first line and timestamp, nonce and digest are the last three.
   */
  lemma CanonicalDetermines(m: string, p: string, ts: string, n: string, h: string,
                            m': string, p': string, ts': string, n': string, h': string)
    requires OneLine(m) && OneLine(ts) && OneLine(n) && OneLine(h)
    requires OneLine(m') && OneLine(ts') && OneLine(n') && OneLine(h')
    requires Canonical(m, p, ts, n, h) == Canonical(m', p', ts', n', h')
    ensures Upper(m) == Upper(m') && p == p' && ts == ts' && n == n' && h == h'
  {
    UpperOneLine(m);
    UpperOneLine(m');
    SplitFirst(Upper(m), p + ("\n" + (ts + ("\n" + (n + ("\n" + h))))),
               Upper(m'), p' + ("\n" + (ts' + ("\n" + (n' + ("\n" + h'))))));
    Regroup(p, ts, n, h);
    Regroup(p', ts', n', h');
    SplitLast((p + ("\n" + ts)) + ("\n" + n), h, (p' + ("\n" + ts')) + ("\n" + n'), h');
    SplitLast(p + ("\n" + ts), n, p' + ("\n" + ts'), n');
    SplitLast(p, ts, p', ts');
  }

  const LOWER: string := "abcdefghijklmnopqrstuvwxyz"
  const UPPER: string := "ABCDEFGHIJKLMNOPQRSTUVWXYZ"

  /** Every lower-case letter becomes its capital, and every other character stays. */
  lemma UpperExactly(s: string, i: nat)
    requires i < |s|
    ensures |Upper(s)| == |s|
    ensures if 'a' <= s[i] <= 'z' then exists k :: 0 <= k < 26 && s[i] == LOWER[k] && Upper(s)[i] == UPPER[k] else Upper(s)[i] == s[i]
  {
    if 'a' <= s[i] <= 'z' {
      var k := s[i] as int - 'a' as int;
      assert s[i] == LOWER[k] && UpperChar(s[i]) == UPPER[k];
    }
  }

  /** The lines of a text. */
  function Lines(s: string): seq<string> {
    if s == "" then [""]
    else if s[0] == '\n' then [""] + Lines(s[1..])
    else var rest := Lines(s[1..]); if rest == [] then [[s[0]]] else [[s[0]] + rest[0]] + rest[1..]
  }

  lemma {:induction false} FirstLine(a: string, x: string)
    requires OneLine(a)
    ensures Lines(a) == [a] && Lines(a + ("\n" + x)) == [a] + Lines(x)
  {
    var s := a + ("\n" + x);
    if a == "" {
      assert s[1..] == x;
    } else {
      FirstLine(a[1..], x);
      assert s[1..] == a[1..] + ("\n" + x);
      assert a == [a[0]] + a[1..];
    }
  }

  /** What is signed, line by line: method, path, timestamp, nonce, digest. */
  lemma CanonicalLines(method_: string, path: string, ts: string, nonce: string, bodyHash: string)
    requires OneLine(method_) && OneLine(path) && OneLine(ts) && OneLine(nonce) && OneLine(bodyHash)
    ensures Lines(Canonical(method_, path, ts, nonce, bodyHash)) == [Upper(method_), path, ts, nonce, bodyHash]
  {
    UpperOneLine(method_);
    FirstLine(nonce, bodyHash);
    FirstLine(bodyHash, "");
    FirstLine(ts, nonce + ("\n" + bodyHash));
    FirstLine(path, ts + ("\n" + (nonce + ("\n" + bodyHash))));
    FirstLine(Upper(method_), path + ("\n" + (ts + ("\n" + (nonce + ("\n" + bodyHash))))));
  }

  // ---- One request ---------------------------------------------------------------------------

  /** What `float(text)` makes of a timestamp header. */
  datatype Stamp = Malformed | NotANumber | Infinite | At(t: real)

  /** What the Authorization header amounts to. */
  datatype Credential = NoBearer | BadToken | Claims(jti: string)

  datatype SessionRow = SessionRow(revoked: bool, signingKey: string)

  datatype Request = Request(method_: string, path: string, ts: string, nonce: string, sig: string,
                             body: Bytes, credential: Credential)

  datatype Config = Config(setup: Setup, skew: real, parse: string -> Stamp, crypto: Crypto,
                           enabled: bool, protectedMethods: set<string>)

  datatype Reason = SignatureRequired | BadTimestamp | OutsideWindow | ReplayDetected
                  | MissingBearer | InvalidToken | SessionRevoked | BadSignature

  datatype Verdict = Forwarded | Rejected(status: int, reason: Reason)

  const EXEMPT_PREFIXES: seq<string> := [
    "/api/auth/register", "/api/auth/login", "/api/auth/refresh", "/api/internal",
    "/api/nodes/register", "/api/nodes/heartbeat", "/healthz", "/metrics", "/docs", "/openapi.json"
  ]

  predicate Exempt(q: Request, c: Config) {
    !c.enabled || Upper(q.method_) !in c.protectedMethods
    || exists i :: 0 <= i < |EXEMPT_PREFIXES| && EXEMPT_PREFIXES[i] <= q.path
  }

  function Abs(x: real): real {
    if x < 0.0 then -x else x
  }

  /** A not-a-number skew compares false with everything, so it is never "greater than" the allowance. */
  predicate SkewExceeds(s: Stamp, now: real, allowance: real)
    requires s != Malformed
  {
    s.Infinite? || (s.At? && Abs(now - s.t) > allowance)
  }

  /** The checks made before the nonce is looked up. */
  function Screen(q: Request, c: Config, now: real): Option<Verdict> {
    if q.ts == "" || q.nonce == "" || q.sig == "" then Some(Rejected(400, SignatureRequired))
    else if c.parse(q.ts) == Malformed then Some(Rejected(400, BadTimestamp))
    else if SkewExceeds(c.parse(q.ts), now, c.skew) then Some(Rejected(401, OutsideWindow))
    else None
  }

  function Message(q: Request, c: Config): string {
    Canonical(q.method_, q.path, q.ts, q.nonce, c.crypto.digest(q.body))
  }

  /** The checks made after the nonce lookup has answered `seen`. */
  function Authenticate(q: Request, session: Option<SessionRow>, seen: bool, c: Config): Verdict {
    if seen then Rejected(401, ReplayDetected)
    else if q.credential == NoBearer then Rejected(401, MissingBearer)
    else if q.credential == BadToken then Rejected(401, InvalidToken)
    else if session == None || session.value.revoked then Rejected(401, SessionRevoked)
    else if c.crypto.mac(session.value.signingKey, Message(q, c)) != q.sig then Rejected(401, BadSignature)
    else Forwarded
  }

  /** A request that the signature check covers and that has survived the checks before the nonce. */
  predicate ReachesNonce(q: Request, c: Config, now: real) {
    !Exempt(q, c) && Screen(q, c, now) == None
  }

  // ---- Runs ----------------------------------------------------------------------------------

  /** What one replica does: serve a request (seeing `session` in the database), or run a rate check. */
  datatype Event =
    | Serve(replica: nat, weather: Weather, request: Request, session: Option<SessionRow>, at: real)
    | Limit(replica: nat, weather: Weather, key: string, at: real)

  ghost predicate Coherent(c: Config) {
    c.setup.window > 0.0 && c.skew >= 0.0 && c.setup.ttl == 2.0 * c.skew
    && forall b: Bytes :: OneLine(c.crypto.digest(b))
  }

  function TimeOf(e: Event): real {
    e.at
  }

  function NonceOp(e: Event): Op
    requires e.Serve?
  {
    NonceCheck(e.replica, e.weather, e.request.nonce, e.at)
  }

  /** The store calls a run makes. */
  function Ops(run: Trace<Event>, c: Config): Trace<Op> {
    match run
    case Start => Start
    case Then(before, e) =>
      if e.Limit? then Then(Ops(before, c), RateCheck(e.replica, e.weather, e.key, e.at))
      else if ReachesNonce(e.request, c, e.at) then Then(Ops(before, c), NonceOp(e))
      else Ops(before, c)
  }

  /** Whether serving `e` after `before` forwards a signed request, and which holder vouched for its nonce. */
  ghost predicate Accepts(before: Trace<Event>, e: Event, c: Config)
    requires Coherent(c)
  {
    && e.Serve?
    && ReachesNonce(e.request, c, e.at)
    && Authenticate(e.request, e.session, Result(Ops(before, c), NonceOp(e), c.setup).answer, c) == Forwarded
  }

  ghost function VouchedBy(before: Trace<Event>, e: Event, c: Config): Holder
    requires Coherent(c) && e.Serve?
  {
    HolderOf(NonceOp(e), Result(Ops(before, c), NonceOp(e), c.setup))
  }

  /** What a signature is a signature of: a session key and a canonical message. */
  datatype Envelope = Envelope(key: string, message: string)

  ghost predicate Carries(e: Event, v: Envelope, c: Config) {
    e.Serve? && e.session.Some? && e.session.value.signingKey == v.key && Message(e.request, c) == v.message
  }

  // ---- What acceptance takes --------------------------------------------------------------------

  /** The signature check is on, the method is one it protects, and no exempt prefix starts the path. */
  ghost predicate Covered(q: Request, c: Config) {
    && c.enabled
    && Upper(q.method_) in c.protectedMethods
    && forall i :: 0 <= i < |EXEMPT_PREFIXES| ==> !(EXEMPT_PREFIXES[i] <= q.path)
  }

  ghost predicate Complete(q: Request) {
    q.ts != "" && q.nonce != "" && q.sig != ""
  }

  /** The timestamp is a time within the allowance on either side of `at`, or reads as not-a-number. */
  ghost predicate InTime(stamp: Stamp, at: real, skew: real) {
    stamp == NotANumber || (stamp.At? && at - skew <= stamp.t <= at + skew)
  }

  /** The bearer's session has a row, the row is not revoked, and its key signs the request as the header says. */
  ghost predicate SignedInSession(q: Request, session: Option<SessionRow>, c: Config) {
    && q.credential.Claims? && session.Some? && !session.value.revoked
    && c.crypto.mac(session.value.signingKey, Canonical(q.method_, q.path, q.ts, q.nonce, c.crypto.digest(q.body))) == q.sig
  }

  /** Whether the holder that answers after `before` has the nonce on record. */
  ghost predicate NonceKnown(before: Trace<Event>, e: Event, c: Config)
    requires Coherent(c) && e.Serve?
  {
    Result(Ops(before, c), NonceCheck(e.replica, e.weather, e.request.nonce, e.at), c.setup).answer
  }

  /**
   A signed request is let in exactly when it is covered and complete, its timestamp is in time, its nonce is new to
   the holder that answers, and it is signed with the key of a session that has a row and is not revoked.
   */
  lemma AcceptedExactly(before: Trace<Event>, e: Event, c: Config)
    requires Coherent(c) && e.Serve?
    ensures Accepts(before, e, c) <==>
              && Covered(e.request, c) && Complete(e.request) && InTime(c.parse(e.request.ts), e.at, c.skew)
              && !NonceKnown(before, e, c) && SignedInSession(e.request, e.session, c)
  {
  }

  /** The store is asked about a nonce exactly for a covered and complete request whose timestamp is in time. */
  lemma NonceLookedUpExactly(before: Trace<Event>, e: Event, c: Config)
    requires e.Serve?
    ensures Ops(Then(before, e), c) ==
              if Covered(e.request, c) && Complete(e.request) && InTime(c.parse(e.request.ts), e.at, c.skew)
              then Then(Ops(before, c), NonceCheck(e.replica, e.weather, e.request.nonce, e.at)) else Ops(before, c)
  {
  }

  /** Each refusal before the nonce look-up, and when it is given. */
  lemma ScreenedExactly(q: Request, c: Config, now: real)
    ensures Screen(q, c, now) == Some(Rejected(400, SignatureRequired)) <==> !Complete(q)
    ensures Screen(q, c, now) == Some(Rejected(400, BadTimestamp)) <==> Complete(q) && c.parse(q.ts) == Malformed
    ensures Screen(q, c, now) == Some(Rejected(401, OutsideWindow))
            <==> Complete(q) && c.parse(q.ts) != Malformed && !InTime(c.parse(q.ts), now, c.skew)
    ensures Screen(q, c, now) == None <==> Complete(q) && InTime(c.parse(q.ts), now, c.skew)
  {
  }

  /** Every refusal after the nonce look-up gives a true reason, and only the two malformed requests are answered 400. */
  lemma RefusalsAreTrue(q: Request, session: Option<SessionRow>, seen: bool, c: Config, now: real)
    requires Screen(q, c, now) == None
    ensures match Authenticate(q, session, seen, c)
            case Forwarded => !seen && SignedInSession(q, session, c)
            case Rejected(status, reason) =>
              && status == 401
              && (reason == ReplayDetected <==> seen)
              && (reason == MissingBearer <==> !seen && q.credential == NoBearer)
              && (reason == InvalidToken <==> !seen && q.credential == BadToken)
              && (reason == SessionRevoked <==>
                    !seen && q.credential.Claims? && (session == None || session.value.revoked))
  {
  }

  /** How many requests that claim session `jti` have been let in. */
  ghost function LetIn(run: Trace<Event>, jti: string, c: Config): nat
    requires Coherent(c)
  {
    match run
    case Start => 0
    case Then(before, e) =>
      LetIn(before, jti, c) + if Accepts(before, e, c) && e.request.credential == Claims(jti) then 1 else 0
  }

  /** Since `run`, no request that claims `jti` has found its row present and not revoked. */
  ghost predicate RowGoneSince(later: Trace<Event>, run: Trace<Event>, jti: string) {
    later == run
    || (later.Then? && RowGoneSince(later.before, run, jti)
        && (later.event.Serve? && later.event.request.credential == Claims(jti) ==>
              later.event.session == None || later.event.session.value.revoked))
  }

  /** Once the row of a session is revoked or gone, no signed request of that session is let in again. */
  lemma {:induction false} RevokedSessionIsOut(run: Trace<Event>, later: Trace<Event>, jti: string, c: Config)
    requires Coherent(c) && RowGoneSince(later, run, jti)
    ensures LetIn(later, jti, c) == LetIn(run, jti, c)
  {
    if later != run {
      RevokedSessionIsOut(run, later.before, jti, c);
      if later.event.Serve? {
        AcceptedExactly(later.before, later.event, c);
      }
    }
  }

  /** How often envelope `v` has been accepted on the word of `holder`. */
  ghost function Acceptances(run: Trace<Event>, v: Envelope, holder: Holder, c: Config): nat
    requires Coherent(c)
  {
    match run
    case Start => 0
    case Then(before, e) =>
      Acceptances(before, v, holder, c)
      + if Accepts(before, e, c) && Carries(e, v, c) && VouchedBy(before, e, c) == holder then 1 else 0
  }

  /** HTTP gives single-line methods and header values. */
  ghost predicate FromHttp(run: Trace<Event>) {
    run.Then? ==>
      && FromHttp(run.before)
      && (run.event.Serve? ==> FromHttpRequest(run.event.request))
  }

  ghost predicate FromHttpRequest(q: Request) {
    OneLine(q.method_) && OneLine(q.ts) && OneLine(q.nonce)
  }

  /** At every nonce lookup, the memory consulted has recorded at most 100,000 nonces within the time to live. */
  ghost predicate Provisioned(run: Trace<Event>, c: Config)
    requires Coherent(c)
  {
    run.Then? ==>
      && Provisioned(run.before, c)
      && (run.event.Serve? ==> WithinCapacity(Ops(run.before, c), VouchedBy(run.before, run.event, c), run.event.at, c.setup))
  }

  lemma OpsMonotone(run: Trace<Event>, c: Config, now: real)
    requires MonotoneUpTo(run, TimeOf, now)
    ensures MonotoneUpTo(Ops(run, c), Fleet.TimeOf, now)
  {
    match run
    case Start =>
    case Then(before, e) =>
      OpsMonotone(before, c, e.at);
      MonotoneLater(Ops(before, c), Fleet.TimeOf, e.at, now);
  }

  /** Every acceptance has left its nonce in the vouching holder's record, at a time close to the timestamp. */
  ghost predicate Recorded(recorded: seq<NonceCache.Entry>, nonce: string, t: real, skew: real) {
    exists e :: e in recorded && e.nonce == nonce && Abs(e.at - t) <= skew
  }

  lemma RecordedGrows(recorded: seq<NonceCache.Entry>, more: seq<NonceCache.Entry>, nonce: string, t: real, skew: real)
    requires Recorded(recorded, nonce, t, skew) && recorded <= more
    ensures Recorded(more, nonce, t, skew)
  {
    var e :| e in recorded && e.nonce == nonce && Abs(e.at - t) <= skew;
    assert e in more;
  }

  lemma RecordGrows(run: Trace<Op>, op: Op, holder: Holder, u: Setup)
    requires u.window > 0.0
    ensures RecordedBy(run, holder, u) <= RecordedBy(Then(run, op), holder, u)
  {
  }

  /** Accepting a request records its nonce with the holder that vouched for it. */
  lemma AcceptanceRecords(before: Trace<Event>, e: Event, c: Config)
    requires Coherent(c) && Accepts(before, e, c)
    ensures var all := RecordedBy(Ops(Then(before, e), c), VouchedBy(before, e, c), c.setup);
            NonceCache.Entry(e.request.nonce, e.at) in all
  {
  }

  lemma {:induction false} AcceptedMeansRecorded(run: Trace<Event>, q: Request, t: real, v: Envelope, holder: Holder, c: Config)
    requires Coherent(c) && FromHttp(run) && FromHttpRequest(q)
    requires v.message == Message(q, c) && c.parse(q.ts) == At(t)
    requires Acceptances(run, v, holder, c) > 0
    ensures Recorded(RecordedBy(Ops(run, c), holder, c.setup), q.nonce, t, c.skew)
  {
    var before, e := run.before, run.event;
    if Accepts(before, e, c) && Carries(e, v, c) && VouchedBy(before, e, c) == holder {
      SameFields(e.request, q, c);
      AcceptanceRecords(before, e, c);
      assert Abs(e.at - t) <= c.skew;
    } else {
      AcceptedMeansRecorded(before, q, t, v, holder, c);
      if Ops(run, c) != Ops(before, c) {
        RecordGrows(Ops(before, c), Ops(run, c).event, holder, c.setup);
        RecordedGrows(RecordedBy(Ops(before, c), holder, c.setup), RecordedBy(Ops(run, c), holder, c.setup),
                      q.nonce, t, c.skew);
      }
    }
  }

  lemma SameFields(q: Request, q': Request, c: Config)
    requires Coherent(c) && FromHttpRequest(q) && FromHttpRequest(q') && Message(q, c) == Message(q', c)
    ensures q.ts == q'.ts && q.nonce == q'.nonce
  {
    CanonicalDetermines(q.method_, q.path, q.ts, q.nonce, c.crypto.digest(q.body),
                        q'.method_, q'.path, q'.ts, q'.nonce, c.crypto.digest(q'.body));
  }

  /** Two arrivals inside the skew of one timestamp are at most one nonce lifetime apart. */
  lemma SkewsApart(t: real, early: real, late: real, skew: real)
    requires Abs(early - t) <= skew && Abs(late - t) <= skew
    ensures late - 2.0 * skew <= early
  {
  }

  lemma NonceStillHeld(before: Trace<Event>, e: Event, c: Config, t: real)
    requires Coherent(c) && MonotoneUpTo(before, TimeOf, e.at) && Accepts(before, e, c) && c.parse(e.request.ts) == At(t)
    requires WithinCapacity(Ops(before, c), VouchedBy(before, e, c), e.at, c.setup)
    ensures !Recorded(RecordedBy(Ops(before, c), VouchedBy(before, e, c), c.setup), e.request.nonce, t, c.skew)
  {
    var past := RecordedBy(Ops(before, c), VouchedBy(before, e, c), c.setup);
    OpsMonotone(before, c, e.at);
    forall r | r in past && r.nonce == e.request.nonce ensures Abs(r.at - t) > c.skew {
      NewOncePerHolder(Ops(before, c), NonceOp(e), c.setup, r);
      if Abs(r.at - t) <= c.skew {
        SkewsApart(t, r.at, e.at, c.skew);
      }
    }
  }

  /** An envelope already accepted on a holder's word is not accepted on that holder's word again. */
  lemma NotTwice(before: Trace<Event>, e: Event, v: Envelope, c: Config)
    requires Coherent(c) && MonotoneUpTo(before, TimeOf, e.at) && FromHttp(before)
    requires Accepts(before, e, c) && Carries(e, v, c)
    requires FromHttpRequest(e.request) && c.parse(e.request.ts) != NotANumber
    requires WithinCapacity(Ops(before, c), VouchedBy(before, e, c), e.at, c.setup)
    ensures Acceptances(before, v, VouchedBy(before, e, c), c) == 0
  {
    var t := c.parse(e.request.ts).t;
    NonceStillHeld(before, e, c, t);
    if Acceptances(before, v, VouchedBy(before, e, c), c) > 0 {
      AcceptedMeansRecorded(before, e.request, t, v, VouchedBy(before, e, c), c);
    }
  }

  /** Whether the envelope's timestamp is an ordinary time, for requests that can carry it. */
  ghost predicate OrdinaryTime(v: Envelope, c: Config) {
    forall q: Request :: FromHttpRequest(q) && Message(q, c) == v.message ==> c.parse(q.ts) != NotANumber
  }

  /**
   In every run of any number of replicas, with any pattern of Redis failures, each signed envelope is
   accepted at most once on the word of each holder of nonces.
   */
  lemma {:induction false} AcceptedAtMostOncePerHolder(run: Trace<Event>, v: Envelope, holder: Holder, c: Config, now: real)
    requires Coherent(c) && MonotoneUpTo(run, TimeOf, now) && FromHttp(run) && Provisioned(run, c) && OrdinaryTime(v, c)
    ensures Acceptances(run, v, holder, c) <= 1
  {
    match run
    case Start =>
    case Then(before, e) =>
      AcceptedAtMostOncePerHolder(before, v, holder, c, e.at);
      if Accepts(before, e, c) && Carries(e, v, c) && VouchedBy(before, e, c) == holder {
        NotTwice(before, e, v, c);
      }
  }

  // ---- Totals over the fleet -----------------------------------------------------------------

  /** How often envelope `v` has been accepted at all. */
  ghost function TotalAcceptances(run: Trace<Event>, v: Envelope, c: Config): nat
    requires Coherent(c)
  {
    match run
    case Start => 0
    case Then(before, e) => TotalAcceptances(before, v, c) + if Accepts(before, e, c) && Carries(e, v, c) then 1 else 0
  }

  ghost function MemoryAcceptances(run: Trace<Event>, v: Envelope, n: nat, c: Config): nat
    requires Coherent(c)
  {
    if n == 0 then 0 else MemoryAcceptances(run, v, n - 1, c) + Acceptances(run, v, MemoryOf(n - 1), c)
  }

  ghost predicate Below(run: Trace<Event>, replicas: nat) {
    run.Then? ==> run.event.replica < replicas && Below(run.before, replicas)
  }

  lemma {:induction false} MemoryAcceptancesStep(before: Trace<Event>, e: Event, v: Envelope, n: nat, c: Config)
    requires Coherent(c)
    ensures MemoryAcceptances(Then(before, e), v, n, c) == MemoryAcceptances(before, v, n, c)
            + if Accepts(before, e, c) && Carries(e, v, c) && VouchedBy(before, e, c).MemoryOf?
                 && VouchedBy(before, e, c).replica < n then 1 else 0
  {
    if n > 0 {
      MemoryAcceptancesStep(before, e, v, n - 1, c);
    }
  }

  lemma {:induction false} EveryAcceptanceHasAHolder(run: Trace<Event>, v: Envelope, replicas: nat, c: Config)
    requires Coherent(c) && Below(run, replicas)
    ensures TotalAcceptances(run, v, c)
         == Acceptances(run, v, SharedRedis, c) + MemoryAcceptances(run, v, replicas, c)
  {
    match run
    case Start =>
      NothingAccepted(v, replicas, c);
    case Then(before, e) =>
      EveryAcceptanceHasAHolder(before, v, replicas, c);
      MemoryAcceptancesStep(before, e, v, replicas, c);
  }

  lemma {:induction false} NothingAccepted(v: Envelope, n: nat, c: Config)
    requires Coherent(c)
    ensures MemoryAcceptances(Start, v, n, c) == 0
  {
    if n > 0 {
      NothingAccepted(v, n - 1, c);
    }
  }

  lemma {:induction false} MemoryAcceptancesBound(run: Trace<Event>, v: Envelope, n: nat, c: Config, now: real)
    requires Coherent(c) && MonotoneUpTo(run, TimeOf, now) && FromHttp(run) && Provisioned(run, c) && OrdinaryTime(v, c)
    ensures MemoryAcceptances(run, v, n, c) <= n
  {
    if n > 0 {
      MemoryAcceptancesBound(run, v, n - 1, c, now);
      AcceptedAtMostOncePerHolder(run, v, MemoryOf(n - 1), c, now);
    }
  }

  lemma {:induction false} WithoutRedis(run: Trace<Event>, v: Envelope, c: Config)
    requires Coherent(c) && !c.setup.configured
    ensures Acceptances(run, v, SharedRedis, c) == 0
  {
    match run
    case Start =>
    case Then(before, e) => WithoutRedis(before, v, c);
  }

  /** With `replicas` replicas behind one Redis, a signed envelope is accepted at most 1 + replicas times. */
  lemma ReplayBound(run: Trace<Event>, v: Envelope, replicas: nat, c: Config, now: real)
    requires Coherent(c) && MonotoneUpTo(run, TimeOf, now) && FromHttp(run) && Provisioned(run, c) && OrdinaryTime(v, c)
    requires Below(run, replicas)
    ensures TotalAcceptances(run, v, c) <= 1 + replicas
    ensures !c.setup.configured ==> TotalAcceptances(run, v, c) <= replicas
  {
    EveryAcceptanceHasAHolder(run, v, replicas, c);
    AcceptedAtMostOncePerHolder(run, v, SharedRedis, c, now);
    MemoryAcceptancesBound(run, v, replicas, c, now);
    if !c.setup.configured {
      WithoutRedis(run, v, c);
    }
  }

  /** A single gateway with the in-process store never accepts a signed envelope twice. */
  lemma AtMostOnce(run: Trace<Event>, v: Envelope, c: Config, now: real)
    requires Coherent(c) && MonotoneUpTo(run, TimeOf, now) && FromHttp(run) && Provisioned(run, c) && OrdinaryTime(v, c)
    requires Below(run, 1) && !c.setup.configured
    ensures TotalAcceptances(run, v, c) <= 1
  {
    ReplayBound(run, v, 1, c, now);
  }

  /**
   Where the MAC does not collide on the two messages, a repeated signature is a repeated envelope, so the
   bounds above hold per signature too.
   */
  lemma SameSignatureSameEnvelope(before: Trace<Event>, e: Event, before': Trace<Event>, e': Event, c: Config)
    requires Coherent(c) && Accepts(before, e, c) && Accepts(before', e', c)
    requires FromHttpRequest(e.request) && FromHttpRequest(e'.request)
    requires e.request.sig == e'.request.sig
    requires var k, k' := e.session.value.signingKey, e'.session.value.signingKey;
             var m, m' := Message(e.request, c), Message(e'.request, c);
             c.crypto.mac(k, m) == c.crypto.mac(k', m') ==> k == k' && m == m'
    ensures Carries(e', Envelope(e.session.value.signingKey, Message(e.request, c)), c)
    ensures Upper(e.request.method_) == Upper(e'.request.method_) && e.request.path == e'.request.path
            && e.request.ts == e'.request.ts && e.request.nonce == e'.request.nonce
            && c.crypto.digest(e.request.body) == c.crypto.digest(e'.request.body)
  {
    var q, q' := e.request, e'.request;
    CanonicalDetermines(q.method_, q.path, q.ts, q.nonce, c.crypto.digest(q.body),
                        q'.method_, q'.path, q'.ts, q'.nonce, c.crypto.digest(q'.body));
  }

  // ---- The one timestamp the skew check does not stop ------------------------------------------

  /** A run within every assumption above that accepts `v` twice on one holder's word. */
  ghost predicate Repeats(run: Trace<Event>, v: Envelope, holder: Holder, now: real, c: Config)
    requires Coherent(c)
  {
    && MonotoneUpTo(run, TimeOf, now) && FromHttp(run) && Provisioned(run, c)
    && Acceptances(run, v, holder, c) >= 2
  }

  /** A request that is complete, covered by the signature check and correctly signed with `key`. */
  ghost predicate ProperlySigned(q: Request, key: string, c: Config) {
    && FromHttpRequest(q) && !Exempt(q, c)
    && q.ts != "" && q.nonce != "" && q.sig != ""
    && q.credential.Claims?
    && c.crypto.mac(key, Message(q, c)) == q.sig
  }

  /**
   Exactly which properly signed requests can be accepted again: those whose timestamp header reads as
   not-a-number, because the skew comparison is then false at every time. For every other timestamp no
   run repeats an acceptance.
   */
  lemma RepeatableExactly(q: Request, key: string, c: Config)
    requires Coherent(c) && ProperlySigned(q, key, c)
    ensures (exists run, holder, now :: Repeats(run, Envelope(key, Message(q, c)), holder, now, c))
            <==> c.parse(q.ts) == NotANumber
  {
    var v := Envelope(key, Message(q, c));
    if c.parse(q.ts) == NotANumber {
      var run, now := RepeatNotANumber(q, key, c);
      assert Repeats(run, v, MemoryOf(0), now, c);
    } else {
      forall q': Request | FromHttpRequest(q') && Message(q', c) == v.message ensures c.parse(q'.ts) != NotANumber {
        SameFields(q, q', c);
      }
      forall run, holder, now ensures !Repeats(run, v, holder, now, c) {
        if Repeats(run, v, holder, now, c) {
          AcceptedAtMostOncePerHolder(run, v, holder, c, now);
        }
      }
    }
  }

  lemma FallbackAnswers(before: Trace<Op>, op: Op, u: Setup)
    requires u.window > 0.0 && op.NonceCheck? && !op.weather.ping && !ReplicaOf(After(before, u), op.replica).connected
    ensures var rep := ReplicaOf(After(before, u), op.replica);
            var o := Result(before, op, u);
            && o.source == FromMemory && !o.replica.connected
            && o.answer == NonceCache.Seen(rep.nonces, op.nonce, u.ttl, op.at)
            && o.replica.nonces == NonceCache.Remember(rep.nonces, op.nonce, u.ttl, op.at)
  {
  }

  lemma RepeatNotANumber(q: Request, key: string, c: Config) returns (run: Trace<Event>, now: real)
    requires Coherent(c) && ProperlySigned(q, key, c) && c.parse(q.ts) == NotANumber
    ensures Repeats(run, Envelope(key, Message(q, c)), MemoryOf(0), now, c) && Below(run, 1)
  {
    var u, v := c.setup, Envelope(key, Message(q, c));
    var offline := Weather(false, Works, Works);
    var row := Some(SessionRow(false, key));
    now := u.ttl + 1.0;
    var e1, e2 := Serve(0, offline, q, row, 0.0), Serve(0, offline, q, row, now);
    var one := Then(Start, e1);
    run := Then(one, e2);
    var entry := NonceCache.Entry(q.nonce, 0.0);
    FallbackAnswers(Start, NonceOp(e1), u);
    assert Accepts(Start, e1, c) && VouchedBy(Start, e1, c) == MemoryOf(0);
    assert ReplicaOf(After(Ops(one, c), u), 0).nonces == [entry];
    FallbackAnswers(Ops(one, c), NonceOp(e2), u);
    assert NonceCache.Purge([entry], now - u.ttl) == [];
    assert Accepts(one, e2, c) && VouchedBy(one, e2, c) == MemoryOf(0);
    assert RecordedBy(Ops(Start, c), MemoryOf(0), u) == [] && RecordedBy(Ops(one, c), MemoryOf(0), u) == [entry];
    assert NonceCache.CountSince([], 0.0 - u.ttl) == 0 && NonceCache.CountSince([entry], now - u.ttl) == 0;
    assert Provisioned(one, c) && Provisioned(run, c);
  }
}
