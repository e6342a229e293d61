/**
 `RequestSigningMiddleware.__call__` of gateway/app/middleware/request_signing.py: drain the body, check,
 look the nonce up in the store, check again, and hand the same body on. One clock reading per request.
 */
module Middleware {
  import opened Prelude
  import opened SharedStore
  import opened RateStore
  import opened Signing
  import Fleet

  /** What the server's receive channel delivers. */
  datatype Delivery = BodyPart(body: Bytes, more: bool) | Disconnect | Other

  /** The request body: the parts up to the last one announced, or up to a disconnect. */
  function BodyOf(messages: seq<Delivery>): Bytes {
    if messages == [] then []
    else match messages[0]
         case BodyPart(body, more) => body + if more then BodyOf(messages[1..]) else []
         case Disconnect => []
         case Other => BodyOf(messages[1..])
  }

  method DrainBody(messages: seq<Delivery>) returns (body: Bytes)
    ensures body == BodyOf(messages)
  {
    body := [];
    var more := true;
    var i := 0;
    while more && i < |messages|
      invariant 0 <= i <= |messages|
      invariant BodyOf(messages) == body + if more then BodyOf(messages[i..]) else []
    {
      var msg := messages[i];
      assert messages[i..][1..] == messages[i + 1..];
      i := i + 1;
      match msg {
        case BodyPart(part, again) =>
          body := body + part;
          more := again;
        case Disconnect => more := false;
        case Other =>
      }
    }
  }

  /** The last part has come, or the client has gone. */
  predicate Ends(m: Delivery) {
    m == Disconnect || (m.BodyPart? && !m.more)
  }

  /** All the body bytes among the deliveries, in order. */
  function PartsOf(messages: seq<Delivery>): Bytes {
    if messages == [] then []
    else (if messages[0].BodyPart? then messages[0].body else []) + PartsOf(messages[1..])
  }

  /**
   The body is made of the parts up to and including the first delivery that ends it, or of all there are; deliveries
   of other kinds are passed over.
   */
  lemma {:induction false} BodyExactly(messages: seq<Delivery>, n: nat)
    requires n <= |messages| && forall i :: 0 <= i < n - 1 ==> !Ends(messages[i])
    requires if n == 0 then messages == [] else n == |messages| || Ends(messages[n - 1])
    ensures BodyOf(messages) == PartsOf(messages[..n])
  {
    if messages != [] {
      assert messages[..n][1..] == messages[1..][..n - 1];
      if Ends(messages[0]) {
        assert n == 1;
      } else if |messages| > 1 {
        BodyExactly(messages[1..], n - 1);
      }
    }
  }

  /** A body sent in parts is the concatenation of the parts; what follows the last part is not read. */
  lemma {:induction false} BodyIsConcatenation(parts: seq<Bytes>, last: Bytes, rest: seq<Delivery>)
    ensures BodyOf(seq(|parts|, i requires 0 <= i < |parts| => BodyPart(parts[i], true)) + [BodyPart(last, false)] + rest)
         == Flatten(parts) + last
  {
    var messages := seq(|parts|, i requires 0 <= i < |parts| => BodyPart(parts[i], true)) + [BodyPart(last, false)] + rest;
    if parts != [] {
      var tail := parts[1..];
      BodyIsConcatenation(tail, last, rest);
      assert messages[1..] == seq(|tail|, i requires 0 <= i < |tail| => BodyPart(tail[i], true)) + [BodyPart(last, false)] + rest;
    }
  }

  function Flatten(parts: seq<Bytes>): Bytes {
    if parts == [] then [] else parts[0] + Flatten(parts[1..])
  }

  /** The verdict of one request, and what becomes of the store. */
  function Judge(r: Replica, redis: Redis, w: Weather, q: Request, session: Option<SessionRow>, c: Config, now: real): (Verdict, Outcome) {
    var idle := Outcome(r, redis, false, FromMemory);
    if Exempt(q, c) then (Forwarded, idle)
    else if Screen(q, c, now).Some? then (Screen(q, c, now).value, idle)
    else
      var o := SharedStore.SeenNonce(r, redis, c.setup.configured, w, q.nonce, c.setup.ttl, now);
      (Authenticate(q, session, o.answer, c), o)
  }

  /** The event that serving these headers and this body is. */
  function Served(n: nat, w: Weather, envelope: Request, messages: seq<Delivery>, sessions: map<string, SessionRow>, now: real): Event {
    var session := if envelope.credential.Claims? && envelope.credential.jti in sessions
                   then Some(sessions[envelope.credential.jti]) else None;
    Event.Serve(n, w, envelope.(body := BodyOf(messages)), session, now)
  }

  /** Serving an event of a run is judging its request in the state the run has reached. */
  lemma ServingIsJudging(before: Trace<Event>, e: Event, c: Config)
    requires Coherent(c) && e.Serve?
    ensures var s := Fleet.After(Ops(before, c), c.setup);
            var (v, o) := Judge(Fleet.ReplicaOf(s, e.replica), s.redis, e.weather, e.request, e.session, c, e.at);
            && (Accepts(before, e, c) <==> !Exempt(e.request, c) && v == Forwarded)
            && Fleet.ReplicaOf(Fleet.After(Ops(Then(before, e), c), c.setup), e.replica) == o.replica
            && Fleet.After(Ops(Then(before, e), c), c.setup).redis == o.redis
  {
  }

  /** A request whose envelope its nonce holder has let in before is not accepted again. */
  lemma ReplayIsRefused(run: Trace<Event>, e: Event, v: Envelope, c: Config)
    requires Coherent(c) && e.Serve? && Carries(e, v, c) && OrdinaryTime(v, c)
    requires MonotoneUpTo(Then(run, e), Signing.TimeOf, e.at) && FromHttp(Then(run, e)) && Provisioned(Then(run, e), c)
    requires Acceptances(run, v, VouchedBy(run, e, c), c) > 0
    ensures !Accepts(run, e, c)
  {
    AcceptedAtMostOncePerHolder(Then(run, e), v, VouchedBy(run, e, c), c, e.at);
  }

  class SigningMiddleware {
    const store: Store

    constructor (store: Store)
      ensures this.store == store
    {
      this.store := store;
    }

    /**
     Serve one request whose headers are in `envelope` and whose body arrives in `messages`. The body handed
     on is the body that was verified; an exempt request is handed on undrained.
     */
    method Serve(server: RedisServer, w: Weather, envelope: Request, messages: seq<Delivery>,
                 sessions: map<string, SessionRow>, c: Config, now: real)
      returns (verdict: Verdict, handedOn: seq<Delivery>)
      requires c.setup.configured == store.configured
      modifies store, store.mem, server
      ensures var q := envelope.(body := BodyOf(messages));
              var session := if q.credential.Claims? && q.credential.jti in sessions then Some(sessions[q.credential.jti]) else None;
              var (v, o) := Judge(old(store.View()), old(server.View()), w, q, session, c, now);
              verdict == v && store.View() == o.replica && server.View() == o.redis
      ensures verdict == Forwarded && Covered(envelope, c) ==>
                && Complete(envelope) && InTime(c.parse(envelope.ts), now, c.skew)
                && envelope.credential.Claims? && envelope.credential.jti in sessions
                && SignedInSession(envelope.(body := BodyOf(messages)), Some(sessions[envelope.credential.jti]), c)
      ensures !Covered(envelope, c) ==> verdict == Forwarded && handedOn == messages
      ensures verdict == Forwarded && Covered(envelope, c) ==> handedOn == [BodyPart(BodyOf(messages), false)]
      ensures verdict == Forwarded ==> BodyOf(handedOn) == BodyOf(messages)
      ensures verdict != Forwarded ==> handedOn == []
    {
      handedOn := [];
      if Exempt(envelope, c) {
        return Forwarded, messages;
      }
      var body := DrainBody(messages);
      var q := envelope.(body := body);
      if q.ts == "" || q.nonce == "" || q.sig == "" {
        return Rejected(400, SignatureRequired), [];
      }
      var stamp := c.parse(q.ts);
      if stamp == Malformed {
        return Rejected(400, BadTimestamp), [];
      }
      if SkewExceeds(stamp, now, c.skew) {
        return Rejected(401, OutsideWindow), [];
      }
      var seen := store.SeenNonce(server, w, q.nonce, c.setup.ttl, now);
      if seen {
        return Rejected(401, ReplayDetected), [];
      }
      match q.credential {
        case NoBearer => return Rejected(401, MissingBearer), [];
        case BadToken => return Rejected(401, InvalidToken), [];
        case Claims(jti) =>
          if jti !in sessions || sessions[jti].revoked {
            return Rejected(401, SessionRevoked), [];
          }
          var expected := c.crypto.mac(sessions[jti].signingKey, Message(q, c));
          if expected != q.sig {
            return Rejected(401, BadSignature), [];
          }
          return Forwarded, [BodyPart(body, false)];
      }
    }

    /**
     Serving the next request of a run: `run` is what the fleet has done so far, and this gateway is its replica `n`.
     The request is forwarded as signed exactly when the run accepts it, and the store ends up where the run does.
     */
    method ServeNext(server: RedisServer, w: Weather, envelope: Request, messages: seq<Delivery>,
                     sessions: map<string, SessionRow>, c: Config, now: real, ghost run: Trace<Event>, ghost n: nat)
      returns (verdict: Verdict, handedOn: seq<Delivery>)
      requires Coherent(c) && c.setup.configured == store.configured
      requires store.View() == Fleet.ReplicaOf(Fleet.After(Ops(run, c), c.setup), n)
      requires server.View() == Fleet.After(Ops(run, c), c.setup).redis
      modifies store, store.mem, server
      ensures var e := Served(n, w, envelope, messages, sessions, now);
              && (verdict == Forwarded && !Exempt(envelope, c) <==> Accepts(run, e, c))
              && (verdict == Forwarded <==>
                    !Covered(envelope, c)
                    || (Complete(envelope) && InTime(c.parse(envelope.ts), now, c.skew)
                        && !NonceKnown(run, e, c) && SignedInSession(e.request, e.session, c)))
              && store.View() == Fleet.ReplicaOf(Fleet.After(Ops(Then(run, e), c), c.setup), n)
              && server.View() == Fleet.After(Ops(Then(run, e), c), c.setup).redis
      ensures verdict == Forwarded ==> BodyOf(handedOn) == BodyOf(messages)
      ensures verdict != Forwarded ==> handedOn == []
    {
      ServingIsJudging(run, Served(n, w, envelope, messages, sessions, now), c);
      AcceptedExactly(run, Served(n, w, envelope, messages, sessions, now), c);
      verdict, handedOn := Serve(server, w, envelope, messages, sessions, c, now);
    }
  }
}
