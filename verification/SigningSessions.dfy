/**
 Signed requests against the session table: what the signature check of
 gateway/app/middleware/request_signing.py reads of the rows that logins, refreshes and logouts leave behind.
 */
module SigningSessions {
  import opened Prelude
  import Sessions
  import SessionLineage
  import Signing

  /** The row the check finds for `jti`; a session's signing key is drawn when it is issued and never changes. */
  function RowOf(tables: Sessions.State, jti: string, key: string -> string): Option<Signing.SessionRow> {
    if jti in tables.sessions then Some(Signing.SessionRow(tables.sessions[jti].revoked, key(jti))) else None
  }

  /** A request that claims `jti` and is checked against the tables as `later` has left them. */
  ghost predicate ServedAfter(e: Signing.Event, later: Trace<Sessions.Event>, jti: string, key: string -> string, sc: Sessions.Config) {
    && e.Serve? && e.request.credential == Signing.Claims(jti)
    && e.session == RowOf(Sessions.After(later, sc), jti, key)
  }

  /**
   A session that has been revoked, or is gone, gets no signed request in again, whatever logins, refreshes and
   requests follow, and whatever else the gateways have served.
   */
  lemma EndedSessionSignsNothing(run: Trace<Sessions.Event>, later: Trace<Sessions.Event>, jti: string, key: string -> string,
                                 sc: Sessions.Config, served: Trace<Signing.Event>, e: Signing.Event, c: Signing.Config)
    requires Follows(later, run) && SessionLineage.Fresh(later, sc)
    requires jti in SessionLineage.Births(run, sc) && !Sessions.Live(Sessions.After(run, sc), jti)
    requires Signing.Coherent(c) && ServedAfter(e, later, jti, key, sc)
    ensures !Signing.Accepts(served, e, c)
  {
    SessionLineage.RevokedForever(run, later, jti, sc);
    Signing.AcceptedExactly(served, e, c);
  }

  /** A granted logout with the session, or a granted refresh of it. */
  predicate GivenUp(s: Sessions.State, e: Sessions.Event, jti: string, sc: Sessions.Config) {
    && (e.RefreshE? || (e.RequestE? && e.action == Sessions.Logout)) && e.token.jti == jti
    && Sessions.Take(s, e, sc).reply == Sessions.Granted
  }

  /** After a logout, and after a refresh, the old session gets no signed request in. */
  lemma LogoutEndsSigning(before: Trace<Sessions.Event>, out: Sessions.Event, later: Trace<Sessions.Event>, jti: string,
                          key: string -> string, sc: Sessions.Config,
                          served: Trace<Signing.Event>, e: Signing.Event, c: Signing.Config)
    requires Follows(later, Then(before, out)) && SessionLineage.Fresh(later, sc)
    requires GivenUp(Sessions.After(before, sc), out, jti, sc)
    requires Signing.Coherent(c) && ServedAfter(e, later, jti, key, sc)
    ensures !Signing.Accepts(served, e, c)
  {
    var run := Then(before, out);
    SessionLineage.FreshPrefix(later, run, sc);
    SessionLineage.Lineages(before, sc);
    GivenUpEnds(before, out, jti, sc);
    EndedSessionSignsNothing(run, later, jti, key, sc, served, e, c);
  }

  lemma GivenUpEnds(before: Trace<Sessions.Event>, out: Sessions.Event, jti: string, sc: Sessions.Config)
    requires SessionLineage.Fresh(Then(before, out), sc) && GivenUp(Sessions.After(before, sc), out, jti, sc)
    requires SessionLineage.Tied(SessionLineage.Births(before, sc), Sessions.After(before, sc), sc)
    ensures jti in SessionLineage.Births(Then(before, out), sc) && !Sessions.Live(Sessions.After(Then(before, out), sc), jti)
  {
    var s := Sessions.After(before, sc);
    assert out.token in s.issued && jti in s.sessions && jti in SessionLineage.Births(before, sc);
  }
}
