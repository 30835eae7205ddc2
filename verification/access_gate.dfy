/**
 * The access gate in front of the `/dashboard` route tree. It runs at two
 * layers that do not trust each other:
 *   - the edge check (`middleware` in admin/middleware.ts), run for every
 *     request before any page renders;
 *   - the server re-check (`requireAdmin` in admin/lib/auth.ts), run while a
 *     protected page renders.
 * Each is a pure decision from the requested path, the session the identity
 * provider reports and the reply of the `admins` lookup, to the provider calls
 * made (in order) and the final response.
 */
module AccessGate {
  import opened Base
  import opened Effects

  const ProtectedPrefix := "/dashboard"
  const LoginPath := "/login"
  const AccessDenied := "access_denied"

  datatype User = User(id: string)

  /** A session as the provider reports it; its user may be missing. */
  datatype Session = Session(user: Option<User>)

  /** The columns the edge check selects from `admins`. */
  datatype AdminId = AdminId(id: string)

  /** The columns the server re-check selects from `admins`. */
  datatype AdminProfile = AdminProfile(id: string, email: string)

  /** `s.startsWith(prefix)` */
  predicate StartsWith(s: string, prefix: string)
  {
    |prefix| <= |s| && s[..|prefix|] == prefix
  }

  /** `session?.user`: no user unless there is a session and it has one. */
  function SessionUser(session: Option<Session>): Option<User>
  {
    if session.Some? then session.value.user else None
  }

  /** The login page with `redirectedFrom` set to the requested path. */
  function LoginFrom(pathname: string): Url
  {
    Url(LoginPath, [("redirectedFrom", pathname)])
  }

  /** The login page with `error=access_denied`. */
  const DeniedUrl := Url(LoginPath, [("error", AccessDenied)])

  // ---- edge check --------------------------------------------------------

  datatype EdgeResponse = Continue | RedirectTo(url: Url)

  datatype EdgeResult = EdgeResult(effects: seq<Effect>, response: EdgeResponse)

  /** The edge check. Only the presence of the admin record is consulted;
      the lookup's error is never read. */
  function Middleware(pathname: string, session: Option<Session>, lookup: Reply<AdminId>): (r: EdgeResult)
    // outside the protected prefix nothing is asked and the request passes
    ensures !StartsWith(pathname, ProtectedPrefix) ==> r == EdgeResult([], Continue)
    // without a session user: redirect to login remembering the path, no
    // admin lookup and no sign-out
    ensures StartsWith(pathname, ProtectedPrefix) && SessionUser(session).None? ==>
      && r.effects == [GetSession]
      && r.response == RedirectTo(Url(LoginPath, [("redirectedFrom", pathname)]))
    // with a session user the admin record is looked up by that user's id
    ensures StartsWith(pathname, ProtectedPrefix) && SessionUser(session).Some? ==>
      |r.effects| >= 2 && r.effects[..2] == [GetSession, LookupAdmin(SessionUser(session).value.id)]
    // a protected request that passes has made exactly those two calls
    ensures StartsWith(pathname, ProtectedPrefix) && r.response.Continue? ==>
      r.effects == [GetSession, LookupAdmin(SessionUser(session).value.id)]
    // the request passes exactly when it is unprotected or comes from a
    // session user with an admin record
    ensures r.response.Continue? <==>
      !StartsWith(pathname, ProtectedPrefix) || (SessionUser(session).Some? && lookup.data.Some?)
    // sign-out happens exactly on denial for a missing record, and it is the
    // last thing done before the redirect is returned
    ensures SignOut in r.effects <==>
      StartsWith(pathname, ProtectedPrefix) && SessionUser(session).Some? && lookup.data.None?
    ensures SignOut in r.effects ==>
      r.effects[|r.effects| - 1] == SignOut && r.response == RedirectTo(Url(LoginPath, [("error", "access_denied")]))
    // a denial for a missing record makes exactly the session read, the
    // lookup and the sign-out
    ensures StartsWith(pathname, ProtectedPrefix) && SessionUser(session).Some? && lookup.data.None? ==>
      r.effects == [GetSession, LookupAdmin(SessionUser(session).value.id), SignOut]
    // no redirect carries both `redirectedFrom` and `error`
    ensures r.response.RedirectTo? ==>
      Param(r.response.url, "redirectedFrom").None? || Param(r.response.url, "error").None?
  {
    if !StartsWith(pathname, ProtectedPrefix) then
      EdgeResult([], Continue)
    else
      match SessionUser(session)
      case None =>
        EdgeResult([GetSession], RedirectTo(LoginFrom(pathname)))
      case Some(user) =>
        if lookup.data.None? then
          EdgeResult([GetSession, LookupAdmin(user.id), SignOut], RedirectTo(DeniedUrl))
        else
          EdgeResult([GetSession, LookupAdmin(user.id)], Continue)
  }

  /** The edge check ignores an error from the admin lookup: two replies with
      the same record decide the same way, whatever their errors. */
  lemma MiddlewareIgnoresLookupError(pathname: string, session: Option<Session>,
                                     data: Option<AdminId>, e1: Option<string>, e2: Option<string>)
    ensures Middleware(pathname, session, Reply(data, e1)) == Middleware(pathname, session, Reply(data, e2))
  {
  }

  // ---- server re-check ---------------------------------------------------

  datatype ServerOutcome =
    | Admitted(session: Session, admin: AdminProfile)
    | Redirected(url: Url)

  datatype ServerResult = ServerResult(effects: seq<Effect>, outcome: ServerOutcome)

  /** The server re-check. A lookup error denies just like a missing record.
      `redirect` ends the render, so nothing runs after it. */
  function RequireAdmin(session: Option<Session>, lookup: Reply<AdminProfile>): (r: ServerResult)
    // no session user: bare `/login`, no sign-out, no lookup
    ensures SessionUser(session).None? ==>
      r.effects == [GetSession] && r.outcome == Redirected(Url(LoginPath, []))
    // with a session user the admin record is looked up by that user's id
    ensures SessionUser(session).Some? ==>
      |r.effects| >= 2 && r.effects[..2] == [GetSession, LookupAdmin(SessionUser(session).value.id)]
    // a lookup error or a missing record: sign-out, then access denied
    ensures SessionUser(session).Some? && (lookup.error.Some? || lookup.data.None?) ==>
      && r.effects == [GetSession, LookupAdmin(SessionUser(session).value.id), SignOut]
      && r.outcome == Redirected(Url(LoginPath, [("error", "access_denied")]))
    // a normal return carries the session and the record found for its user
    ensures r.outcome.Admitted? <==>
      SessionUser(session).Some? && lookup.error.None? && lookup.data.Some?
    ensures r.outcome.Admitted? ==>
      && r.effects == [GetSession, LookupAdmin(SessionUser(session).value.id)]
      && session == Some(r.outcome.session)
      && lookup.data == Some(r.outcome.admin)
      && SignOut !in r.effects
  {
    match SessionUser(session)
    case None =>
      ServerResult([GetSession], Redirected(Url(LoginPath, [])))
    case Some(user) =>
      var effects := [GetSession, LookupAdmin(user.id)];
      if lookup.error.Some? || lookup.data.None? then
        ServerResult(effects + [SignOut], Redirected(DeniedUrl))
      else
        ServerResult(effects, Admitted(session.value, lookup.data.value))
  }

  // ---- the two layers compared -------------------------------------------

  /** Both layers look at the same `admins` table: one reply holds a record
      exactly when the other does. */
  predicate SameStore(edge: Reply<AdminId>, server: Reply<AdminProfile>)
  {
    edge.data.Some? <==> server.data.Some?
  }

  /** For a protected path the server layer denies whenever the edge layer
      denies, and it denies in exactly one more case: a lookup that found the
      record but also reported an error. */
  lemma ServerStricterThanEdge(pathname: string, session: Option<Session>,
                               edge: Reply<AdminId>, server: Reply<AdminProfile>)
    requires StartsWith(pathname, ProtectedPrefix)
    requires SameStore(edge, server)
    ensures Middleware(pathname, session, edge).response.RedirectTo? ==>
      RequireAdmin(session, server).outcome.Redirected?
    ensures SignOut in Middleware(pathname, session, edge).effects ==>
      && SignOut in RequireAdmin(session, server).effects
      && RequireAdmin(session, server).outcome.url == Middleware(pathname, session, edge).response.url
    ensures (Middleware(pathname, session, edge).response.Continue?
             && RequireAdmin(session, server).outcome.Redirected?) <==>
      SessionUser(session).Some? && server.data.Some? && server.error.Some?
  {
  }

  /** The two layers send a user without a session to different addresses:
      the edge one remembers the requested path, the server one does not. */
  lemma NoSessionRedirectsDiffer(pathname: string, edge: Reply<AdminId>, server: Reply<AdminProfile>)
    requires StartsWith(pathname, ProtectedPrefix)
    ensures Param(Middleware(pathname, None, edge).response.url, "redirectedFrom") == Some(pathname)
    ensures Param(RequireAdmin(None, server).outcome.url, "redirectedFrom").None?
  {
  }
}
