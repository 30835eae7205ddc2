/**
 * How the screens fit together: the admin row registration creates is the
 * one the login screen and the access gate look up, and the login screen
 * opens the dashboard exactly when the gate in front of it admits the user.
 */
module Journeys {
  import opened Base
  import opened Schema
  import opened Effects
  import AccessGate
  import Login
  import Register

  /** The session the provider holds for a signed-in user. */
  function SessionOf(userId: string): Option<AccessGate.Session>
  {
    Some(AccessGate.Session(Some(AccessGate.User(userId))))
  }

  /** Two replies of the `admins` lookup that agree on the record and on
      whether an error came with it. */
  predicate SameAnswer(login: Reply<AccessGate.AdminId>, server: Reply<AccessGate.AdminProfile>)
  {
    AccessGate.SameStore(login, server) && (login.error.Some? <==> server.error.Some?)
  }

  /** For a signed-in user, the login screen and the server gate ask the
      same question (the admin row with that user id) and, given the same
      answer, the login screen opens the dashboard exactly when the server
      gate admits the user; then the edge gate lets `/dashboard` through. */
  lemma LoginAgreesWithGate(email: string, password: string, userId: string,
                            login: Reply<AccessGate.AdminId>, server: Reply<AccessGate.AdminProfile>)
    requires userId != ""
    requires SameAnswer(login, server)
    ensures var l := Login.Submit(email, password, Login.SignedIn(Some(userId)), login);
      var g := AccessGate.RequireAdmin(SessionOf(userId), server);
      && l.effects[1] == g.effects[1] == LookupAdmin(userId)
      && (Navigate(Login.DashboardPath) in l.effects <==> g.outcome.Admitted?)
      && (Navigate(Login.DashboardPath) in l.effects ==>
            AccessGate.Middleware(Login.DashboardPath, SessionOf(userId), login).response.Continue?)
  {
    var l := Login.Submit(email, password, Login.SignedIn(Some(userId)), login);
    assert AccessGate.StartsWith(Login.DashboardPath, AccessGate.ProtectedPrefix);
    if login.error.Some? || login.data.None? {
      assert Navigate(Login.DashboardPath) !in l.effects;
    }
  }

  /** A successful registration inserts the admin row under the id the
      provider returned, and that is the row the login screen and the
      access gate later look up for the same user. */
  lemma RegisteredAdminIsLookedUp(email: string, password: string, origin: string, userId: string,
                                  insert: Register.InsertReply, login: Reply<AccessGate.AdminId>,
                                  server: Reply<AccessGate.AdminProfile>)
    requires Register.Submit(email, password, password, origin, Register.SignedUp(Some(userId)), insert).success
    ensures var reg := Register.Submit(email, password, password, origin, Register.SignedUp(Some(userId)), insert);
      && reg.effects[1].InsertAdmin?
      && reg.effects[1].admin.userId == userId
      && reg.effects[1].admin.email == email
      && reg.effects[1].admin.role == Given("admin")
      && Login.Submit(email, password, Login.SignedIn(Some(userId)), login).effects[1]
           == LookupAdmin(reg.effects[1].admin.userId)
      && AccessGate.RequireAdmin(SessionOf(userId), server).effects[1]
           == LookupAdmin(reg.effects[1].admin.userId)
  {
  }

  /** Every redirect of either gate layer lands on the login screen, and
      the screen shows the access-denied notice exactly for the denials that
      signed the user out; a redirect for a missing session leaves the
      message as it was. */
  lemma GateRedirectSetsNotice(pathname: string, session: Option<AccessGate.Session>,
                               edge: Reply<AccessGate.AdminId>, server: Reply<AccessGate.AdminProfile>,
                               message: Option<string>)
    ensures var e := AccessGate.Middleware(pathname, session, edge);
      e.response.RedirectTo? ==>
        && e.response.url.path == AccessGate.LoginPath
        && (SignOut in e.effects ==>
              Login.NoticeFor(Param(e.response.url, "error"), message) == Some(Login.DeniedNotice))
        && (SignOut !in e.effects ==> Login.NoticeFor(Param(e.response.url, "error"), message) == message)
    ensures var g := AccessGate.RequireAdmin(session, server);
      g.outcome.Redirected? ==>
        && g.outcome.url.path == AccessGate.LoginPath
        && (SignOut in g.effects ==>
              Login.NoticeFor(Param(g.outcome.url, "error"), message) == Some(Login.DeniedNotice))
        && (SignOut !in g.effects ==> Login.NoticeFor(Param(g.outcome.url, "error"), message) == message)
  {
  }
}
