/**
 * The login screen (admin/app/login/page.tsx): the notice shown when the
 * access gate sent the user here with `error=access_denied`, and the submit
 * handler that signs in, checks the `admins` table and either signs out
 * again or opens the dashboard. The provider's replies are inputs.
 */
module Login {
  import opened Base
  import opened Effects
  import AccessGate

  const DeniedNotice := "Access denied. Admin approval required."
  const NoUserError := "No user returned from Supabase."
  const DashboardPath := "/dashboard"

  /** The reply of `auth.signInWithPassword`. */
  datatype SignInReply =
    | SignInFailed(message: string)
    | SignedIn(userId: Option<string>)

  datatype Outcome = Outcome(effects: seq<Effect>, error: Option<string>)

  /** The effect on the `error` query parameter: `access_denied` shows the
      notice, any other value (or none) leaves the message as it was. */
  function NoticeFor(errorParam: Option<string>, current: Option<string>): (r: Option<string>)
    ensures errorParam == Some("access_denied") ==> r == Some("Access denied. Admin approval required.")
    ensures errorParam != Some("access_denied") ==> r == current
  {
    if errorParam == Some("access_denied") then Some(DeniedNotice) else current
  }

  /** `handleSubmit`. */
  function Submit(email: string, password: string, signIn: SignInReply,
                  lookup: Reply<AccessGate.AdminId>): (r: Outcome)
    ensures |r.effects| >= 1 && r.effects[0] == SignIn(email, password)
    // an authentication error is shown as is, and nothing else is asked
    ensures signIn.SignInFailed? ==> r == Outcome([SignIn(email, password)], Some(signIn.message))
    // a missing (or empty) user id stops before the admin lookup
    ensures signIn.SignedIn? && (signIn.userId.None? || signIn.userId == Some("")) ==>
      r == Outcome([SignIn(email, password)], Some("No user returned from Supabase."))
    // the admin table is consulted exactly when a user id came back
    ensures (exists e :: e in r.effects && e.LookupAdmin?) <==>
      signIn.SignedIn? && signIn.userId.Some? && signIn.userId.value != ""
    // a lookup error or a missing record: sign-out, then the notice
    ensures SignOut in r.effects <==>
      signIn.SignedIn? && signIn.userId.Some? && signIn.userId.value != ""
      && (lookup.error.Some? || lookup.data.None?)
    ensures SignOut in r.effects ==>
      r.effects[|r.effects| - 1] == SignOut && r.error == Some(DeniedNotice)
    // the dashboard opens only for a user with an admin record
    ensures Navigate(DashboardPath) in r.effects <==>
      signIn.SignedIn? && signIn.userId.Some? && signIn.userId.value != ""
      && lookup.error.None? && lookup.data.Some?
    ensures Navigate(DashboardPath) in r.effects ==> r.error.None?
    // the lookup is keyed by the signed-in user's id, and one more call
    // (the sign-out or the move to the dashboard) follows it
    ensures signIn.SignedIn? && signIn.userId.Some? && signIn.userId.value != "" ==>
      |r.effects| == 3 && r.effects[..2] == [SignIn(email, password), LookupAdmin(signIn.userId.value)]
  {
    var signInCall := SignIn(email, password);
    match signIn
    case SignInFailed(message) => Outcome([signInCall], Some(message))
    case SignedIn(userId) =>
      if userId.None? || userId.value == "" then
        Outcome([signInCall], Some(NoUserError))
      else
        var calls := [signInCall, LookupAdmin(userId.value)];
        var last := if lookup.error.Some? || lookup.data.None? then SignOut else Navigate(DashboardPath);
        assert (calls + [last])[1].LookupAdmin?;
        Outcome(calls + [last], if last == SignOut then Some(DeniedNotice) else None)
  }
}
