/**
 * The registration screen's submit handler (admin/app/register/page.tsx):
 * local checks of the password, then sign-up with the identity provider,
 * then the insert of the matching `admins` row. The provider's replies are
 * inputs; a reply may also be a thrown exception.
 */
module Register {
  import opened Base
  import opened Schema
  import opened Effects
  import Text

  const MinPasswordLength := 8
  const MismatchError := "Passwords do not match"
  const TooShortError := "Password must be at least 8 characters long"
  const NoUserError := "Failed to create user account"
  const AdminRecordPrefix := "Failed to create admin record: "
  const UnexpectedError := "An unexpected error occurred"
  const AdminRole := "admin"

  /** The reply of `auth.signUp`. */
  datatype SignUpReply =
    | SignUpThrew
    | SignUpFailed(message: string)
    | SignedUp(userId: Option<string>)

  /** The reply of the `admins` insert. */
  datatype InsertReply =
    | InsertThrew
    | InsertFailed(message: string)
    | Inserted

  datatype Outcome = Outcome(effects: seq<Effect>, error: Option<string>, success: bool)

  /** The user id the sign-up returned, if it is usable: `!userId` rejects a
      missing id and the empty string alike. */
  function UsableId(reply: SignUpReply): (r: Option<string>)
    ensures r.Some? ==> reply.SignedUp? && reply.userId == r && r.value != ""
    ensures reply.SignedUp? && reply.userId.Some? && reply.userId.value != "" ==> r == reply.userId
  {
    if reply.SignedUp? && reply.userId.Some? && reply.userId.value != "" then reply.userId else None
  }

  /** The passwords agree and are at least eight UTF-16 code units long. */
  predicate PasswordAccepted(password: string, confirmPassword: string)
  {
    password == confirmPassword && Text.Utf16Length(password) >= MinPasswordLength
  }

  /** The admin row created for a new identity: its id, the submitted email,
      role `admin`; `id` and `created_at` are left to the database. */
  function AdminFor(userId: string, email: string): AdminInsert
  {
    AdminInsert(Absent, userId, email, Given(AdminRole), Absent)
  }

  /** `handleSubmit`. `origin` is `window.location.origin`. */
  function Submit(email: string, password: string, confirmPassword: string, origin: string,
                  signUp: SignUpReply, insert: InsertReply): (r: Outcome)
    // the mismatch is checked first, then the length; neither contacts the provider
    ensures password != confirmPassword ==> r == Outcome([], Some(MismatchError), false)
    ensures password == confirmPassword && Text.Utf16Length(password) < MinPasswordLength ==>
      r == Outcome([], Some(TooShortError), false)
    ensures PasswordAccepted(password, confirmPassword) ==>
      |r.effects| >= 1 && r.effects[0] == SignUp(email, password, origin + "/login")
    // the admin insert follows only a sign-up that returned a usable user id,
    // and it is the last call: nothing undoes the identity if it fails
    ensures (exists e :: e in r.effects && e.InsertAdmin?) <==>
      PasswordAccepted(password, confirmPassword) && UsableId(signUp).Some?
    ensures PasswordAccepted(password, confirmPassword) && UsableId(signUp).Some? ==>
      r.effects == [SignUp(email, password, origin + "/login"), InsertAdmin(AdminFor(UsableId(signUp).value, email))]
    // a failed or thrown sign-up, or one without a usable id, stops there
    ensures PasswordAccepted(password, confirmPassword) && signUp.SignUpFailed? ==>
      r == Outcome([SignUp(email, password, origin + "/login")], Some(signUp.message), false)
    ensures PasswordAccepted(password, confirmPassword) && signUp.SignUpThrew? ==>
      r == Outcome([SignUp(email, password, origin + "/login")], Some(UnexpectedError), false)
    ensures PasswordAccepted(password, confirmPassword) && signUp.SignedUp? && UsableId(signUp).None? ==>
      r == Outcome([SignUp(email, password, origin + "/login")], Some(NoUserError), false)
    ensures PasswordAccepted(password, confirmPassword) && UsableId(signUp).Some? && insert.InsertThrew? ==>
      r.error == Some(UnexpectedError) && !r.success
    ensures PasswordAccepted(password, confirmPassword) && UsableId(signUp).Some? && insert.InsertFailed? ==>
      r.error == Some(AdminRecordPrefix + insert.message) && !r.success
    // success needs both steps
    ensures r.success <==>
      PasswordAccepted(password, confirmPassword) && UsableId(signUp).Some? && insert.Inserted?
    ensures r.success <==> r.error.None?
  {
    if password != confirmPassword then
      Outcome([], Some(MismatchError), false)
    else if Text.Utf16Length(password) < MinPasswordLength then
      Outcome([], Some(TooShortError), false)
    else
      var signUpCall := SignUp(email, password, origin + "/login");
      match signUp
      case SignUpThrew => Outcome([signUpCall], Some(UnexpectedError), false)
      case SignUpFailed(message) => Outcome([signUpCall], Some(message), false)
      case SignedUp(userId) =>
        if userId.None? || userId.value == "" then
          Outcome([signUpCall], Some(NoUserError), false)
        else
          var calls := [signUpCall, InsertAdmin(AdminFor(userId.value, email))];
          assert calls[1] in calls && calls[1].InsertAdmin?;
          match insert
          case InsertThrew => Outcome(calls, Some(UnexpectedError), false)
          case InsertFailed(message) => Outcome(calls, Some(AdminRecordPrefix + message), false)
          case Inserted => Outcome(calls, None, true)
  }

  /** A password of exactly eight characters from the Basic Multilingual
      Plane passes the local checks. */
  lemma EightCharactersAccepted(password: string)
    requires |password| == MinPasswordLength
    requires forall k :: 0 <= k < |password| ==> (password[k] as int) < 0x10000
    ensures PasswordAccepted(password, password)
  {
    Utf16LengthOfBmp(password);
  }

  lemma {:induction false} Utf16LengthOfBmp(s: string)
    requires forall k :: 0 <= k < |s| ==> (s[k] as int) < 0x10000
    ensures Text.Utf16Length(s) == |s|
    decreases |s|
  {
    if |s| > 0 {
      Utf16LengthOfBmp(s[1..]);
    }
  }
}
