/** The login screen: the empty-field check, sign-in followed by the profile read for the
    signed-in user, the landing page by role, and the error-message table. */
module LoginPage {
  import opened Wrappers
  import opened Text
  import opened Domain
  import opened Guards

  const FillAllFields := "Please fill in all fields"
  const LoginSucceeded := "Login successful!"
  const InvalidCredentials := "Invalid email or password"
  const InvalidEmail := "Invalid email format"
  const TooManyAttempts := "Too many attempts. Please try again later"
  const ProfileError := "Error loading user profile."
  const LoginFailed := "Login failed"

  /** The five error messages are pairwise different. */
  lemma MessagesDistinct()
    ensures InvalidCredentials != InvalidEmail && InvalidCredentials != TooManyAttempts
    ensures InvalidCredentials != ProfileError && InvalidCredentials != LoginFailed
    ensures InvalidEmail != TooManyAttempts && InvalidEmail != ProfileError && InvalidEmail != LoginFailed
    ensures TooManyAttempts != ProfileError && TooManyAttempts != LoginFailed && ProfileError != LoginFailed
  {
    assert |InvalidCredentials| != |InvalidEmail|;
    assert InvalidCredentials[0] != TooManyAttempts[0] && InvalidCredentials[0] != ProfileError[0];
    assert InvalidCredentials[0] != LoginFailed[0] && InvalidEmail[0] != TooManyAttempts[0];
    assert InvalidEmail[0] != ProfileError[0] && InvalidEmail[0] != LoginFailed[0];
    assert TooManyAttempts[0] != ProfileError[0] && TooManyAttempts[0] != LoginFailed[0];
    assert ProfileError[0] != LoginFailed[0];
  }

  /** The error-handler's table: error codes first, then a message mentioning "profile". */
  function LoginErrorMessage(e: Error): (m: string)
    ensures m == InvalidCredentials <==> e.code == "auth/user-not-found" || e.code == "auth/wrong-password"
    ensures m == InvalidEmail <==> e.code == "auth/invalid-email"
    ensures m == TooManyAttempts <==> e.code == "auth/too-many-requests"
    ensures m == ProfileError <==>
              && e.code !in {"auth/user-not-found", "auth/wrong-password", "auth/invalid-email", "auth/too-many-requests"}
              && Contains(e.message, "profile")
    ensures m == LoginFailed <==>
              && e.code !in {"auth/user-not-found", "auth/wrong-password", "auth/invalid-email", "auth/too-many-requests"}
              && !Contains(e.message, "profile")
  {
    MessagesDistinct();
    if e.code == "auth/user-not-found" || e.code == "auth/wrong-password" then InvalidCredentials
    else if e.code == "auth/invalid-email" then InvalidEmail
    else if e.code == "auth/too-many-requests" then TooManyAttempts
    else if Contains(e.message, "profile") then ProfileError
    else LoginFailed
  }

  /** Where a signed-in user is sent: officials to the dashboard, everyone else, a missing
      profile included, to the resident tabs; the history entry is replaced. */
  function Landing(profile: Option<UserProfile>): (nav: Navigation)
    ensures nav.replaceUrl
    ensures nav.url == "/official-dashboard" <==> profile.Some? && profile.value.role == Official
    ensures nav.url != "/official-dashboard" ==> nav.url == "/tabs/home"
  {
    assert "/official-dashboard"[1] != "/tabs/home"[1];
    match profile
    case Some(p) => if p.role == Official then Navigation("/official-dashboard", true) else Navigation("/tabs/home", true)
    case None => Navigation("/tabs/home", true)
  }

  /** What one press of the login button did. */
  datatype LoginOutcome = LoginOutcome(
    signInCalled: bool,
    profileReadFor: Option<string>,
    effects: seq<Effect>,
    isLoading: bool)

  /** `onLogin`: `signIn` is the identity provider's answer for these credentials and
      `readProfile` the profile store's answer for a user id. */
  function OnLogin(email: string, password: string, wasLoading: bool, signIn: Result<User, Error>,
                   readProfile: string -> Result<Option<UserProfile>, Error>): (r: LoginOutcome)
    ensures email == "" || password == "" ==>
              r == LoginOutcome(false, None, [Notify(Toast(FillAllFields, Warning))], wasLoading)
    ensures email != "" && password != "" ==> r.signInCalled && !r.isLoading
    ensures r.profileReadFor.Some? <==> r.signInCalled && signIn.Ok?
    ensures r.profileReadFor.Some? ==> r.profileReadFor.value == signIn.value.uid
    ensures r.signInCalled && signIn.Err? ==> r.effects == [Notify(Toast(LoginErrorMessage(signIn.error), Danger))]
    ensures r.profileReadFor.Some? && readProfile(signIn.value.uid).Err? ==>
              r.effects == [Notify(Toast(LoginErrorMessage(readProfile(signIn.value.uid).error), Danger))]
    ensures r.profileReadFor.Some? && readProfile(signIn.value.uid).Ok? ==>
              r.effects == [Notify(Toast(LoginSucceeded, Success)), Navigate(Landing(readProfile(signIn.value.uid).value))]
  {
    if email == "" || password == "" then LoginOutcome(false, None, [Notify(Toast(FillAllFields, Warning))], wasLoading)
    else
      match signIn
      case Err(e) => LoginOutcome(true, None, [Notify(Toast(LoginErrorMessage(e), Danger))], false)
      case Ok(user) =>
        match readProfile(user.uid)
        case Err(e) => LoginOutcome(true, Some(user.uid), [Notify(Toast(LoginErrorMessage(e), Danger))], false)
        case Ok(profile) =>
          LoginOutcome(true, Some(user.uid), [Notify(Toast(LoginSucceeded, Success)), Navigate(Landing(profile))], false)
  }

  /** A login either navigates exactly once, after the success toast, or shows exactly one
      warning or error and stays on the screen. */
  lemma LoginNavigatesOnlyOnSuccess(email: string, password: string, wasLoading: bool, signIn: Result<User, Error>,
                                    readProfile: string -> Result<Option<UserProfile>, Error>)
    ensures var r := OnLogin(email, password, wasLoading, signIn, readProfile);
            (|r.effects| == 2 && r.effects[1].Navigate? && r.effects[0] == Notify(Toast(LoginSucceeded, Success)))
            || (|r.effects| == 1 && r.effects[0].Notify? && r.effects[0].toast.color != Success)
  {
  }
}
