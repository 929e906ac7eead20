/** The registration screen: ordered form validation, the account-creation call with the chosen
    role, the landing page by role and the error-message table. */
module RegisterPage {
  import opened Wrappers
  import opened Text
  import opened Domain
  import opened Guards

  const FillAllFields := "Please fill in all fields"
  const PasswordsDiffer := "Passwords do not match"
  const PasswordTooShort := "Password must be at least 6 characters"
  const Registered := "Registration successful!"
  const EmailInUse := "Email already in use"
  const InvalidEmail := "Invalid email format"
  const WeakPassword := "Password is too weak"
  const RegistrationFailed := "Registration failed"

  /** Minimum password length, in UTF-16 code units. */
  const MinPasswordLength := 6

  /** The form's fields; the role starts as `Resident`. */
  datatype RegisterForm = RegisterForm(email: string, password: string, confirmPassword: string, role: Role, barangayId: string)

  function EmptyForm(): (f: RegisterForm)
    ensures f.role == Resident
  {
    RegisterForm("", "", "", Resident, "")
  }

  /** The validation messages, and the error messages, are pairwise different. */
  lemma MessagesDistinct()
    ensures FillAllFields != PasswordsDiffer && FillAllFields != PasswordTooShort && PasswordsDiffer != PasswordTooShort
    ensures EmailInUse != InvalidEmail && EmailInUse != WeakPassword && EmailInUse != RegistrationFailed
    ensures InvalidEmail != WeakPassword && InvalidEmail != RegistrationFailed && WeakPassword != RegistrationFailed
  {
    assert FillAllFields[1] != PasswordsDiffer[1] && FillAllFields[1] != PasswordTooShort[1];
    assert |PasswordsDiffer| != |PasswordTooShort|;
    assert EmailInUse[0] != InvalidEmail[0] && EmailInUse[0] != WeakPassword[0] && EmailInUse[0] != RegistrationFailed[0];
    assert InvalidEmail[0] != WeakPassword[0] && InvalidEmail[0] != RegistrationFailed[0];
    assert WeakPassword[0] != RegistrationFailed[0];
  }

  /** The first validation message that applies, or `None` when the form may be submitted:
      missing fields, then differing passwords, then a short password. */
  function Validate(f: RegisterForm): (r: Option<string>)
    ensures r.None? <==> f.email != "" && f.password != "" && f.confirmPassword != "" && f.barangayId != ""
                         && f.password == f.confirmPassword && Utf16Length(f.password) >= MinPasswordLength
    ensures r == Some(FillAllFields) <==> f.email == "" || f.password == "" || f.confirmPassword == "" || f.barangayId == ""
    ensures r == Some(PasswordsDiffer) <==> f.email != "" && f.password != "" && f.confirmPassword != "" && f.barangayId != ""
                                            && f.password != f.confirmPassword
    ensures r == Some(PasswordTooShort) <==> f.email != "" && f.password != "" && f.confirmPassword != "" && f.barangayId != ""
                                             && f.password == f.confirmPassword && Utf16Length(f.password) < MinPasswordLength
  {
    MessagesDistinct();
    if f.email == "" || f.password == "" || f.confirmPassword == "" || f.barangayId == "" then Some(FillAllFields)
    else if f.password != f.confirmPassword then Some(PasswordsDiffer)
    else if Utf16Length(f.password) < MinPasswordLength then Some(PasswordTooShort)
    else None
  }

  /** A short password that also differs from its confirmation is reported as a mismatch. */
  lemma MismatchReportedBeforeLength(f: RegisterForm)
    requires f.email != "" && f.password != "" && f.confirmPassword != "" && f.barangayId != ""
    requires f.password != f.confirmPassword && Utf16Length(f.password) < MinPasswordLength
    ensures Validate(f) == Some(PasswordsDiffer)
  {
  }

  /** The error-handler's table. */
  function RegisterErrorMessage(e: Error): (m: string)
    ensures m == EmailInUse <==> e.code == "auth/email-already-in-use"
    ensures m == InvalidEmail <==> e.code == "auth/invalid-email"
    ensures m == WeakPassword <==> e.code == "auth/weak-password"
    ensures m == RegistrationFailed <==> e.code !in {"auth/email-already-in-use", "auth/invalid-email", "auth/weak-password"}
  {
    MessagesDistinct();
    if e.code == "auth/email-already-in-use" then EmailInUse
    else if e.code == "auth/invalid-email" then InvalidEmail
    else if e.code == "auth/weak-password" then WeakPassword
    else RegistrationFailed
  }

  /** Where a new account is sent: the start page of its role, keeping the history entry. */
  function Landing(role: Role): (nav: Navigation)
    ensures nav == Navigation(RoleHome(role), false)
    ensures nav.url == "/official-dashboard" <==> role == Official
  {
    match role
    case Official => Navigation("/official-dashboard", false)
    case Resident => Navigation("/home", false)
  }

  /** The arguments `register` is called with. */
  datatype Registration = Registration(email: string, password: string, role: Role, barangayId: string)

  /** What one press of the register button did. */
  datatype RegisterOutcome = RegisterOutcome(call: Option<Registration>, effects: seq<Effect>, isLoading: bool)

  /** `onRegister`; `created` is the identity provider's answer to the account creation. */
  function OnRegister(f: RegisterForm, wasLoading: bool, created: Result<User, Error>): (r: RegisterOutcome)
    ensures r.call.Some? <==> Validate(f).None?
    ensures r.call.Some? ==> r.call.value == Registration(f.email, f.password, f.role, f.barangayId) && !r.isLoading
    ensures Validate(f).Some? ==> r == RegisterOutcome(None, [Notify(Toast(Validate(f).value, Warning))], wasLoading)
    ensures r.call.Some? && created.Ok? ==> r.effects == [Notify(Toast(Registered, Success)), Navigate(Landing(f.role))]
    ensures r.call.Some? && created.Err? ==> r.effects == [Notify(Toast(RegisterErrorMessage(created.error), Danger))]
  {
    match Validate(f)
    case Some(message) => RegisterOutcome(None, [Notify(Toast(message, Warning))], wasLoading)
    case None =>
      var call := Registration(f.email, f.password, f.role, f.barangayId);
      match created
      case Ok(_) => RegisterOutcome(Some(call), [Notify(Toast(Registered, Success)), Navigate(Landing(f.role))], false)
      case Err(e) => RegisterOutcome(Some(call), [Notify(Toast(RegisterErrorMessage(e), Danger))], false)
  }

  /** A resident who does not touch the role picker registers as a resident. */
  lemma DefaultRegistrationIsResident(email: string, password: string, barangayId: string, created: Result<User, Error>)
    requires email != "" && barangayId != "" && Utf16Length(password) >= MinPasswordLength
    ensures var f := EmptyForm().(email := email, password := password, confirmPassword := password, barangayId := barangayId);
            OnRegister(f, false, created).call == Some(Registration(email, password, Resident, barangayId))
  {
  }
}
