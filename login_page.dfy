/**
 * The login page's form checks, the order in which `handleLogin` applies
 * them before it sends anything, the remembered e-mail it stores after a
 * successful login and reloads on the next visit, and the alert it shows
 * when the login is refused. The page's `validateEmail` is the sign-up
 * page's check, word for word.
 */
module LoginPage {
  import opened TextUtil
  import AuthService
  import SignupPage

  function ValidatePassword(password: string): (r: SignupPage.Validation)
    ensures r == SignupPage.Valid <==> password != []
    ensures r.Invalid? ==> r.message == "Please enter your password"
  {
    if |password| == 0 then SignupPage.Invalid("Please enter your password") else SignupPage.Valid
  }

  datatype LoginForm = LoginForm(email: string, password: string, rememberMe: bool)

  datatype Action = ShowError(message: string) | SendLogin(email: string, password: string)

  /** `handleLogin` up to the request: the e-mail is trimmed and checked first, then the password. */
  function HandleLogin(f: LoginForm): (a: Action)
    ensures a.SendLogin? <==> AuthService.EmailPattern(Trim(f.email)) && f.password != []
    ensures a.SendLogin? ==> a == SendLogin(Trim(f.email), f.password)
    ensures !AuthService.EmailPattern(Trim(f.email)) ==> a == ShowError("Please enter a valid email address")
    ensures AuthService.EmailPattern(Trim(f.email)) && f.password == [] ==> a == ShowError("Please enter your password")
  {
    var email := Trim(f.email);
    var emailCheck := SignupPage.ValidateEmail(email);
    var passwordCheck := ValidatePassword(f.password);
    TrimIdempotent(f.email);
    if emailCheck.Invalid? then ShowError(emailCheck.message)
    else if passwordCheck.Invalid? then ShowError(passwordCheck.message)
    else SendLogin(email, f.password)
  }

  /** `handleRememberMe`: the new value of the stored `rememberedEmail`. */
  function RememberMe(email: string, remember: bool): (r: Option<string>)
    ensures remember ==> r == Some(email)
    ensures !remember ==> r.None?
  {
    if remember then Some(email) else None
  }

  /** What `loadRememberedEmail` puts in the form: the stored e-mail with the box ticked, when one is stored and non-empty. */
  datatype Prefill = Prefill(email: Option<string>, rememberChecked: bool)

  function LoadRememberedEmail(stored: Option<string>): (p: Prefill)
    ensures p.rememberChecked <==> stored.Some? && stored.value != []
    ensures p.email == (if p.rememberChecked then stored else None)
  {
    if stored.Some? && stored.value != [] then Prefill(stored, true) else Prefill(None, false)
  }

  /**
   * After a successful login the next visit's form is prefilled with the
   * trimmed e-mail exactly when "remember me" was ticked, and when it was
   * not, whatever was remembered before is forgotten.
   */
  lemma RememberedEmailReloads(f: LoginForm)
    requires HandleLogin(f).SendLogin?
    ensures var next := RememberMe(HandleLogin(f).email, f.rememberMe);
      LoadRememberedEmail(next) ==
        if f.rememberMe then Prefill(Some(Trim(f.email)), true) else Prefill(None, false)
  {
  }

  const InvalidCredentialsAlert := "Invalid email or password." + " Please try again."

  /** `new Error(data.error || 'Login failed')` for a response that is not ok. */
  function ThrownMessage(serverError: Option<string>): (m: string)
    ensures m != []
    ensures serverError.Some? && serverError.value != [] ==> m == serverError.value
  {
    if serverError.Some? && serverError.value != [] then serverError.value else "Login failed"
  }

  /** The `catch` block's alert for a refused login or a failed request: invalid or unknown credentials get one fixed text. */
  function FailureAlert(message: string): (m: string)
    ensures m != []
    ensures Contains(message, "Invalid") || Contains(message, "not found") <==> m == InvalidCredentialsAlert
    ensures m != InvalidCredentialsAlert ==> m == message || (message == [] && m == "Failed to sign in. Please try again.")
  {
    FixedAlertContainsInvalid();
    if Contains(message, "Invalid") || Contains(message, "not found") then InvalidCredentialsAlert
    else if message != [] then message
    else "Failed to sign in. Please try again."
  }

  lemma FixedAlertContainsInvalid()
    ensures Contains(InvalidCredentialsAlert, "Invalid")
  {
    var head := "Invalid email or password.";
    assert InvalidCredentialsAlert[..7] == head[..7];
    assert OccursAt(InvalidCredentialsAlert, "Invalid", 0);
  }

  /** The backend's 401 text becomes the fixed alert; its 500 text is shown as it is. */
  lemma FailureAlertExamples(refused: string, failed: string)
    requires refused == "Invalid email or password" && failed == "Login failed"
    ensures FailureAlert(ThrownMessage(Some(refused))) == InvalidCredentialsAlert
    ensures FailureAlert(ThrownMessage(Some(failed))) == failed
    ensures FailureAlert(ThrownMessage(None)) == failed
  {
    assert OccursAt(refused, "Invalid", 0);
    assert "Invalid"[0] == 'I' && 'I' !in failed;
    MissingCharacter(failed, "Invalid", 0);
    assert "not found"[2] == 't' && 't' !in failed;
    MissingCharacter(failed, "not found", 2);
  }
}
