/**
 * The sign-up page's form checks: the four validators, the order in which
 * `handleSignUp` applies them before it sends anything, and the alert it
 * shows when the server refuses the account. The DOM, the loading overlay,
 * storage writes and the redirect are not part of this model.
 */
module SignupPage {
  import opened TextUtil
  import AuthService

  /** A validator's `{ valid, message }`. */
  datatype Validation = Valid | Invalid(message: string)

  function ValidateFullName(name: string): (r: Validation)
    ensures r == Valid <==> 2 <= |Trim(name)| <= 100
    ensures r.Invalid? ==> r.message == (if |Trim(name)| < 2 then "Name must be at least 2 characters long" else "Name is too long")
  {
    var trimmed := Trim(name);
    if |trimmed| < 2 then Invalid("Name must be at least 2 characters long")
    else if |trimmed| > 100 then Invalid("Name is too long")
    else Valid
  }

  /** The e-mail check the backend also applies, on the trimmed input. */
  function ValidateEmail(email: string): (r: Validation)
    ensures r == Valid <==> AuthService.EmailPattern(Trim(email))
    ensures r.Invalid? ==> r.message == "Please enter a valid email address"
  {
    AuthService.IsValidEmailMatchesPattern(Trim(email));
    if !AuthService.IsValidEmail(Trim(email)) then Invalid("Please enter a valid email address") else Valid
  }

  /** The password is measured as typed, without trimming. */
  function ValidatePassword(password: string): (r: Validation)
    ensures r == Valid <==> 6 <= |password| <= 100
    ensures r.Invalid? ==> r.message == (if |password| < 6 then "Password must be at least 6 characters long" else "Password is too long")
  {
    if |password| < 6 then Invalid("Password must be at least 6 characters long")
    else if |password| > 100 then Invalid("Password is too long")
    else Valid
  }

  function ValidatePasswordMatch(password: string, confirmPassword: string): (r: Validation)
    ensures r == Valid <==> password == confirmPassword
    ensures r.Invalid? ==> r.message == "Passwords do not match"
  {
    if password != confirmPassword then Invalid("Passwords do not match") else Valid
  }

  /** The raw values of the form's inputs. */
  datatype SignupForm = SignupForm(fullName: string, email: string, password: string, confirmPassword: string,
                                   termsAccepted: bool)

  /** An alert, or the sign-up request with the values it sends. */
  datatype Action = ShowError(message: string) | SendSignup(fullName: string, email: string, password: string)

  const TermsMessage := "Please accept the Terms of Service and Privacy Policy"

  /** The checks in order; the first failing one decides the alert. */
  function Checks(f: SignupForm): seq<Validation>
  {
    var name, email := Trim(f.fullName), Trim(f.email);
    [ValidateFullName(name), ValidateEmail(email), ValidatePassword(f.password),
     ValidatePasswordMatch(f.password, f.confirmPassword),
     if f.termsAccepted then Valid else Invalid(TermsMessage)]
  }

  /** The message of the first failing check, if any fails. */
  function FirstFailure(checks: seq<Validation>): (r: Option<string>)
    ensures r.None? <==> forall k :: 0 <= k < |checks| ==> checks[k] == Valid
    ensures r.Some? ==>
      (exists k :: 0 <= k < |checks| && checks[k] == Invalid(r.value)
         && forall j :: 0 <= j < k ==> checks[j] == Valid)
  {
    if checks == [] then None
    else if checks[0].Invalid? then Some(checks[0].message)
    else FirstFailure(checks[1..])
  }

  lemma FirstFailureCons(v: Validation, rest: seq<Validation>)
    ensures FirstFailure([v] + rest) == if v.Invalid? then Some(v.message) else FirstFailure(rest)
  {
    assert ([v] + rest)[1..] == rest;
  }

  /** `handleSignUp` up to the request: the name and e-mail are trimmed, each check may end the handler with its message. */
  function HandleSignUp(f: SignupForm): (a: Action)
    ensures a.ShowError? <==> FirstFailure(Checks(f)).Some?
    ensures a.ShowError? ==> a.message == FirstFailure(Checks(f)).value
    ensures a.SendSignup? ==> a == SendSignup(Trim(f.fullName), Trim(f.email), f.password)
  {
    var name, email := Trim(f.fullName), Trim(f.email);
    var nameCheck := ValidateFullName(name);
    var emailCheck := ValidateEmail(email);
    var passwordCheck := ValidatePassword(f.password);
    var matchCheck := ValidatePasswordMatch(f.password, f.confirmPassword);
    var terms := if f.termsAccepted then Valid else Invalid(TermsMessage);
    FirstFailureCons(matchCheck, [terms]);
    FirstFailureCons(passwordCheck, [matchCheck, terms]);
    FirstFailureCons(emailCheck, [passwordCheck, matchCheck, terms]);
    FirstFailureCons(nameCheck, [emailCheck, passwordCheck, matchCheck, terms]);
    FirstFailureCons(terms, []);
    if nameCheck.Invalid? then ShowError(nameCheck.message)
    else if emailCheck.Invalid? then ShowError(emailCheck.message)
    else if passwordCheck.Invalid? then ShowError(passwordCheck.message)
    else if matchCheck.Invalid? then ShowError(matchCheck.message)
    else if !f.termsAccepted then ShowError(TermsMessage)
    else SendSignup(name, email, f.password)
  }

  /** A form that is accepted sends a name of 2 to 100 characters, a well-formed e-mail and a confirmed password of 6 to 100. */
  lemma SentFormIsValid(f: SignupForm)
    requires HandleSignUp(f).SendSignup?
    ensures var a := HandleSignUp(f);
      2 <= |a.fullName| <= 100 && AuthService.EmailPattern(a.email) && 6 <= |a.password| <= 100
      && a.password == f.confirmPassword && f.termsAccepted
      && IsTrimmed(a.fullName) && IsTrimmed(a.email)
  {
    assert Checks(f)[0] == Valid && Checks(f)[1] == Valid && Checks(f)[2] == Valid;
    assert Checks(f)[3] == Valid && Checks(f)[4] == Valid;
    TrimIdempotent(f.fullName);
    TrimIdempotent(f.email);
    TrimIsTrimmed(f.fullName);
    TrimIsTrimmed(f.email);
  }

  /** Trimming the name twice changes nothing, so the check sees the value that is sent. */
  lemma NameCheckedAsSent(f: SignupForm)
    ensures ValidateFullName(Trim(f.fullName)) == Valid <==> 2 <= |Trim(f.fullName)| <= 100
  {
    TrimIdempotent(f.fullName);
  }

  const ExistingAccountHint := "An account with this email already exists. Please sign in instead."

  /** `new Error(data.error || 'Sign up failed')` for a response that is not ok. */
  function ThrownMessage(serverError: Option<string>): (m: string)
    ensures m != []
    ensures serverError.Some? && serverError.value != [] ==> m == serverError.value
  {
    if serverError.Some? && serverError.value != [] then serverError.value else "Sign up failed"
  }

  /** The `catch` block's alert for a refused request or a failed fetch: a message about an existing account becomes a hint to sign in. */
  function FailureAlert(message: string): (m: string)
    ensures m != []
    ensures Contains(message, "already exists") ==> m == ExistingAccountHint
    ensures !Contains(message, "already exists") ==> m == (if message != [] then message else "Failed to create account. Please try again.")
  {
    if Contains(message, "already exists") then ExistingAccountHint
    else if message != [] then message
    else "Failed to create account. Please try again."
  }

  /** The backend's 409 text turns into the sign-in hint. */
  lemma ExistingAccountAlert()
    ensures FailureAlert(ThrownMessage(Some("User with this email already exists"))) == ExistingAccountHint
  {
    var taken := "User with this email already exists";
    assert taken[21..35] == "already exists";
    assert OccursAt(taken, "already exists", 21);
  }

  /** The backend's other errors, and the fallback text, are shown as they are. */
  lemma OtherAlerts()
    ensures FailureAlert(ThrownMessage(Some("Invalid email format"))) == "Invalid email format"
    ensures FailureAlert(ThrownMessage(None)) == "Sign up failed"
  {
    var bad := "Invalid email format";
    var fallback := "Sign up failed";
    assert ThrownMessage(Some(bad)) == bad;
    assert ThrownMessage(None) == fallback;
    assert "already exists"[6] == 'y' && 'y' !in bad && 'y' !in fallback;
    MissingCharacter(bad, "already exists", 6);
    MissingCharacter(fallback, "already exists", 6);
  }
}
