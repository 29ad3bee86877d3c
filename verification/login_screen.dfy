/** The login form: its two fields, the error shown under each, the
    `loading` flag, and what submitting and editing do to them. The call
    to `login` is an input: it resolves or throws with a message. */
module LoginScreen {
  import opened Outcomes
  import Validation

  datatype LoginForm = LoginForm(
    email: string,
    password: string,
    emailError: string,
    passwordError: string,
    loading: bool)

  /** Empty fields, no errors, not loading. */
  const Blank := LoginForm("", "", "", "", false)

  /** The password check the login form does itself: presence only. */
  function PasswordPresent(password: string): (r: Option<string>)
    ensures r.None? <==> password != ""
    ensures r.Some? ==> r.value == "Password is required"
  {
    if password != "" then None else Some("Password is required")
  }

  /** Whether `handleLogin` gets as far as calling `login`. */
  predicate Submits(f: LoginForm)
  {
    Validation.Email(f.email).None? && f.password != ""
  }

  /** `handleLogin`. The second component says whether `login` was called;
      `call` is what that call did and is ignored when it is not made. */
  function HandleLogin(f: LoginForm, call: Attempt<()>): (r: (LoginForm, bool))
    ensures r.1 <==> Submits(f)
    ensures r.0.email == f.email && r.0.password == f.password
    ensures if r.1 then !r.0.loading else r.0.loading == f.loading
    ensures !r.1 ==>
              && r.0.emailError == Validation.Email(f.email).GetOr("")
              && (r.0.passwordError == "Password is required" <==> f.password == "")
              && (f.password != "" ==> r.0.passwordError == "")
    ensures r.1 && call.Ok? ==> r.0 == f.(loading := false)
    ensures r.1 && call.Throws? ==>
              && r.0.emailError == ""
              && r.0.passwordError == OrElse(call.message, "Invalid email or password")
              && r.0.passwordError != ""
  {
    var emailError := Validation.Email(f.email);
    var passwordError := PasswordPresent(f.password);
    if emailError.Some? || passwordError.Some? then
      (f.(emailError := emailError.GetOr(""), passwordError := passwordError.GetOr("")), false)
    else
      // `loading` is set for the call and cleared again in `finally`.
      match call
      case Ok(_) => (f.(loading := false), true)
      case Throws(message) =>
        (f.(emailError := "", passwordError := OrElse(message, "Invalid email or password"), loading := false), true)
  }

  /** Typing into the email field: sets it and clears its error only. */
  function EditEmail(f: LoginForm, text: string): (r: LoginForm)
    ensures r.email == text && r.emailError == ""
    ensures r.(email := f.email, emailError := f.emailError) == f
  {
    f.(email := text, emailError := "")
  }

  /** Typing into the password field: sets it and clears its error only. */
  function EditPassword(f: LoginForm, text: string): (r: LoginForm)
    ensures r.password == text && r.passwordError == ""
    ensures r.(password := f.password, passwordError := f.passwordError) == f
  {
    f.(password := text, passwordError := "")
  }

  /** A rejected submission shows an error on at least one field. */
  lemma RejectedShowsAnError(f: LoginForm, call: Attempt<()>)
    requires !Submits(f)
    ensures var r := HandleLogin(f, call).0;
            r.emailError != "" || r.passwordError != ""
  {
    var e := Validation.Email(f.email);
    if e.Some? {
      assert e.value == "Email is required" || e.value == "Invalid email format";
    }
  }
}
