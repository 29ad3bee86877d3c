/** The sign-up form: four fields with an error under each, the `loading`
    flag, the validation gate in front of `signup` and the routing of the
    error codes `signup` can throw. */
module SignupScreen {
  import opened Outcomes
  import Validation

  datatype Field = NameField | EmailField | PasswordField | ConfirmField

  /** One string per field; used both for the values and for the errors. */
  datatype PerField = PerField(name: string, email: string, password: string, confirm: string)
  {
    function Get(field: Field): string
    {
      match field
      case NameField => name
      case EmailField => email
      case PasswordField => password
      case ConfirmField => confirm
    }

    function Set(field: Field, value: string): (r: PerField)
      ensures r.Get(field) == value
      ensures forall other :: other != field ==> r.Get(other) == Get(other)
    {
      match field
      case NameField => this.(name := value)
      case EmailField => this.(email := value)
      case PasswordField => this.(password := value)
      case ConfirmField => this.(confirm := value)
    }
  }

  const NoErrors := PerField("", "", "", "")

  datatype SignupForm = SignupForm(values: PerField, errors: PerField, loading: bool)

  /** What the call to `signup` did: resolved, or threw an error whose
      `code` may be absent. */
  datatype SignupCall = Resolved | Rejected(code: Option<string>)

  /** The four validators' verdicts on the current values. */
  function Verdicts(v: PerField): PerField
  {
    PerField(
      Validation.Name(v.name).GetOr(""),
      Validation.Email(v.email).GetOr(""),
      Validation.Password(v.password).GetOr(""),
      Validation.ConfirmPassword(v.password, v.confirm).GetOr(""))
  }

  /** Whether every validator accepts the form. */
  predicate Valid(v: PerField)
  {
    && Validation.Name(v.name).None?
    && Validation.Email(v.email).None?
    && Validation.Password(v.password).None?
    && Validation.ConfirmPassword(v.password, v.confirm).None?
  }

  const EmailInUse := "This email is already registered."
  const WeakPassword := "Password is too weak. Please use a stronger password."

  /** The errors shown after `signup` throws: the two known codes put
      their message under their own field, every other field is cleared. */
  function RejectionErrors(code: Option<string>): (e: PerField)
    ensures e.name == "" && e.confirm == ""
    ensures e.email == (if code == Some("auth/email-already-in-use") then EmailInUse else "")
    ensures e.password == (if code == Some("auth/weak-password") then WeakPassword else "")
  {
    var message :=
      if code == Some("auth/email-already-in-use") then EmailInUse
      else if code == Some("auth/weak-password") then WeakPassword
      else "Unable to create account. Please try again.";
    PerField(
      "",
      if code == Some("auth/email-already-in-use") then message else "",
      if code == Some("auth/weak-password") then message else "",
      "")
  }

  /** `handleSignup`. The second component says whether `signup` was
      called; `call` is what that call did and is ignored otherwise. */
  function HandleSignup(f: SignupForm, call: SignupCall): (r: (SignupForm, bool))
    ensures r.1 <==> Valid(f.values)
    ensures r.0.values == f.values
    ensures if r.1 then !r.0.loading else r.0.loading == f.loading
    ensures !r.1 ==> forall field :: r.0.errors.Get(field) == Verdicts(f.values).Get(field)
    ensures r.1 && call.Resolved? ==> r.0.errors == f.errors
    ensures r.1 && call.Rejected? ==> r.0.errors == RejectionErrors(call.code)
  {
    if !Valid(f.values) then
      (f.(errors := Verdicts(f.values)), false)
    else
      match call
      case Resolved => (f.(loading := false), true)
      case Rejected(code) => (f.(errors := RejectionErrors(code), loading := false), true)
  }

  /** `updateField`: sets one value and clears that field's error only. */
  function UpdateField(f: SignupForm, field: Field, value: string): (r: SignupForm)
    ensures r.values.Get(field) == value && r.errors.Get(field) == ""
    ensures forall other :: other != field ==>
              r.values.Get(other) == f.values.Get(other) && r.errors.Get(other) == f.errors.Get(other)
    ensures r.loading == f.loading
  {
    f.(values := f.values.Set(field, value), errors := f.errors.Set(field, ""))
  }

  /** A form is let through exactly when the validators leave every field
      without an error message: the gate and the messages agree. */
  lemma GateMatchesMessages(v: PerField)
    ensures Valid(v) <==> Verdicts(v) == NoErrors
  {
    NonEmptyMessages(v);
  }

  /** Every validator message is a non-empty string. */
  lemma NonEmptyMessages(v: PerField)
    ensures Validation.Name(v.name).Some? ==> Validation.Name(v.name).value != ""
    ensures Validation.Email(v.email).Some? ==> Validation.Email(v.email).value != ""
    ensures Validation.Password(v.password).Some? ==> Validation.Password(v.password).value != ""
    ensures Validation.ConfirmPassword(v.password, v.confirm).Some? ==>
              Validation.ConfirmPassword(v.password, v.confirm).value != ""
  {
  }

  /** A form the validators accept has a non-empty password equal to its
      confirmation. */
  lemma ValidMeansPasswordsMatch(v: PerField)
    requires Valid(v)
    ensures v.password == v.confirm && v.password != ""
  {
  }
}
