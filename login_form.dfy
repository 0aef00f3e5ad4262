/**
 * The sign-in form: the e-mail rule it shares with sign-up, a password that only
 * has to be non-empty, and the submit handler that calls `login` and shows a toast.
 */
module LoginForm {
  import opened Wrappers
  import opened Text
  import opened FormState
  import opened ToastContainer

  const PasswordRequired := "Password is required"

  datatype LoginData = LoginData(email: string, password: string)

  datatype Field = Email | Password {
    function Key(): string {
      match this
      case Email => "email"
      case Password => "password"
    }
  }

  function Apply(f: LoginData, field: Field, value: string): LoginData {
    match field
    case Email => f.(email := value)
    case Password => f.(password := value)
  }

  /** The record `validateForm` builds. */
  function FormErrors(f: LoginData): map<string, string> {
    var e1 := if EmailError(f.email).Some? then map["email" := EmailError(f.email).value] else map[];
    if f.password == "" then e1["password" := PasswordRequired] else e1
  }

  /** The form is valid exactly when the e-mail matches the pattern and a password was typed. */
  lemma ValidIff(f: LoginData)
    ensures FormErrors(f) == map[] <==> MatchesEmailPattern(f.email) && f.password != ""
    ensures FormErrors(f).Keys <= {"email", "password"}
    ensures "email" in FormErrors(f) ==> FormErrors(f)["email"] == EmailError(f.email).value
    ensures "password" in FormErrors(f) <==> f.password == ""
  {
    EmailErrorMeaning(f.email);
    if EmailError(f.email).Some? {
      assert "email" in FormErrors(f);
    }
    if f.password == "" {
      assert "password" in FormErrors(f);
    }
  }

  /** Any non-empty password is accepted: there is no length or composition rule at sign-in. */
  lemma AnyPasswordAccepted(email: string, password: string)
    requires MatchesEmailPattern(email) && password != ""
    ensures FormErrors(LoginData(email, password)) == map[]
  {
    ValidIff(LoginData(email, password));
  }

  class LoginFormState {
    var formData: LoginData
    var errors: map<string, string>

    constructor ()
      ensures formData == LoginData("", "") && errors == map[]
    {
      formData := LoginData("", "");
      errors := map[];
    }

    method ValidateForm() returns (valid: bool)
      modifies this
      ensures errors == FormErrors(formData) && formData == old(formData)
      ensures valid <==> errors == map[]
    {
      var newErrors: map<string, string> := map[];
      if Trim(formData.email) == "" {
        newErrors := newErrors["email" := EmailRequired];
      } else if !IsEmailLike(formData.email) {
        newErrors := newErrors["email" := EmailInvalid];
      }
      if formData.password == "" {
        newErrors := newErrors["password" := PasswordRequired];
      }
      errors := newErrors;
      valid := newErrors == map[];
    }

    /**
     * `handleSubmit`: when the form is valid, `login` is called with the e-mail and
     * password and, once it settles with `outcome`, a toast is shown.
     */
    method HandleSubmit(outcome: Outcome) returns (call: Option<(string, string)>, toast: Option<ToastFields>)
      modifies this
      ensures errors == FormErrors(formData) && formData == old(formData)
      ensures call.None? <==> errors != map[]
      ensures call.None? ==> toast.None?
      ensures call.Some? ==> call.value == (formData.email, formData.password)
      ensures call.Some? ==> toast == Some(OutcomeToast(outcome, "Successfully logged in", "Login failed"))
    {
      var valid := ValidateForm();
      if !valid {
        return None, None;
      }
      call := Some((formData.email, formData.password));
      match outcome
      case Succeeded =>
        toast := Some(SuccessToast("Welcome!", Some("Successfully logged in")));
      case Failed(e) =>
        toast := Some(ApiErrorToast(if e.Some? then e.value else ApiError("Login failed", 0, None)));
    }

    method HandleInputChange(field: Field, value: string)
      modifies this
      ensures formData == Apply(old(formData), field, value)
      ensures errors == ClearError(old(errors), field.Key())
    {
      formData := Apply(formData, field, value);
      if HasError(errors, field.Key()) {
        errors := errors[field.Key() := ""];
      }
    }
  }
}
