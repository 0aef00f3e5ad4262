/**
 * The sign-up form: its four fields, the rules `validateForm` checks with their
 * messages, the password-strength meter, and the submit handler that calls
 * `register` and shows a toast.
 */
module RegisterForm {
  import opened Wrappers
  import opened Text
  import opened FormState
  import opened ToastContainer

  const NameRequired := "Name is required"
  const NameTooLong := "Name must be less than 100 characters"
  const PasswordRequired := "Password is required"
  const PasswordTooShort := "Password must be at least 6 characters"
  const PasswordComposition := "Password must contain at least one lowercase letter, one uppercase letter, and one number"
  const ConfirmRequired := "Please confirm your password"
  const PasswordsDiffer := "Passwords do not match"
  const MaxNameLength: nat := 100
  const MinPasswordLength: nat := 6

  datatype RegisterData = RegisterData(name: string, email: string, password: string, confirmPassword: string)

  datatype Field = Name | Email | Password | ConfirmPassword {
    function Key(): string {
      match this
      case Name => "name"
      case Email => "email"
      case Password => "password"
      case ConfirmPassword => "confirmPassword"
    }
  }

  function Apply(f: RegisterData, field: Field, value: string): RegisterData {
    match field
    case Name => f.(name := value)
    case Email => f.(email := value)
    case Password => f.(password := value)
    case ConfirmPassword => f.(confirmPassword := value)
  }

  // ---------------------------------------------------------------------------
  // Character classes

  predicate IsLower(c: char) { 'a' <= c <= 'z' }
  predicate IsUpper(c: char) { 'A' <= c <= 'Z' }
  predicate IsSpecial(c: char) {
    c in {'!', '@', '#', '$', '%', '^', '&', '*', '(', ')', ',', '.', '?', '"', ':', '{', '}', '|', '<', '>'}
  }

  predicate HasLower(s: string) { exists i | 0 <= i < |s| :: IsLower(s[i]) }
  predicate HasUpper(s: string) { exists i | 0 <= i < |s| :: IsUpper(s[i]) }
  predicate HasDigit(s: string) { exists i | 0 <= i < |s| :: IsDigit(s[i]) }
  predicate HasSpecial(s: string) { exists i | 0 <= i < |s| :: IsSpecial(s[i]) }

  /** The text before the first line terminator: what `.*` can run over from the start. */
  function FirstLine(s: string): (r: string)
    ensures |r| <= |s| && r == s[..|r|]
    ensures forall i :: 0 <= i < |r| ==> !IsJsLineTerminator(r[i])
    ensures |r| < |s| ==> IsJsLineTerminator(s[|r|])
  {
    if s == [] || IsJsLineTerminator(s[0]) then [] else [s[0]] + FirstLine(s[1..])
  }

  /** `/^(?=.*[a-z])(?=.*[A-Z])(?=.*\d)/.test(s)`: each class occurs before any line terminator. */
  predicate MeetsComposition(s: string) {
    var line := FirstLine(s);
    HasLower(line) && HasUpper(line) && HasDigit(line)
  }

  /** Where a look-ahead `(?=.*X)` anchored at the start can succeed: an X with no line terminator before it. */
  ghost predicate LookAhead(s: string, kind: char -> bool) {
    exists i :: 0 <= i < |s| && kind(s[i]) && NoTerminatorBefore(s, i)
  }

  predicate NoTerminatorBefore(s: string, i: int)
    requires 0 <= i <= |s|
  {
    forall j :: 0 <= j < i ==> !IsJsLineTerminator(s[j])
  }

  /** The first line reaches past every position that has no line terminator up to and including it. */
  lemma {:induction false} FirstLineCovers(s: string, j: nat)
    requires j < |s| && NoTerminatorBefore(s, j + 1)
    ensures j < |FirstLine(s)|
  {
    assert !IsJsLineTerminator(s[0]);
    if j > 0 {
      assert NoTerminatorBefore(s[1..], j) by {
        forall k | 0 <= k < j ensures !IsJsLineTerminator(s[1..][k]) {
          assert s[1..][k] == s[k + 1];
        }
      }
      FirstLineCovers(s[1..], j - 1);
      assert FirstLine(s) == [s[0]] + FirstLine(s[1..]);
    }
  }

  /**
   * For a class without line terminators, occurring in the first line is occurring
   * with no line terminator before it.
   */
  lemma FirstLineLookAhead(s: string, kind: char -> bool)
    requires forall c :: kind(c) ==> !IsJsLineTerminator(c)
    ensures (exists i :: 0 <= i < |FirstLine(s)| && kind(FirstLine(s)[i])) <==> LookAhead(s, kind)
  {
    var line := FirstLine(s);
    if LookAhead(s, kind) {
      var i :| 0 <= i < |s| && kind(s[i]) && NoTerminatorBefore(s, i);
      FirstLineCovers(s, i);
      assert line[i] == s[i];
    }
    if exists i :: 0 <= i < |line| && kind(line[i]) {
      var i :| 0 <= i < |line| && kind(line[i]);
      assert s[i] == line[i];
      assert NoTerminatorBefore(s, i) by {
        forall j | 0 <= j < i ensures !IsJsLineTerminator(s[j]) {
          assert s[j] == line[j];
        }
      }
    }
  }

  /** The composition check is the three look-aheads of the pattern. */
  lemma CompositionMeaning(s: string)
    ensures MeetsComposition(s) <==>
      LookAhead(s, IsLower) && LookAhead(s, IsUpper) && LookAhead(s, IsDigit)
  {
    FirstLineLookAhead(s, IsLower);
    FirstLineLookAhead(s, IsUpper);
    FirstLineLookAhead(s, IsDigit);
  }

  // ---------------------------------------------------------------------------
  // The rules

  function NameError(name: string): Option<string> {
    if Trim(name) == "" then Some(NameRequired)
    else if Utf16Length(name) > MaxNameLength then Some(NameTooLong)
    else None
  }

  /** The password rules in order; the first that fails gives the message. */
  function PasswordError(password: string): Option<string> {
    if password == "" then Some(PasswordRequired)
    else if Utf16Length(password) < MinPasswordLength then Some(PasswordTooShort)
    else if !MeetsComposition(password) then Some(PasswordComposition)
    else None
  }

  function ConfirmError(password: string, confirm: string): Option<string> {
    if confirm == "" then Some(ConfirmRequired)
    else if password != confirm then Some(PasswordsDiffer)
    else None
  }

  /** Adds the field's message to the record when the field has one. */
  function Put(errors: map<string, string>, key: string, e: Option<string>): (r: map<string, string>)
    ensures e.None? ==> r == errors
    ensures e.Some? ==> r == errors[key := e.value]
  {
    if e.Some? then errors[key := e.value] else errors
  }

  /** The record `validateForm` builds, field by field. */
  function FormErrors(f: RegisterData): map<string, string> {
    var e1 := Put(map[], "name", NameError(f.name));
    var e2 := Put(e1, "email", EmailError(f.email));
    var e3 := Put(e2, "password", PasswordError(f.password));
    Put(e3, "confirmPassword", ConfirmError(f.password, f.confirmPassword))
  }

  /** Each field has at most one entry, holding exactly that field's message. */
  lemma FormErrorsEntries(f: RegisterData)
    ensures FormErrors(f).Keys <= {"name", "email", "password", "confirmPassword"}
    ensures "name" in FormErrors(f) <==> NameError(f.name).Some?
    ensures "email" in FormErrors(f) <==> EmailError(f.email).Some?
    ensures "password" in FormErrors(f) <==> PasswordError(f.password).Some?
    ensures "confirmPassword" in FormErrors(f) <==> ConfirmError(f.password, f.confirmPassword).Some?
    ensures "name" in FormErrors(f) ==> FormErrors(f)["name"] == NameError(f.name).value
    ensures "email" in FormErrors(f) ==> FormErrors(f)["email"] == EmailError(f.email).value
    ensures "password" in FormErrors(f) ==> FormErrors(f)["password"] == PasswordError(f.password).value
    ensures "confirmPassword" in FormErrors(f) ==>
      FormErrors(f)["confirmPassword"] == ConfirmError(f.password, f.confirmPassword).value
  {
  }

  /** The form is valid exactly when every rule holds. */
  lemma ValidIff(f: RegisterData)
    ensures FormErrors(f) == map[] <==>
      !AllJsWhiteSpace(f.name) && Utf16Length(f.name) <= MaxNameLength
      && MatchesEmailPattern(f.email)
      && Utf16Length(f.password) >= MinPasswordLength && MeetsComposition(f.password)
      && f.confirmPassword == f.password
  {
    FormErrorsEntries(f);
    EmailErrorMeaning(f.email);
    if FormErrors(f) == map[] {
      assert f.password != "";
    }
  }

  // ---------------------------------------------------------------------------
  // Password strength

  datatype Strength = Weak | Medium | Strong {
    function Rank(): nat {
      match this
      case Weak => 0
      case Medium => 1
      case Strong => 2
    }
  }

  function Count(b: bool): nat { if b then 1 else 0 }

  /** How many of the four classes (lower, upper, digit, special) occur anywhere. */
  function Score(password: string): (n: nat)
    ensures n <= 4
  {
    Count(HasLower(password)) + Count(HasUpper(password)) + Count(HasDigit(password)) + Count(HasSpecial(password))
  }

  /** `getPasswordStrength`. */
  function PasswordStrength(password: string): Strength {
    if Utf16Length(password) < 6 then Weak
    else if Score(password) >= 3 && Utf16Length(password) >= 8 then Strong
    else if Score(password) >= 2 then Medium
    else Weak
  }

  /** A class found in the first line is found in the password. */
  lemma FirstLineClasses(s: string)
    ensures HasLower(FirstLine(s)) ==> HasLower(s)
    ensures HasUpper(FirstLine(s)) ==> HasUpper(s)
    ensures HasDigit(FirstLine(s)) ==> HasDigit(s)
  {
    var line := FirstLine(s);
    assert forall i :: 0 <= i < |line| ==> line[i] == s[i];
  }

  /** A password the form accepts is at least Medium, and Strong once it is 8 code units long. */
  lemma AcceptedPasswordStrength(password: string)
    requires PasswordError(password).None?
    ensures PasswordStrength(password).Rank() >= Medium.Rank()
    ensures Utf16Length(password) >= 8 ==> PasswordStrength(password) == Strong
  {
    FirstLineClasses(password);
    assert Score(password) >= 3;
  }

  /** The meter's thresholds: under 6 is Weak; Strong needs three classes and 8 code units. */
  lemma StrengthThresholds(password: string)
    ensures Utf16Length(password) < 6 ==> PasswordStrength(password) == Weak
    ensures PasswordStrength(password) == Strong <==> Score(password) >= 3 && Utf16Length(password) >= 8
    ensures PasswordStrength(password) == Medium <==>
      Utf16Length(password) >= 6 && Score(password) >= 2 && !(Score(password) >= 3 && Utf16Length(password) >= 8)
  {
  }

  /** Six lower-case letters pass the length rule but not the composition rule, and rate Weak. */
  lemma OneClassIsWeak(password: string)
    requires |password| == 6 && forall i :: 0 <= i < 6 ==> IsLower(password[i])
    ensures PasswordError(password) == Some(PasswordComposition)
    ensures PasswordStrength(password) == Weak
  {
    Utf16LengthOfBmp(password);
    FirstLineClasses(password);
    assert !HasUpper(password) && !HasDigit(password) && !HasSpecial(password);
  }

  // ---------------------------------------------------------------------------
  // The form's state and handlers

  class RegisterFormState {
    var formData: RegisterData
    var errors: map<string, string>

    constructor ()
      ensures formData == RegisterData("", "", "", "") && errors == map[]
    {
      formData := RegisterData("", "", "", "");
      errors := map[];
    }

    /** `validateForm`: rebuilds the error record rule by rule. */
    method ValidateForm() returns (valid: bool)
      modifies this
      ensures errors == FormErrors(formData) && formData == old(formData)
      ensures valid <==> errors == map[]
    {
      var newErrors: map<string, string> := map[];
      if Trim(formData.name) == "" {
        newErrors := newErrors["name" := NameRequired];
      } else if Utf16Length(formData.name) > MaxNameLength {
        newErrors := newErrors["name" := NameTooLong];
      }
      ghost var e1 := newErrors;
      assert e1 == Put(map[], "name", NameError(formData.name));
      if Trim(formData.email) == "" {
        newErrors := newErrors["email" := EmailRequired];
      } else if !IsEmailLike(formData.email) {
        newErrors := newErrors["email" := EmailInvalid];
      }
      ghost var e2 := newErrors;
      assert e2 == Put(e1, "email", EmailError(formData.email));
      if formData.password == "" {
        newErrors := newErrors["password" := PasswordRequired];
      } else if Utf16Length(formData.password) < MinPasswordLength {
        newErrors := newErrors["password" := PasswordTooShort];
      } else if !MeetsComposition(formData.password) {
        newErrors := newErrors["password" := PasswordComposition];
      }
      ghost var e3 := newErrors;
      assert e3 == Put(e2, "password", PasswordError(formData.password));
      if formData.confirmPassword == "" {
        newErrors := newErrors["confirmPassword" := ConfirmRequired];
      } else if formData.password != formData.confirmPassword {
        newErrors := newErrors["confirmPassword" := PasswordsDiffer];
      }
      assert newErrors == Put(e3, "confirmPassword", ConfirmError(formData.password, formData.confirmPassword));
      assert FormErrors(formData) == newErrors;
      errors := newErrors;
      valid := newErrors == map[];
    }

    /**
     * `handleSubmit`: when the form is valid, `register` is called with the name,
     * e-mail and password and, once it settles with `outcome`, a toast is shown.
     */
    method HandleSubmit(outcome: Outcome) returns (call: Option<(string, string, string)>, toast: Option<ToastFields>)
      modifies this
      ensures errors == FormErrors(formData) && formData == old(formData)
      ensures call.None? <==> errors != map[]
      ensures call.None? ==> toast.None?
      ensures call.Some? ==> call.value == (formData.name, formData.email, formData.password)
      ensures call.Some? ==> toast == Some(OutcomeToast(outcome, "Account created successfully", "Registration failed"))
    {
      var valid := ValidateForm();
      if !valid {
        return None, None;
      }
      call := Some((formData.name, formData.email, formData.password));
      match outcome
      case Succeeded =>
        toast := Some(SuccessToast("Welcome!", Some("Account created successfully")));
      case Failed(e) =>
        toast := Some(ApiErrorToast(if e.Some? then e.value else ApiError("Registration failed", 0, None)));
    }

    /** `handleInputChange`. */
    method HandleInputChange(field: Field, value: string)
      modifies this
      ensures formData == Apply(old(formData), field, value)
      ensures errors == ClearError(old(errors), field.Key())
    {
      formData := Apply(formData, field, value);
      if HasError(errors, field.Key()) {
        errors := errors[field.Key() := ""];
      }
    }
  }
}
