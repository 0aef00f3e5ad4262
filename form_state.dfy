/**
 * What the three client forms (task, registration, login) share: the error record
 * each form keeps (`Record<string, string>`, a field name to its message), the rule
 * that typing into a field blanks that field's message, and the e-mail rule of the
 * two account forms with its regular expression `\S+@\S+\.\S+` and the toast
 * those forms show once their request settles.
 */
module FormState {
  import opened Wrappers
  import opened Text
  import opened ToastContainer

  /** `errors[field]` is truthy: the field has an entry and it is not the empty string. */
  predicate HasError(errors: map<string, string>, field: string) {
    field in errors && errors[field] != ""
  }

  /** The error update of `handleInputChange`: an existing, non-empty message is blanked. */
  function ClearError(errors: map<string, string>, field: string): (r: map<string, string>)
    ensures r.Keys == errors.Keys
    ensures !HasError(r, field)
    ensures forall k :: k in errors && k != field ==> r[k] == errors[k]
    ensures field in errors ==> r[field] == ""
  {
    if HasError(errors, field) then errors[field := ""] else errors
  }

  /** Blanking a field's message twice is blanking it once. */
  lemma ClearErrorIdempotent(errors: map<string, string>, field: string)
    ensures ClearError(ClearError(errors, field), field) == ClearError(errors, field)
  {
  }

  // ---------------------------------------------------------------------------
  // The e-mail pattern

  /** No character of `t` is matched by `\s`. */
  predicate NonSpace(t: string) {
    forall i :: 0 <= i < |t| ==> !IsJsWhiteSpace(t[i])
  }

  /** A '.' at `dot`, preceded by a non-empty run of `\S` that starts at `lo` and followed by one `\S`. */
  predicate DotAt(s: string, lo: int, dot: int) {
    0 <= lo < dot && dot + 1 < |s| && s[dot] == '.' && NonSpace(s[lo..dot]) && !IsJsWhiteSpace(s[dot + 1])
  }

  /** A match of `\S+@\S+\.\S+` with its '@' at `at` and its '.' at `dot`. */
  predicate EmailAt(s: string, at: int, dot: int) {
    0 < at < |s| && s[at] == '@' && !IsJsWhiteSpace(s[at - 1]) && DotAt(s, at + 1, dot)
  }

  /**
   * `/\S+@\S+\.\S+/.test(s)`: the pattern is not anchored, so it matches when some
   * '@' has a non-space character before it and, after it, a non-empty run of
   * non-space characters up to a '.' that is itself followed by a non-space character.
   */
  ghost predicate MatchesEmailPattern(s: string) {
    exists at, dot :: EmailAt(s, at, dot)
  }

  /** Looks for a '.' that ends a run of `\S` begun at `lo`; `s[lo..k]` has been scanned. */
  function DotFrom(s: string, lo: nat, k: nat): bool
    requires lo <= k <= |s|
    decreases |s| - k
  {
    if k + 1 >= |s| then false
    else if IsJsWhiteSpace(s[k]) then false
    else if s[k] == '.' && lo < k && !IsJsWhiteSpace(s[k + 1]) then true
    else DotFrom(s, lo, k + 1)
  }

  /** Looks for an '@' at position `i` or later that starts a match. */
  function AtFrom(s: string, i: nat): bool
    requires 0 < i <= |s|
    decreases |s| - i
  {
    if i == |s| then false
    else (s[i] == '@' && !IsJsWhiteSpace(s[i - 1]) && DotFrom(s, i + 1, i + 1)) || AtFrom(s, i + 1)
  }

  /** The executable test of the e-mail pattern. */
  function IsEmailLike(s: string): bool {
    |s| > 0 && AtFrom(s, 1)
  }

  lemma {:induction false} DotFromCorrect(s: string, lo: nat, k: nat)
    requires lo <= k <= |s| && NonSpace(s[lo..k])
    ensures DotFrom(s, lo, k) <==> exists dot :: k <= dot && DotAt(s, lo, dot)
    decreases |s| - k
  {
    if k + 1 >= |s| {
    } else if IsJsWhiteSpace(s[k]) {
      forall dot | k <= dot ensures !DotAt(s, lo, dot) {
        if k < dot && dot <= |s| {
          assert s[lo..dot][k - lo] == s[k];
        }
      }
    } else if s[k] == '.' && lo < k && !IsJsWhiteSpace(s[k + 1]) {
      assert DotAt(s, lo, k);
    } else {
      assert NonSpace(s[lo..k + 1]) by {
        assert s[lo..k + 1] == s[lo..k] + [s[k]];
      }
      DotFromCorrect(s, lo, k + 1);
      assert !DotAt(s, lo, k);
    }
  }

  lemma {:induction false} AtFromCorrect(s: string, i: nat)
    requires 0 < i <= |s|
    ensures AtFrom(s, i) <==> exists at, dot :: i <= at && EmailAt(s, at, dot)
    decreases |s| - i
  {
    if i < |s| {
      AtFromCorrect(s, i + 1);
      assert s[i + 1..i + 1] == [];
      DotFromCorrect(s, i + 1, i + 1);
      if AtFrom(s, i) && !AtFrom(s, i + 1) {
        var dot :| i + 1 <= dot && DotAt(s, i + 1, dot);
        assert EmailAt(s, i, dot);
      }
      if exists at, dot :: i <= at && EmailAt(s, at, dot) {
        var at, dot :| i <= at && EmailAt(s, at, dot);
        if at == i {
          assert DotFrom(s, i + 1, i + 1);
        }
      }
    }
  }

  /** The executable test decides exactly the pattern. */
  lemma EmailCheckCorrect(s: string)
    ensures IsEmailLike(s) <==> MatchesEmailPattern(s)
  {
    if |s| > 0 {
      AtFromCorrect(s, 1);
      if MatchesEmailPattern(s) {
        var at, dot :| EmailAt(s, at, dot);
        assert 1 <= at;
      }
    } else {
      assert forall at, dot :: !EmailAt(s, at, dot);
    }
  }

  /** Two addresses of the kind the forms see: one accepted, one without a dot after the '@'. */
  lemma EmailExamples()
    ensures MatchesEmailPattern("a@b.c")
    ensures !MatchesEmailPattern("a@b")
  {
    assert EmailAt("a@b.c", 1, 3) by {
      assert "a@b.c"[2..3] == "b";
    }
    EmailCheckCorrect("a@b");
    assert !DotFrom("a@b", 2, 2);
  }

  const EmailRequired := "Email is required"
  const EmailInvalid := "Email is invalid"

  /**
   * The e-mail rule of both account forms: blank after trimming is "required";
   * otherwise the untrimmed text must match the pattern.
   */
  function EmailError(email: string): (r: Option<string>)
    ensures r == Some(EmailRequired) <==> AllJsWhiteSpace(email)
  {
    if Trim(email) == "" then Some(EmailRequired)
    else if !IsEmailLike(email) then Some(EmailInvalid)
    else None
  }

  /** The e-mail rule passes exactly the addresses that match the pattern. */
  lemma EmailErrorMeaning(email: string)
    ensures EmailError(email).None? <==> MatchesEmailPattern(email)
    ensures EmailError(email) == Some(EmailInvalid) <==> !AllJsWhiteSpace(email) && !MatchesEmailPattern(email)
  {
    EmailCheckCorrect(email);
    if MatchesEmailPattern(email) {
      var at, dot :| EmailAt(email, at, dot);
      assert !IsJsWhiteSpace(email[at]);
    }
  }

  // ---------------------------------------------------------------------------
  // How an account request ends

  /** The request succeeded, failed with an `ApiError`, or failed with anything else (`None`). */
  datatype Outcome = Succeeded | Failed(error: Option<ApiError>)

  /**
   * The toast an account form shows once its request settles: "Welcome!" on success,
   * the API error as it came, or a status-0 API error with the form's fall-back text.
   */
  function OutcomeToast(outcome: Outcome, welcome: string, fallback: string): (t: ToastFields)
    ensures outcome.Succeeded? ==> t == SuccessToast("Welcome!", Some(welcome))
    ensures outcome.Failed? && outcome.error.Some? ==> t == ApiErrorToast(outcome.error.value)
    ensures outcome.Failed? && outcome.error.None? ==> t == ApiErrorToast(ApiError(fallback, 0, None))
  {
    match outcome
    case Succeeded => SuccessToast("Welcome!", Some(welcome))
    case Failed(e) => ApiErrorToast(if e.Some? then e.value else ApiError(fallback, 0, None))
  }

  /** A failed request always shows an error toast titled "Error" that stays up for 8 seconds. */
  lemma FailureToastShape(outcome: Outcome, welcome: string, fallback: string)
    requires outcome.Failed?
    ensures OutcomeToast(outcome, welcome, fallback).kind == Error
    ensures OutcomeToast(outcome, welcome, fallback).title == "Error"
    ensures OutcomeToast(outcome, welcome, fallback).duration == Some(ErrorDuration)
    ensures outcome.error.None? ==> OutcomeToast(outcome, welcome, fallback).message == Some(fallback)
  {
  }
}
