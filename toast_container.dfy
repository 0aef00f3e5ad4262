/**
 * The toast provider: the list of toasts on screen, the helpers that add a
 * success, error or API-error toast, and the removal a toast asks for when
 * it closes. A toast's id is the clock reading (`Date.now()`) in decimal, so
 * the clock is a parameter of every helper that adds one.
 */
module ToastContainer {
  import opened Wrappers
  import opened Text

  /** A field-level message as the server reports it. */
  datatype FieldError = FieldError(field: string, message: string)

  /** What a failed API call raises: its message, HTTP status and field messages. */
  datatype ApiError = ApiError(message: string, status: int, validationErrors: Option<seq<FieldError>>)

  datatype ToastType = Success | Error | Warning | Info

  /** A toast before it is given an id (`Omit<ToastMessage, 'id'>`). */
  datatype ToastFields = ToastFields(kind: ToastType, title: string, message: Option<string>,
                                     validationErrors: Option<seq<FieldError>>, duration: Option<int>)

  datatype ToastMessage = ToastMessage(id: string, fields: ToastFields)

  /** How long an error toast stays up, in milliseconds. */
  const ErrorDuration := 8000

  /** `showSuccess`: a success toast with no validation errors and the default duration. */
  function SuccessToast(title: string, message: Option<string>): (t: ToastFields)
    ensures t.kind == Success && t.title == title && t.message == message
    ensures t.validationErrors.None? && t.duration.None?
  {
    ToastFields(Success, title, message, None, None)
  }

  /** `showError`: an error toast that carries the field messages and stays up for 8 seconds. */
  function ErrorToast(title: string, message: Option<string>, errors: Option<seq<FieldError>>): (t: ToastFields)
    ensures t.kind == Error && t.title == title && t.message == message
    ensures t.validationErrors == errors && t.duration == Some(ErrorDuration)
  {
    ToastFields(Error, title, message, errors, Some(ErrorDuration))
  }

  /** `showApiError`: the error toast titled "Error" with the error's message and field messages. */
  function ApiErrorToast(e: ApiError): (t: ToastFields)
    ensures t == ErrorToast("Error", Some(e.message), e.validationErrors)
  {
    ToastFields(Error, "Error", Some(e.message), e.validationErrors, Some(ErrorDuration))
  }

  /** The id a toast created at clock reading `now` gets (`Date.now().toString()`). */
  function IdAt(now: nat): string {
    NatToString(now)
  }

  /** `toasts.filter(toast => toast.id !== id)`. */
  function RemoveById(toasts: seq<ToastMessage>, id: string): (r: seq<ToastMessage>)
    ensures |r| <= |toasts|
  {
    if toasts == [] then []
    else (if toasts[0].id == id then [] else [toasts[0]]) + RemoveById(toasts[1..], id)
  }

  class ToastProvider {
    var toasts: seq<ToastMessage>

    constructor ()
      ensures toasts == []
    {
      toasts := [];
    }

    /** `showToast`: the toast, with the clock reading as its id, goes at the end. */
    method ShowToast(t: ToastFields, now: nat)
      modifies this
      ensures toasts == old(toasts) + [ToastMessage(IdAt(now), t)]
    {
      var id := NatToString(now);
      toasts := toasts + [ToastMessage(id, t)];
    }

    method ShowSuccess(title: string, message: Option<string>, now: nat)
      modifies this
      ensures toasts == old(toasts) + [ToastMessage(IdAt(now), SuccessToast(title, message))]
    {
      ShowToast(ToastFields(Success, title, message, None, None), now);
    }

    method ShowError(title: string, message: Option<string>, errors: Option<seq<FieldError>>, now: nat)
      modifies this
      ensures toasts == old(toasts) + [ToastMessage(IdAt(now), ErrorToast(title, message, errors))]
    {
      ShowToast(ToastFields(Error, title, message, errors, Some(ErrorDuration)), now);
    }

    method ShowApiError(e: ApiError, now: nat)
      modifies this
      ensures toasts == old(toasts) + [ToastMessage(IdAt(now), ApiErrorToast(e))]
    {
      ShowError("Error", Some(e.message), e.validationErrors, now);
    }

    /** `removeToast`: every toast with the id goes; the others stay in order. */
    method RemoveToast(id: string)
      modifies this
      ensures toasts == RemoveById(old(toasts), id)
    {
      toasts := RemoveById(toasts, id);
    }
  }

  // ---------------------------------------------------------------------------
  // Properties of the toast list

  /** No toast with the id is left, and the others keep their order. */
  lemma {:induction false} RemoveByIdAppend(a: seq<ToastMessage>, b: seq<ToastMessage>, id: string)
    ensures RemoveById(a + b, id) == RemoveById(a, id) + RemoveById(b, id)
  {
    if a == [] {
      assert a + b == b;
    } else {
      var head := if a[0].id == id then [] else [a[0]];
      RemoveByIdAppend(a[1..], b, id);
      assert (a + b)[0] == a[0] && (a + b)[1..] == a[1..] + b;
      calc {
        RemoveById(a + b, id);
        head + RemoveById(a[1..] + b, id);
        head + (RemoveById(a[1..], id) + RemoveById(b, id));
        (head + RemoveById(a[1..], id)) + RemoveById(b, id);
      }
    }
  }

  /** Removal keeps exactly the toasts with other ids. */
  lemma {:induction false} RemoveByIdMembers(toasts: seq<ToastMessage>, id: string)
    ensures forall t :: t in RemoveById(toasts, id) <==> t in toasts && t.id != id
  {
    if toasts != [] {
      RemoveByIdMembers(toasts[1..], id);
      assert toasts == [toasts[0]] + toasts[1..];
    }
  }

  /** Removing an id nobody has changes nothing. */
  lemma {:induction false} RemoveAbsent(toasts: seq<ToastMessage>, id: string)
    requires forall i :: 0 <= i < |toasts| ==> toasts[i].id != id
    ensures RemoveById(toasts, id) == toasts
  {
    if toasts != [] {
      RemoveAbsent(toasts[1..], id);
      assert toasts == [toasts[0]] + toasts[1..];
    }
  }

  /** Showing a toast and then closing it leaves the other toasts as they were, minus that id. */
  lemma ShowThenClose(toasts: seq<ToastMessage>, t: ToastFields, now: nat)
    ensures RemoveById(toasts + [ToastMessage(IdAt(now), t)], IdAt(now)) == RemoveById(toasts, IdAt(now))
  {
    RemoveByIdAppend(toasts, [ToastMessage(IdAt(now), t)], IdAt(now));
    assert RemoveById([ToastMessage(IdAt(now), t)], IdAt(now)) == [];
    assert RemoveById(toasts, IdAt(now)) + [] == RemoveById(toasts, IdAt(now));
  }

  /** Two toasts created in the same millisecond share an id, so closing one closes both. */
  lemma SameMillisecondClosedTogether(toasts: seq<ToastMessage>, t1: ToastFields, t2: ToastFields, now: nat)
    ensures RemoveById(toasts + [ToastMessage(IdAt(now), t1), ToastMessage(IdAt(now), t2)], IdAt(now))
         == RemoveById(toasts, IdAt(now))
  {
    var added := [ToastMessage(IdAt(now), t1), ToastMessage(IdAt(now), t2)];
    RemoveByIdAppend(toasts, added, IdAt(now));
    assert added[1..] == [ToastMessage(IdAt(now), t2)];
    assert RemoveById(added, IdAt(now)) == [];
    assert RemoveById(toasts, IdAt(now)) + [] == RemoveById(toasts, IdAt(now));
  }

  /** Toasts created at different clock readings have different ids: closing one keeps the other. */
  lemma DifferentMillisecondsKept(t1: ToastFields, t2: ToastFields, now1: nat, now2: nat)
    requires now1 != now2
    ensures RemoveById([ToastMessage(IdAt(now1), t1), ToastMessage(IdAt(now2), t2)], IdAt(now1))
         == [ToastMessage(IdAt(now2), t2)]
  {
    if IdAt(now1) == IdAt(now2) {
      NatToStringInjective(now1, now2);
    }
    var ts := [ToastMessage(IdAt(now1), t1), ToastMessage(IdAt(now2), t2)];
    assert ts[1..] == [ToastMessage(IdAt(now2), t2)];
  }
}
