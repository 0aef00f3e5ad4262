/**
 * The response envelope `{ success, data?, message?, errors? }` and the HTTP
 * status code an action returns it with.
 */
module ApiResponses {
  import opened Wrappers

  datatype ValidationError = ValidationError(field: string, message: string)

  /** `new ValidationError()`: both properties empty. */
  function DefaultValidationError(): (e: ValidationError)
    ensures e.field == "" && e.message == ""
  {
    ValidationError("", "")
  }

  /** `ApiResponse<T>`: `data` is `None` where the C# property keeps its default. */
  datatype ApiResponse<T> = ApiResponse(
    success: bool,
    data: Option<T>,
    message: Option<string>,
    errors: Option<seq<ValidationError>>)

  /** The non-generic `ApiResponse`, which has no `Data`. */
  datatype PlainResponse = PlainResponse(
    success: bool,
    message: Option<string>,
    errors: Option<seq<ValidationError>>)

  /** `ApiResponse<T>.SuccessResult(data, message)`. */
  function SuccessResult<T>(data: T, message: Option<string>): (r: ApiResponse<T>)
    ensures r.success && r.data == Some(data) && r.message == message && r.errors.None?
  {
    ApiResponse(true, Some(data), message, None)
  }

  /** `ApiResponse<T>.ErrorResult(message, errors)`: never carries data. */
  function ErrorResult<T>(message: string, errors: Option<seq<ValidationError>>): (r: ApiResponse<T>)
    ensures !r.success && r.data.None? && r.message == Some(message) && r.errors == errors
  {
    ApiResponse(false, None, Some(message), errors)
  }

  /** `ApiResponse.SuccessResult(message)`. */
  function PlainSuccess(message: Option<string>): (r: PlainResponse)
    ensures r.success && r.message == message && r.errors.None?
  {
    PlainResponse(true, message, None)
  }

  /** `ApiResponse.ErrorResult(message, errors)`. */
  function PlainError(message: string, errors: Option<seq<ValidationError>>): (r: PlainResponse)
    ensures !r.success && r.message == Some(message) && r.errors == errors
  {
    PlainResponse(false, Some(message), errors)
  }

  /** The non-generic factories agree with the generic ones on every field they share. */
  lemma PlainAgreesWithGeneric<T>(message: string, errors: Option<seq<ValidationError>>, data: T)
    ensures var g := SuccessResult(data, Some(message)); var p := PlainSuccess(Some(message));
      g.success == p.success && g.message == p.message && g.errors == p.errors
    ensures var g: ApiResponse<T> := ErrorResult(message, errors); var p := PlainError(message, errors);
      g.success == p.success && g.message == p.message && g.errors == p.errors
  {
  }

  const StatusOk := 200
  const StatusCreated := 201
  const StatusBadRequest := 400
  const StatusNotFound := 404

  /** What an action returns: an HTTP status code and the envelope. */
  datatype ActionResult<B> = ActionResult(status: int, body: B)
}
