/** The client's error normalisation: whatever was thrown becomes an `APIError`. */
module Errors {
  import opened Wrappers
  import opened Js

  const ApiErrorName := "APIError"
  const Unexpected := "An unexpected error occurred"

  /** An `APIError`: an `Error` carrying an HTTP status and optional per-field messages. */
  datatype ApiError = ApiError(name: string, message: string, status: int, errors: Option<map<string, seq<string>>>)

  /** `new APIError(message, status, errors)` */
  function NewApiError(message: string, status: int, errors: Option<map<string, seq<string>>>): (r: ApiError)
    ensures r.name == ApiErrorName && r.message == message && r.status == status && r.errors == errors
  {
    ApiError(ApiErrorName, message, status, errors)
  }

  /** What a `catch` can receive, by the `instanceof` tests applied to it. */
  datatype Caught =
    | IsApiError(error: ApiError)
    | IsError(message: string)
    | NotAnError(value: Value)

  /** `handleAPIError` */
  function HandleApiError(error: Caught): (r: ApiError)
    ensures error.IsApiError? ==> r == error.error
    ensures !error.IsApiError? ==> r.name == ApiErrorName && r.status == 500 && r.errors.None?
    ensures error.IsError? ==> r.message == error.message
    ensures error.NotAnError? ==> r.message == Unexpected
  {
    match error
    case IsApiError(e) => e
    case IsError(message) => NewApiError(message, 500, None)
    case NotAnError(_) => NewApiError(Unexpected, 500, None)
  }

  /** Normalising an already normalised error changes nothing. */
  lemma HandleApiErrorIdempotent(error: Caught)
    ensures HandleApiError(IsApiError(HandleApiError(error))) == HandleApiError(error)
  {
  }

  /** Only an `APIError` keeps a status other than 500. */
  lemma StatusKeptOnlyForApiErrors(error: Caught)
    ensures HandleApiError(error).status != 500 ==> error.IsApiError? && error.error.status == HandleApiError(error).status
  {
  }
}
