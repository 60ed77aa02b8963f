/** Application errors: `AppError` carries a message, a code from
    `ERROR_CODES` and an HTTP status; `handleSafeError` maps any thrown
    value to a client-safe `{message, code}` pair. */
module Errors {
  import opened Wrappers

  const UNAUTHORIZED := "UNAUTHORIZED"
  const FORBIDDEN := "FORBIDDEN"
  const NOT_FOUND := "NOT_FOUND"
  const VALIDATION_ERROR := "VALIDATION_ERROR"
  const INTERNAL_SERVER_ERROR := "INTERNAL_SERVER_ERROR"
  const RATE_LIMIT_EXCEEDED := "RATE_LIMIT_EXCEEDED"

  const GENERIC_MESSAGE := "An unexpected error occurred"

  datatype AppError = AppError(message: string, code: string, statusCode: int, isOperational: bool)

  /** `new AppError(message, code, statusCode?)`. */
  function NewAppError(message: string, code: string, statusCode: Option<int>): (e: AppError)
    ensures e.message == message && e.code == code
    ensures e.statusCode == (if statusCode.Some? then statusCode.value else 400)
    ensures e.isOperational
  {
    AppError(message, code, statusCode.GetOr(400), true)
  }

  /** What a `throw` can carry: an `AppError` or any other value, of which
      only a description is kept. */
  datatype Thrown = App(err: AppError) | Other(description: string)

  predicate IsAppError(t: Thrown) {
    t.App?
  }

  /** The client-safe view; it has no status-code field at all. */
  datatype SafeError = SafeError(message: string, code: string)

  function HandleSafeError(t: Thrown): (r: SafeError)
    ensures IsAppError(t) ==> r.message == t.err.message && r.code == t.err.code
    ensures !IsAppError(t) ==> r.message == GENERIC_MESSAGE && r.code == INTERNAL_SERVER_ERROR
  {
    match t
    case App(e) => SafeError(e.message, e.code)
    case Other(_) => SafeError(GENERIC_MESSAGE, INTERNAL_SERVER_ERROR)
  }

  /** An error raised with `new AppError(m, c, s)` reaches the client as
      `{m, c}` whatever its status code. */
  lemma HandleSafeErrorRoundTrip(message: string, code: string, statusCode: Option<int>)
    ensures HandleSafeError(App(NewAppError(message, code, statusCode))) == SafeError(message, code)
  {
  }

  /** Nothing of an unexpected error reaches the client: any two such
      values map to the same result. */
  lemma HandleSafeErrorHidesOthers(a: string, b: string)
    ensures HandleSafeError(Other(a)) == HandleSafeError(Other(b))
    ensures HandleSafeError(Other(a)).code == INTERNAL_SERVER_ERROR
  {
  }
}
