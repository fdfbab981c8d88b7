/**
 * The global exception filter: the one place where a failure becomes an
 * HTTP status and a `{errors}` body.
 */
module ErrorFilter {
  import opened Wrappers
  import opened Exceptions

  /** The response envelope: exactly one of `data` and `errors` is set. */
  datatype WebResponse<T> = WebResponse(data: Option<T>, errors: Option<string>)

  datatype ErrorResponse<T> = ErrorResponse(status: int, body: WebResponse<T>)

  /** The exception classes the filter is registered for. */
  predicate Caught(exception: Failure) {
    exception.HttpException? || exception.ZodError?
  }

  /**
   * An HTTP exception keeps its own status and message, a validation error
   * becomes a 400 with a fixed message, anything else a 500 with its
   * message; the body never carries data.
   */
  function Catch<T>(exception: Failure): (r: ErrorResponse<T>)
    ensures r.body.data.None? && r.body.errors.Some?
    ensures exception.HttpException? ==>
      r.status == exception.status && r.body.errors == Some(exception.response)
    ensures exception.ZodError? ==>
      r.status == 400 && r.body.errors == Some("Validation error")
    ensures exception.OtherError? ==>
      r.status == 500 && r.body.errors == Some(exception.message)
  {
    match exception
    case HttpException(status, response) => ErrorResponse(status, WebResponse(None, Some(response)))
    case ZodError(_) => ErrorResponse(400, WebResponse(None, Some("Validation error")))
    case OtherError(message) => ErrorResponse(500, WebResponse(None, Some(message)))
  }

  /** Validation failures are indistinguishable once normalised: no field detail leaks. */
  lemma ValidationDetailHidden<T>(a: seq<string>, b: seq<string>)
    ensures Catch<T>(ZodError(a)) == Catch<T>(ZodError(b))
  {
  }

  /**
   * For the exceptions the filter is registered for, a 500 can only be an
   * HTTP exception that asked for it: the catch-all branch is never taken.
   */
  lemma CaughtNeverFallsThrough<T>(exception: Failure)
    requires Caught(exception)
    ensures Catch<T>(exception).status == 500 ==> exception == HttpException(500, Catch<T>(exception).body.errors.value)
  {
  }

  /** Statuses of the errors the services raise. */
  lemma ServiceErrorStatuses<T>()
    ensures Catch<T>(UsernameTaken) == ErrorResponse(400, WebResponse(None, Some("Username already exists")))
    ensures Catch<T>(InvalidCredentials) == ErrorResponse(401, WebResponse(None, Some("Username or password is invalid")))
    ensures Catch<T>(Unauthorized) == ErrorResponse(401, WebResponse(None, Some("Unauthorized")))
  {
  }
}
