/** Results, error kinds and the HTTP responses that the route handlers produce. */
module Outcomes {

  datatype Option<+T> = None | Some(value: T)

  /** The failure kinds raised by the handlers (as HTTPException) or by the
      libraries beneath them (validation errors, integrity errors, attribute
      errors on a missing row), which FastAPI turns into a 500. */
  datatype Error =
    | BadRequest    // 400
    | Unauthorized  // 401
    | Forbidden     // 403
    | NotFound      // 404
    | Internal      // 500: any exception that is not an HTTPException

  datatype Result<+T> = Success(value: T) | Failure(error: Error)

  /** What a route answers: a 2xx body, or an error status with the error that caused it. */
  datatype Response<+T> = Ok(body: T) | Raised(status: nat, cause: Error)

  /** The status code FastAPI sends when an error of this kind escapes a route. */
  function StatusOf(e: Error): (code: nat)
    ensures 400 <= code <= 500
    ensures code == 500 <==> e == Internal
  {
    match e
    case BadRequest => 400
    case Unauthorized => 401
    case Forbidden => 403
    case NotFound => 404
    case Internal => 500
  }

  /** A failure that escapes the route unchanged keeps its own status. */
  function Uncaught<T>(r: Result<T>): (resp: Response<T>)
    ensures resp.Ok? <==> r.Success?
    ensures r.Success? ==> resp.body == r.value
    ensures r.Failure? ==> resp.cause == r.error && resp.status == StatusOf(r.error)
  {
    match r
    case Success(v) => Ok(v)
    case Failure(e) => Raised(StatusOf(e), e)
  }

  /** `try: ... except Exception as e: raise HTTPException(500, ...)`: every
      failure inside the block, HTTPExceptions included, leaves the route as a
      500 whose detail names the original error. */
  function CaughtAs500<T>(r: Result<T>): (resp: Response<T>)
    ensures resp.Ok? <==> r.Success?
    ensures r.Success? ==> resp.body == r.value
    ensures r.Failure? ==> resp.cause == r.error && resp.status == 500
  {
    match r
    case Success(v) => Ok(v)
    case Failure(e) => Raised(500, e)
  }
}
