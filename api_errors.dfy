/**
 * The backend's error value: an HTTP status, a machine-readable code, a
 * message and optional details. Services and middleware fail by producing
 * one; the error handler turns it into a response.
 */
module ApiErrors {
  import opened Wrappers
  import Json

  datatype ApiError = ApiError(status: int, code: string, message: string, details: Option<Json.Value>)

  const BAD_REQUEST := 400
  const UNAUTHORIZED := 401
  const NOT_FOUND := 404
  const CONFLICT := 409
  const INTERNAL_SERVER_ERROR := 500

  /** `new ApiError(status, code, message)` without details. */
  function Plain(status: int, code: string, message: string): (e: ApiError)
    ensures e.status == status && e.code == code && e.message == message && e.details == None
  {
    ApiError(status, code, message, None)
  }

  /** The 401 every authentication guard throws. */
  function Unauthorized(message: string): (e: ApiError)
    ensures e.status == 401 && e.code == "UNAUTHORIZED" && e.message == message
  {
    Plain(UNAUTHORIZED, "UNAUTHORIZED", message)
  }
}
