/**
 * The Express error handler (backend/src/middleware/errorHandler.ts): every
 * thrown value becomes a status and a `{ code, message, details? }` body.
 */
module ErrorHandler {
  import opened Wrappers
  import opened Json
  import opened ApiErrors

  /** What a handler can throw: an `ApiError`, a `ZodError` (by its flattened form) or anything else. */
  datatype Thrown =
    | Api(error: ApiError)
    | Zod(flattened: Value)
    | Other(name: Option<Value>, message: Option<Value>, stack: Option<Value>)

  /** The response body; `details` is left out of the JSON when it is undefined. */
  datatype ErrorBody = ErrorBody(code: string, message: string, details: Option<Value>)

  datatype ErrorResponse = ErrorResponse(status: int, body: ErrorBody)

  const VALIDATION_ERROR := "VALIDATION_ERROR"
  const VALIDATION_MESSAGE := "Request validation failed"
  const INTERNAL_ERROR := "INTERNAL_SERVER_ERROR"
  const INTERNAL_MESSAGE := "Something went wrong"

  /** The fields of the thrown value that are present, as the development-mode details object. */
  function DebugDetails(name: Option<Value>, message: Option<Value>, stack: Option<Value>): Value {
    var withName: Object := if name.Some? then map["name" := name.value] else map[];
    var withMessage := if message.Some? then withName["message" := message.value] else withName;
    Obj(if stack.Some? then withMessage["stack" := stack.value] else withMessage)
  }

  /** `errorHandler(err)` under the environment's `NODE_ENV`. */
  function Handle(err: Thrown, nodeEnv: Option<string>): (r: ErrorResponse)
    ensures err.Api? ==> r == ErrorResponse(err.error.status, ErrorBody(err.error.code, err.error.message, err.error.details))
    ensures err.Zod? ==> r == ErrorResponse(BAD_REQUEST, ErrorBody(VALIDATION_ERROR, VALIDATION_MESSAGE, Some(err.flattened)))
    ensures err.Other? ==> r.status == INTERNAL_SERVER_ERROR && r.body.code == INTERNAL_ERROR && r.body.message == INTERNAL_MESSAGE
    ensures err.Other? ==> (r.body.details.Some? <==> nodeEnv != Some("production"))
  {
    match err
    case Api(e) => ErrorResponse(e.status, ErrorBody(e.code, e.message, e.details))
    case Zod(flat) => ErrorResponse(BAD_REQUEST, ErrorBody(VALIDATION_ERROR, VALIDATION_MESSAGE, Some(flat)))
    case Other(name, message, stack) =>
      var details := if nodeEnv != Some("production") then Some(DebugDetails(name, message, stack)) else None;
      ErrorResponse(INTERNAL_SERVER_ERROR, ErrorBody(INTERNAL_ERROR, INTERNAL_MESSAGE, details))
  }

  /** The three classes never share a code: a 500 is never reported as a validation failure, and so on. */
  lemma ClassesAreDistinguishable(a: Thrown, b: Thrown, env: Option<string>)
    requires !a.Api? && !b.Api?
    ensures Handle(a, env).body.code == Handle(b, env).body.code <==> a.Zod? == b.Zod?
  {
  }

  /** In production an unexpected error reveals nothing about itself: the response is the same for all of them. */
  lemma ProductionHidesInternals(a: Thrown, b: Thrown)
    requires a.Other? && b.Other?
    ensures Handle(a, Some("production")) == Handle(b, Some("production"))
  {
  }

  /** Outside production the details carry exactly the error's present `name`, `message` and `stack`. */
  lemma DevelopmentShowsInternals(err: Thrown, env: Option<string>)
    requires err.Other? && env != Some("production")
    ensures var d := Handle(err, env).body.details.value;
      d.Obj?
      && ("name" in d.fields <==> err.name.Some?) && (err.name.Some? ==> d.fields["name"] == err.name.value)
      && ("message" in d.fields <==> err.message.Some?) && (err.message.Some? ==> d.fields["message"] == err.message.value)
      && ("stack" in d.fields <==> err.stack.Some?) && (err.stack.Some? ==> d.fields["stack"] == err.stack.value)
  {
  }
}
