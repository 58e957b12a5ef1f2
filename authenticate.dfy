/**
 * The bearer-token middleware (backend/src/middleware/authenticate.ts).
 *
 * `jwt.verify` is a parameter: it yields the token's claims or `None` when
 * it throws. The session check is a parameter too. Every failure is a 401
 * with code `UNAUTHORIZED`; success attaches the request user and calls
 * `next`.
 */
module Authenticate {
  import opened Wrappers
  import opened Strings
  import opened ApiErrors
  import ErrorHandler

  const BEARER := "Bearer "
  const MISSING_TOKEN := "Missing authentication token"
  const INVALID_TOKEN := "Invalid authentication token"
  const SESSION_REVOKED := "Session expired or revoked"

  /** `RequestUser`: `name` and `email` are present only when the token carries non-empty ones. */
  datatype RequestUser = RequestUser(id: string, sessionId: string, name: Option<string>, email: Option<string>)

  /** The claims of a verified token; a claim is absent when the token does not carry it. */
  datatype TokenPayload = TokenPayload(sub: Option<string>, sid: Option<string>, name: Option<string>, email: Option<string>)

  /** A claim that is present and not the empty string (a truthy string in JavaScript). */
  predicate Given(claim: Option<string>) {
    claim.Some? && claim.value != ""
  }

  function Keep(claim: Option<string>): (r: Option<string>)
    ensures r.Some? <==> Given(claim)
    ensures r.Some? ==> r == claim
  {
    if Given(claim) then claim else None
  }

  /** The token in an `Authorization` header: the text after `Bearer `, trimmed; `None` when there is none. */
  function BearerToken(header: Option<string>): (r: Option<string>)
    ensures r.Some? <==> Given(header) && StartsWith(header.value, BEARER) && Trim(header.value[|BEARER|..]) != ""
    ensures r.Some? ==> r.value == Trim(header.value[|BEARER|..]) && r.value != ""
  {
    if !Given(header) || !StartsWith(header.value, BEARER) then None
    else
      var token := Trim(header.value[|BEARER|..]);
      if token == "" then None else Some(token)
  }

  /** `authenticate(req)`: `Ok(user)` is the path that sets `req.user` and calls `next`. */
  function Authenticate(header: Option<string>, verify: string -> Option<TokenPayload>, sessionValid: string -> bool)
    : (r: Result<RequestUser, ApiError>)
  {
    match BearerToken(header)
    case None => Err(Unauthorized(MISSING_TOKEN))
    case Some(token) =>
      match verify(token)
      case None => Err(Unauthorized(INVALID_TOKEN))
      case Some(claims) =>
        if !Given(claims.sub) || !Given(claims.sid) then Err(Unauthorized(INVALID_TOKEN))
        else if !sessionValid(claims.sid.value) then Err(Unauthorized(SESSION_REVOKED))
        else Ok(RequestUser(claims.sub.value, claims.sid.value, Keep(claims.name), Keep(claims.email)))
  }

  // ---------------------------------------------------------------------
  // Properties.

  /** Every failure is a 401 `UNAUTHORIZED` with one of the three messages. */
  lemma FailuresAreUnauthorized(header: Option<string>, verify: string -> Option<TokenPayload>, sessionValid: string -> bool)
    ensures var r := Authenticate(header, verify, sessionValid);
      r.Err? ==> (r.error.status == 401 && r.error.code == "UNAUTHORIZED" && r.error.details == None
        && r.error.message in {MISSING_TOKEN, INVALID_TOKEN, SESSION_REVOKED})
  {
  }

  /** Which failure: no usable bearer token, then bad claims, then a dead session, in that order. */
  lemma FailureChain(header: Option<string>, verify: string -> Option<TokenPayload>, sessionValid: string -> bool)
    ensures var r := Authenticate(header, verify, sessionValid);
      (r == Err(Unauthorized(MISSING_TOKEN)) <==> BearerToken(header).None?)
      && (BearerToken(header).Some? ==>
        var claims := verify(BearerToken(header).value);
        (r == Err(Unauthorized(INVALID_TOKEN)) <==> claims.None? || !Given(claims.value.sub) || !Given(claims.value.sid))
        && (r == Err(Unauthorized(SESSION_REVOKED)) <==>
              claims.Some? && Given(claims.value.sub) && Given(claims.value.sid) && !sessionValid(claims.value.sid.value)))
  {
  }

  /** Success exactly when all checks pass; the user is the token's subject and session, with its non-empty name and email. */
  lemma SuccessIff(header: Option<string>, verify: string -> Option<TokenPayload>, sessionValid: string -> bool)
    ensures var r := Authenticate(header, verify, sessionValid);
      r.Ok? <==> (BearerToken(header).Some?
        && verify(BearerToken(header).value).Some?
        && Given(verify(BearerToken(header).value).value.sub)
        && Given(verify(BearerToken(header).value).value.sid)
        && sessionValid(verify(BearerToken(header).value).value.sid.value))
    ensures var r := Authenticate(header, verify, sessionValid);
      r.Ok? ==> var claims := verify(BearerToken(header).value).value;
        r.value.id == claims.sub.value && r.value.sessionId == claims.sid.value
        && r.value.name == Keep(claims.name) && r.value.email == Keep(claims.email)
  {
  }

  /** White space around the token is ignored, but the scheme must be exactly `Bearer ` with a capital B. */
  lemma HeaderExamples()
    ensures BearerToken(Some("Bearer  abc ")) == Some("abc")
    ensures BearerToken(Some("bearer abc")) == None
    ensures BearerToken(Some("Bearer    ")) == None
  {
    assert "Bearer  abc "[..7] == BEARER;
    assert "Bearer  abc "[7..] == " abc ";
    var padded := " abc ";
    var i, j := TrimSplits(padded);
    assert IsSpace(padded[0]) && !IsSpace(padded[1]) && !IsSpace(padded[3]) && IsSpace(padded[4]);
    assert i == 1;
    assert j == 4;
    assert padded[1..4] == "abc";
    assert "bearer abc"[0] != BEARER[0];
    TrimEmptyIff("Bearer    "[7..]);
  }

  /**
   * Through the error handler every authentication failure is a 401 response
   * with code `UNAUTHORIZED`. This takes the thrown error to reach the error
   * handler, which the async middleware's rejection does under Express 5.
   */
  lemma FailuresRespond401(header: Option<string>, verify: string -> Option<TokenPayload>, sessionValid: string -> bool, env: Option<string>)
    requires Authenticate(header, verify, sessionValid).Err?
    ensures var resp := ErrorHandler.Handle(ErrorHandler.Api(Authenticate(header, verify, sessionValid).error), env);
      resp.status == 401 && resp.body.code == "UNAUTHORIZED" && resp.body.details == None
  {
    FailuresAreUnauthorized(header, verify, sessionValid);
  }

  /** The incoming request: its header, and the user the middleware attaches. */
  class Request {
    var authorization: Option<string>
    var user: Option<RequestUser>

    constructor (authorization: Option<string>)
      ensures this.authorization == authorization && user == None
    {
      this.authorization := authorization;
      user := None;
    }

    /** Runs the middleware: on success `user` is set and `next` is called once; on failure the error is thrown. */
    method Run(verify: string -> Option<TokenPayload>, sessionValid: string -> bool)
      returns (nextCalls: nat, thrown: Option<ApiError>)
      modifies this
      ensures var r := Authenticate(old(authorization), verify, sessionValid);
        (r.Ok? ==> user == Some(r.value) && nextCalls == 1 && thrown == None)
        && (r.Err? ==> user == old(user) && nextCalls == 0 && thrown == Some(r.error))
      ensures authorization == old(authorization)
    {
      var r := Authenticate(authorization, verify, sessionValid);
      if r.Err? {
        return 0, Some(r.error);
      }
      user := Some(r.value);
      nextCalls, thrown := 1, None;
    }
  }
}
