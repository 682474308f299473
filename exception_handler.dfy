/** `BackendGlobalExceptionHandler`: every failure becomes an HTTP status and an error body
    `{success: false, error: {message, code, timestamp}}`; validation failures add a
    `details` map. The timestamp is the clock reading `now`. */
module ExceptionHandler {
  import opened Wrappers
  import opened Strings
  import opened AppErrors

  datatype ErrorBody = ErrorBody(success: bool, message: string, code: string, details: Option<map<string, string>>, timestamp: int)

  datatype ErrorResponse = ErrorResponse(status: int, body: ErrorBody)

  const BadRequest := 400
  const Unauthorized := 401
  const NotFound := 404
  const ConflictStatus := 409
  const InternalServerError := 500

  /** `buildErrorResponse(status, message, code)`: a failure body without details, stamped
      with the current time. */
  function BuildErrorResponse(status: int, message: string, code: string, now: int): (r: ErrorResponse)
    ensures r.status == status && !r.body.success && r.body.details.None?
    ensures r.body.message == message && r.body.code == code && r.body.timestamp == now
  {
    ErrorResponse(status, ErrorBody(false, message, code, None, now))
  }

  /** A field error's message, with "Invalid value" for a missing default message. */
  function MessageOf(fe: FieldError): string
  {
    fe.defaultMessage.GetOr("Invalid value")
  }

  /** The `details` map: each rejected field with the message of its first error. */
  function ValidationErrors(errs: seq<FieldError>): (m: map<string, string>)
    ensures m.Keys == set i | 0 <= i < |errs| :: errs[i].field
  {
    if |errs| == 0 then map[]
    else
      var init := errs[..|errs| - 1];
      var m := ValidationErrors(init);
      var e := errs[|errs| - 1];
      assert (set i | 0 <= i < |errs| :: errs[i].field) == (set i | 0 <= i < |init| :: init[i].field) + {e.field};
      if e.field in m then m else m[e.field := MessageOf(e)]
  }

  /** When the same field is rejected twice, the first message is kept. */
  lemma {:induction false} ValidationKeepsFirst(errs: seq<FieldError>, i: nat)
    requires i < |errs|
    requires forall j :: 0 <= j < i ==> errs[j].field != errs[i].field
    ensures errs[i].field in ValidationErrors(errs)
    ensures ValidationErrors(errs)[errs[i].field] == MessageOf(errs[i])
  {
    var init := errs[..|errs| - 1];
    if i < |errs| - 1 {
      ValidationKeepsFirst(init, i);
    } else {
      assert errs[i].field !in ValidationErrors(init) by {
        assert forall j :: 0 <= j < |init| ==> init[j].field != errs[i].field;
      }
    }
  }

  /** The status of the handler chosen for each failure. */
  function StatusOf(e: AppError): (status: int)
    ensures status in {BadRequest, Unauthorized, NotFound, ConflictStatus, InternalServerError}
    ensures status == Unauthorized <==>
              e.InvalidToken? || e.InvalidCredentials? || e.BadCredentials? || e.Disabled? || e.UsernameNotFound? || e.OtherAuthentication?
    ensures status == InternalServerError <==> e.Runtime? || e.Checked?
    ensures status == BadRequest <==> e.BusinessValidation? || e.ValidationFailed?
  {
    match e
    case UserAlreadyExists(_) => ConflictStatus
    case ResourceNotFound(_) => NotFound
    case BusinessValidation(_, _) => BadRequest
    case ValidationFailed(_) => BadRequest
    case Runtime(_) => InternalServerError
    case Checked(_) => InternalServerError
    case _ => Unauthorized
  }

  /** Whether a `UsernameNotFoundException` says the user is not verified. */
  predicate SaysNotVerified(m: string)
  {
    Contains(m, "User not verified")
  }

  /** The error code of the handler chosen for each failure. */
  function CodeOf(e: AppError): string
  {
    match e
    case UserAlreadyExists(_) => "USER_ALREADY_EXISTS"
    case ResourceNotFound(_) => "RESOURCE_NOT_FOUND"
    case InvalidToken(_, _) => "INVALID_TOKEN"
    case InvalidCredentials(_) => "INVALID_CREDENTIALS"
    case BusinessValidation(_, code) => code
    case ValidationFailed(_) => "VALIDATION_ERROR"
    case BadCredentials(_) => "INVALID_CREDENTIALS"
    case Disabled(_) => "ACCOUNT_NOT_VERIFIED"
    case UsernameNotFound(m) => if SaysNotVerified(m) then "EMAIL_NOT_VERIFIED" else "INVALID_CREDENTIALS"
    case OtherAuthentication(_) => "AUTHENTICATION_ERROR"
    case Runtime(_) => "RUNTIME_ERROR"
    case Checked(_) => "INTERNAL_ERROR"
  }

  /** The message of the handler chosen for each failure. */
  function MessageFor(e: AppError): string
  {
    match e
    case UserAlreadyExists(m) => m
    case ResourceNotFound(m) => m
    case InvalidToken(_, m) => m
    case InvalidCredentials(m) => m
    case BusinessValidation(m, _) => m
    case ValidationFailed(_) => "Validation failed"
    case BadCredentials(_) => "Invalid username/email or password"
    case Disabled(_) => "Account not verified. Please check your email for a verification link."
    case UsernameNotFound(m) =>
      if SaysNotVerified(m) then "Email not verified. Please check your email for a verification link."
      else "Invalid credentials"
    case OtherAuthentication(_) => "Authentication failed"
    case Runtime(m) => m.GetOr("An unexpected error occurred")
    case Checked(_) => "An unexpected error occurred. Please try again later."
  }

  /** The response for each failure: `buildErrorResponse`, except that a validation failure
      also carries its `details` map. */
  function Handle(e: AppError, now: int): (r: ErrorResponse)
    ensures !r.body.success && r.body.timestamp == now
    ensures r.body.details.Some? <==> e.ValidationFailed?
  {
    if e.ValidationFailed? then
      ErrorResponse(BadRequest, ErrorBody(false, "Validation failed", "VALIDATION_ERROR", Some(ValidationErrors(e.fieldErrors)), now))
    else BuildErrorResponse(StatusOf(e), MessageFor(e), CodeOf(e), now)
  }

  /** The application's own exceptions keep their message; each type has one status and
      code, and a business rule supplies its own code. */
  lemma ApplicationErrors(e: AppError, now: int)
    ensures e.UserAlreadyExists? ==> Handle(e, now).status == 409 && Handle(e, now).body.code == "USER_ALREADY_EXISTS" && Handle(e, now).body.message == e.message
    ensures e.ResourceNotFound? ==> Handle(e, now).status == 404 && Handle(e, now).body.code == "RESOURCE_NOT_FOUND" && Handle(e, now).body.message == e.message
    ensures e.InvalidToken? ==> Handle(e, now).status == 401 && Handle(e, now).body.code == "INVALID_TOKEN" && Handle(e, now).body.message == e.message
    ensures e.InvalidCredentials? ==> Handle(e, now).status == 401 && Handle(e, now).body.code == "INVALID_CREDENTIALS" && Handle(e, now).body.message == e.message
    ensures e.BusinessValidation? ==> Handle(e, now).status == 400 && Handle(e, now).body.code == e.errorCode && Handle(e, now).body.message == e.message
  {
  }

  /** No authentication failure echoes the exception's text. */
  lemma SecurityErrorsHideText(m1: string, m2: string, now: int)
    ensures Handle(BadCredentials(m1), now) == Handle(BadCredentials(m2), now)
    ensures Handle(Disabled(m1), now) == Handle(Disabled(m2), now)
    ensures Handle(OtherAuthentication(m1), now) == Handle(OtherAuthentication(m2), now)
  {
    assert StatusOf(BadCredentials(m1)) == StatusOf(BadCredentials(m2)) == Unauthorized;
    assert StatusOf(Disabled(m1)) == StatusOf(Disabled(m2)) == Unauthorized;
    assert StatusOf(OtherAuthentication(m1)) == StatusOf(OtherAuthentication(m2)) == Unauthorized;
  }

  /** A missing user is reported as unverified exactly when the exception's text says so. */
  lemma UnverifiedUserReported(m: string, now: int)
    ensures Handle(UsernameNotFound(m), now).body.code == "EMAIL_NOT_VERIFIED" <==> Contains(m, "User not verified")
  {
  }

  /** Unexpected failures are 500. An unchecked one shows its own message when it has one;
      a checked one never shows anything of its own. */
  lemma UnexpectedErrors(m: Option<string>, m2: Option<string>, now: int)
    ensures Handle(Runtime(m), now).status == 500 && Handle(Checked(m), now).status == 500
    ensures m.Some? ==> Handle(Runtime(m), now).body.message == m.value
    ensures Handle(Checked(m), now) == Handle(Checked(m2), now)
  {
  }

  /** A validation failure reports exactly the rejected fields. */
  lemma ValidationResponse(errs: seq<FieldError>, now: int)
    ensures Handle(ValidationFailed(errs), now).status == 400
    ensures Handle(ValidationFailed(errs), now).body.code == "VALIDATION_ERROR"
    ensures Handle(ValidationFailed(errs), now).body.details.value.Keys == set i | 0 <= i < |errs| :: errs[i].field
  {
  }
}
