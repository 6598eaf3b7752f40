/** The controller advice: each exception kind that escapes a service call
    becomes an HTTP status and an error envelope. */
module GlobalExceptionHandler {
  import opened Common
  import opened ApiResponses

  const BadRequest: int := 400
  const Forbidden: int := 403
  const NotFound: int := 404
  const InternalServerError: int := 500

  /** A `ResponseEntity<ApiResponse<Nothing>>`. */
  datatype ErrorResponse = ErrorResponse(status: int, body: ApiResponse<Unit>)

  /** `"${field}: ${defaultMessage}"`; a null message is printed as `null`. */
  function FieldErrorText(e: FieldError): string
  {
    e.field + ": " + GetOr(e.defaultMessage, "null")
  }

  /** `joinToString(", ")` of the field errors. */
  function JoinFieldErrors(errors: seq<FieldError>): (s: string)
    ensures errors == [] ==> s == ""
    ensures |errors| == 1 ==> s == FieldErrorText(errors[0])
  {
    if errors == [] then ""
    else if |errors| == 1 then FieldErrorText(errors[0])
    else JoinFieldErrors(errors[..|errors| - 1]) + ", " + FieldErrorText(errors[|errors| - 1])
  }

  /** Joining a longer list adds the separator and the next item. */
  lemma JoinFieldErrorsAppend(errors: seq<FieldError>, e: FieldError)
    requires errors != []
    ensures JoinFieldErrors(errors + [e]) == JoinFieldErrors(errors) + ", " + FieldErrorText(e)
  {
    assert (errors + [e])[..|errors|] == errors;
  }

  /** The handler Spring selects for the exception, and what it answers. */
  function Handle(ex: Exception): (r: ErrorResponse)
    ensures !r.body.success && r.body.data.None? && r.body.error.Some?
    ensures r.status == NotFound <==> ex.NoSuchElement? || ex.EntityNotFound?
    ensures r.status == BadRequest <==> ex.IllegalArgument? || ex.ArgumentNotValid?
    ensures r.status == Forbidden <==> ex.AccessDenied?
    ensures r.status == InternalServerError <==> ex.IllegalState? || ex.Other?
  {
    match ex
    case EntityNotFound(m) => ErrorResponse(NotFound, Error(GetOr(m, "Resource not found")))
    case NoSuchElement(m) => ErrorResponse(NotFound, Error(GetOr(m, "Resource not found")))
    case IllegalArgument(m) => ErrorResponse(BadRequest, Error(GetOr(m, "Invalid request")))
    case ArgumentNotValid(errors) =>
      ErrorResponse(BadRequest, Error("Validation failed: " + JoinFieldErrors(errors)))
    case AccessDenied(m) => ErrorResponse(Forbidden, Error(GetOr(m, "Access denied")))
    case IllegalState(_) => ErrorResponse(InternalServerError, Error("Internal server error"))
    case Other(_) => ErrorResponse(InternalServerError, Error("Internal server error"))
  }

  /** The message of the envelope: the exception's own message when it has
      one, else the fixed default of its handler; the catch-all handler never
      reveals the exception's message. */
  lemma HandledMessages(ex: Exception)
    ensures (ex.NoSuchElement? || ex.EntityNotFound?) ==>
      Handle(ex).body.error == Some(GetOr(ex.message, "Resource not found"))
    ensures ex.IllegalArgument? ==> Handle(ex).body.error == Some(GetOr(ex.message, "Invalid request"))
    ensures ex.AccessDenied? ==> Handle(ex).body.error == Some(GetOr(ex.message, "Access denied"))
    ensures ex.ArgumentNotValid? ==>
      Handle(ex).body.error == Some("Validation failed: " + JoinFieldErrors(ex.fieldErrors))
    ensures (ex.IllegalState? || ex.Other?) ==> Handle(ex).body.error == Some("Internal server error")
  {
  }

  /** Every status the handler answers with is one of four. */
  lemma HandledStatuses(ex: Exception)
    ensures Handle(ex).status in {BadRequest, Forbidden, NotFound, InternalServerError}
  {
  }
}
