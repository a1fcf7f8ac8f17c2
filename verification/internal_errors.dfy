/**
 * The `internalErrors` Express error middleware
 * (src/middlewares/internalErrors.ts): classifies a thrown value and either
 * answers with a status and a JSON body or hands the value to the next
 * error handler.
 */
module ErrorHandling {
  import opened Wrappers
  import opened Values
  import opened Errors

  /** What can reach the middleware: one of the application's errors, a
      schema-validation `ZodError` (by the result of its `format()`), or any
      other object, by its own properties. */
  datatype Thrown =
    | Thrown(error: AppError)
    | ZodError(formatted: Value)
    | OtherError(props: Fields)

  /** Either `response.status(status).json(body)` or `nextFunction(err)`;
      exactly one happens per error. */
  datatype Handling = Respond(status: int, body: Value) | PassToNext(err: Thrown)

  const ValidationFailCode: string := "application/validations-fail"
  const ValidationFailMessage: string := "Validation fails."

  /** `{ code, message }`. */
  function ErrorBody(code: string, message: string): Value {
    Obj([Field("code", StrValue(code)), Field("message", StrValue(message))])
  }

  /** `err[name]`, `undefined` when the property is missing. */
  function Property(props: Fields, name: string): Value {
    Lookup(props, name).GetOr(Undefined)
  }

  function InternalErrors(err: Thrown): (h: Handling)
    ensures err.Thrown? && err.error.ApiError? ==>
      h == Respond(err.error.statusCode, ErrorBody(err.error.Code(), err.error.Message()))
    ensures err.Thrown? && !err.error.ApiError? ==>
      h == Respond(422, ErrorBody(err.error.Code(), err.error.Message()))
    ensures err.ZodError? ==>
      h == Respond(400, Obj([Field("code", StrValue("application/validations-fail")),
                             Field("message", StrValue("Validation fails.")),
                             Field("erros", err.formatted)]))
    ensures err.OtherError? ==>
      (h.Respond? <==> Truthy(Property(err.props, "codePrefix")) && Truthy(Property(err.props, "errorInfo")))
    ensures err.OtherError? && h.Respond? ==> h == Respond(400, Property(err.props, "errorInfo"))
    ensures h.PassToNext? ==> h.err == err && err.OtherError?
  {
    match err
    case Thrown(e) =>
      if e.ApiError? then Respond(e.statusCode, ErrorBody(e.Code(), e.Message()))
      else Respond(422, ErrorBody(e.Code(), e.Message()))
    case ZodError(formatted) =>
      Respond(400, Obj([Field("code", StrValue(ValidationFailCode)),
                        Field("message", StrValue(ValidationFailMessage)),
                        Field("erros", formatted)]))
    case OtherError(props) =>
      if Truthy(Property(props, "codePrefix")) && Truthy(Property(props, "errorInfo")) then
        Respond(400, Property(props, "errorInfo"))
      else PassToNext(err)
  }

  /** Over the whole error taxonomy: every application error is answered,
      with its own status when it has one and 422 otherwise, and its code
      and message as the body. */
  lemma AppErrorResponse(e: AppError)
    ensures InternalErrors(Thrown(e)) == Respond(e.StatusCode().GetOr(422), ErrorBody(e.Code(), e.Message()))
  {
  }

  /** A missing document is answered 422 with its fixed code and message. */
  lemma DocumentNotFoundResponse()
    ensures InternalErrors(Thrown(NewDocumentNotFoundError())) ==
      Respond(422, ErrorBody("application/document-not-found", "Document not found."))
  {
  }
}
