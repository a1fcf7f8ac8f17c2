/**
 * The application's error taxonomy (src/exceptions): a base `AppError`
 * carrying a message and a code, `ApiError` adding an HTTP status, and the
 * fixed `DocumentNotFoundError`. Every field is set once by the constructor
 * and is read-only afterwards, which immutable datatype values give for free.
 */
module Errors {
  import opened Wrappers

  const DocumentNotFoundMessage: string := "Document not found."
  const DocumentNotFoundCode: string := "application/document-not-found"

  /** Every error the code base throws on purpose is an `AppError`; the
      constructors are its three classes. */
  datatype AppError =
    | AppError(message: string, code: string)
    | ApiError(message: string, code: string, statusCode: int)
    | DocumentNotFoundError
  {
    function Message(): string {
      match this
      case DocumentNotFoundError => DocumentNotFoundMessage
      case _ => message
    }

    function Code(): string {
      match this
      case DocumentNotFoundError => DocumentNotFoundCode
      case _ => code
    }

    /** Only an `ApiError` carries a status code. */
    function StatusCode(): Option<int> {
      if ApiError? then Some(statusCode) else None
    }
  }

  /** `new AppError(message, code)`: both arguments required, stored as given. */
  function NewAppError(message: string, code: string): (e: AppError)
    ensures e.Message() == message && e.Code() == code
    ensures e.StatusCode() == None
  {
    AppError(message, code)
  }

  /** `new ApiError(message, code, statusCode = 400)`: message and code go
      to the `AppError` part unchanged, the status is stored as given. */
  function NewApiError(message: string, code: string, statusCode: int := 400): (e: AppError)
    ensures e.Message() == message && e.Code() == code
    ensures e.StatusCode() == Some(statusCode)
  {
    ApiError(message, code, statusCode)
  }

  /** An `ApiError` built without a status answers 400. */
  lemma ApiErrorDefaultStatus(message: string, code: string)
    ensures NewApiError(message, code).StatusCode() == Some(400)
  {
  }

  /** `new DocumentNotFoundError()`: no arguments, so every instance is the
      same; it is an `AppError` without a status code. */
  function NewDocumentNotFoundError(): (e: AppError)
    ensures e.Message() == "Document not found."
    ensures e.Code() == "application/document-not-found"
    ensures e.StatusCode() == None
  {
    DocumentNotFoundError
  }
}
