/**
 * The error objects the service throws and the server hook inspects.
 * The classes InvariantError and NotFoundError (src/exceptions/) are not part of
 * this model; an error is described by the outcome of the hook's two
 * `instanceof` tests, its message and the status code hapi attaches to it.
 */
module Exceptions {

  datatype ErrorObj = ErrorObj(
    isInvariantError: bool,   // response instanceof InvariantError
    isNotFoundError: bool,    // response instanceof NotFoundError
    message: string,
    outputStatusCode: int)    // response.output.statusCode, set by hapi

  /** hapi wraps an error that carries no status of its own as an internal server error. */
  const WrappedErrorStatus := 500

  function InvariantError(message: string): (e: ErrorObj)
    ensures e.isInvariantError && !e.isNotFoundError && e.message == message
  {
    ErrorObj(true, false, message, WrappedErrorStatus)
  }

  function NotFoundError(message: string): (e: ErrorObj)
    ensures !e.isInvariantError && e.isNotFoundError && e.message == message
  {
    ErrorObj(false, true, message, WrappedErrorStatus)
  }
}
