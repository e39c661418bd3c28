/** The error responses the handlers return, and a reply type that is
    either a success body or one of them. */
module Responses {

  /** The HTTP statuses 400, 401, 403, 404 and 500. */
  datatype Status = BadRequest | Unauthorized | Forbidden | NotFound | ServerError

  datatype Reply<+T> = Ok(value: T) | Failure(status: Status, message: string)

  /** `error_401()` and friends, each with its default message. */
  function Error401<T>(): Reply<T> { Failure(Unauthorized, "unauthorized") }
  function Error403<T>(): Reply<T> { Failure(Forbidden, "forbidden") }
  function Error404<T>(): Reply<T> { Failure(NotFound, "not found") }
  function Error400<T>(message: string): Reply<T> { Failure(BadRequest, message) }
  function Error500<T>(): Reply<T> { Failure(ServerError, "Server internal fatal_error") }
}
