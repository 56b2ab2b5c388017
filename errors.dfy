/** The HTTP exceptions the services throw, the faults the document store
    raises, and the result type every service operation returns. */
module Errors {

  /** The framework exceptions the services raise, with their messages. */
  datatype HttpError =
    | BadRequest(message: string)
    | Unauthorized(message: string)
    | NotFound(message: string)
    | InternalServerError(message: string)

  /** A service operation either answers with a value or with an HTTP error. */
  datatype Result<+T> = Ok(value: T) | Err(error: HttpError)

  /** Faults the document store can raise from a query or a write:
      a duplicate key (`error.code === 11000`), a schema validation failure
      (`error.name === 'ValidationError'`) and anything else (a lost
      connection, a cast failure, ...). */
  datatype DbFault =
    | DuplicateKey
    | ValidationError(message: string)
    | OtherFault

  /** What reaches a `catch (error)` block: either a store fault or an HTTP
      exception thrown by the service's own code inside the `try`. */
  datatype Thrown =
    | StoreFault(fault: DbFault)
    | Http(error: HttpError)

  /** The message every `handleDBErrors` uses for errors it does not recognise. */
  const CheckLogs: string := "Please check server logs"
}
