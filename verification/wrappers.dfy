/** Failure-compatible result types shared by every service of the backend. */
module Wrappers {

  datatype Option<+T> = None | Some(value: T)

  /** The exceptions the services raise, with the message text they carry.
      `ServerError` is a plain `Error` (answered as HTTP 500); `StoreFailure`
      is a constraint violation of the database that the service lets escape. */
  datatype Error =
    | NotFound(message: string)
    | BadRequest(message: string)
    | Conflict(message: string)
    | ServerError(message: string)
    | StoreFailure

  datatype Result<+T> = Ok(value: T) | Err(error: Error) {

    predicate IsFailure() {
      Err?
    }

    function PropagateFailure<U>(): Result<U>
      requires Err?
    {
      Err(error)
    }

    function Extract(): T
      requires Ok?
    {
      value
    }
  }
}
