/**
 * Shared result types. `Failure` is the error a service throws: the
 * `httpErrors.notFound` / `httpErrors.badRequest` helpers of the HTTP layer
 * carry a status code, the database client's known request errors carry a
 * `P…` code, and any other thrown `Error` carries only a message.
 */
module Wrappers {

  datatype Option<+T> = None | Some(value: T)

  datatype Failure =
    | NotFound(message: string)
    | BadRequest(message: string)
    | PrismaKnown(code: string, message: string)
    | Thrown(message: string)
  {
    /** `error?.message || default`: an empty message counts as absent. */
    function MessageOr(default: string): string {
      if message != "" then message else default
    }
  }

  datatype Result<+T> = Ok(value: T) | Err(error: Failure)
}
