/** Result and error types shared by every service of the backend.

    A NestJS handler either returns a value or throws one of the framework's
    HTTP exceptions; `Result` carries the value or the exception. `Attempt`
    stands for a promise of a collaborator that the model does not interpret
    (a database query, an HTTP call): it either resolves to a value or
    rejects with an error message.
 */
module Wrappers {

  datatype Option<+T> = None | Some(value: T)

  /** The NestJS HTTP exceptions the core throws, with their message. */
  datatype HttpError =
    | BadRequest(message: string)
    | Unauthorized(message: string)
    | Forbidden(message: string)
    | NotFound(message: string)
    | InternalServerError(message: string)

  datatype Result<+T> = Ok(value: T) | Err(error: HttpError)

  /** The settled state of a promise returned by an uninterpreted collaborator. */
  datatype Attempt<+T> = Returned(value: T) | Threw(message: string)
}
