/** The errors the core throws, and the result of an operation that may
    throw one. */
module Errors {

  /** BadRequestError, NotFoundError and UnauthorizedError carry the
      message they are thrown with; TypeError stands for the crash of reading
      a property of `undefined`. */
  datatype Error =
    | BadRequest(message: string)
    | NotFound(message: string)
    | Unauthorized
    | TypeError

  datatype Result<+T> = Ok(value: T) | Err(error: Error)
}
