/** Option and Result, and the four exception classes the services throw. */
module Wrappers {
  datatype Option<+T> = None | Some(value: T)

  datatype Result<+T, +E> = Ok(value: T) | Err(error: E)

  /** BadRequestException, NotFoundException, ConflictException and ForbiddenException. */
  datatype Error = BadRequest | NotFound | Conflict | Forbidden

  datatype Unit = Unit
}
