/** Option and Result values shared by every module of the model. */
module Wrappers {

  /** A value that may be absent: Python's `None`, JavaScript's `null`/`undefined`. */
  datatype Option<+T> = None | Some(value: T) {
    function GetOr(default: T): T {
      match this
      case Some(v) => v
      case None => default
    }
  }

  /** The outcome of an operation that either succeeds or raises. */
  datatype Result<+R, +E> = Ok(value: R) | Err(error: E)

  /** An HTTPException raised by a route: status code and `detail` text. */
  datatype HttpError = HttpError(status: int, detail: string)
}
