/** Failure-carrying wrappers shared by every module of the model. */
module Wrappers {

  /** A value that may be absent: Go's nil, PHP's null, JavaScript's null/undefined. */
  datatype Option<+T> = None | Some(value: T)
  {
    function GetOr(default: T): T
    {
      match this
      case Some(v) => v
      case None => default
    }
  }

  /** The outcome of an operation that returns an error or throws. */
  datatype Result<+T, +E> = Ok(value: T) | Err(error: E)
}
