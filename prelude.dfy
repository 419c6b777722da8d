/** Small failure-carrying datatypes shared by every module of the model. */
module Prelude {

  /** A value that may be absent: Python's `None` versus a present value. */
  datatype Option<+T> = None | Some(value: T) {

    /** The present value, or `default` when absent (Python's `x or default`). */
    function GetOr(default: T): T {
      match this
      case Some(v) => v
      case None => default
    }
  }

  /** The outcome of an operation that the source lets raise: `Err` carries the message. */
  datatype Result<+T> = Ok(value: T) | Err(message: string)
}
