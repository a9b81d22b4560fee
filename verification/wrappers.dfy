/** Failure-carrying wrappers shared by the whole model. */
module Wrappers {

  /** A value that may be absent: a failed read, a failed parse. */
  datatype Option<+T> = None | Some(value: T) {
    function GetOr(default: T): T {
      match this
      case Some(v) => v
      case None => default
    }
  }

  /** The outcome of Go code that can panic (an index out of range):
      either it returns a value or the program panics. */
  datatype Run<+T> = Returns(value: T) | Panics
}
