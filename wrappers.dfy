/** Failure-compatible helper datatypes shared by the whole model. */
module Wrappers {

  /** An optional value: Swift's `T?`. */
  datatype Option<+T> = None | Some(value: T) {

    /** The wrapped value, or `default` when absent: Swift's `x ?? default`. */
    function GetOr(default: T): T {
      match this
      case Some(v) => v
      case None => default
    }
  }

  /** The outcome of a call that may throw: `Fail` carries the error's message. */
  datatype Outcome = Pass | Fail(message: string)
}
