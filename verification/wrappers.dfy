/** Failure-carrying datatypes used to model the exceptions the scripts raise. */
module Wrappers {

  /** A value that may be absent: Python's `None` or a missing dictionary key. */
  datatype Option<+T> = None | Some(value: T) {

    /** The carried value, or `default` when there is none. */
    function GetOr(default: T): T {
      match this
      case Some(v) => v
      case None => default
    }
  }

  /** Either a result or the exception that replaced it. */
  datatype Result<+R, +E> = Success(value: R) | Failure(error: E)

  /** Normal return (`Pass`) or the exception that escaped (`Fail`). */
  datatype Outcome<+E> = Pass | Fail(error: E)
}
