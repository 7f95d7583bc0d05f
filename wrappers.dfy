/** Failure-compatible wrappers shared by every module of the model. */
module Wrappers {

  /** A value that may be absent (Python's `None`). */
  datatype Option<+T> = None | Some(value: T) {
    function GetOr(default: T): T {
      match this
      case Some(v) => v
      case None => default
    }
  }

  /** The Python exceptions that the modelled code raises or catches. */
  datatype Exception =
    | ValueError   // int() of a malformed string, datetime() of an invalid date
    | KeyError     // a missing dictionary key
    | IndexError   // a list index past the end
    | TypeError    // arithmetic or len() on a value of the wrong JSON type
    | AttributeError // a method called on a value of the wrong JSON type
    | OSError      // a failed file-system write
    | OverflowError // a date computed outside the range `datetime` represents
    | DbError      // a statement rejected by the MySQL server

  /** The outcome of an operation that may raise. */
  datatype Result<+T> = Ok(value: T) | Raised(exc: Exception)
}
