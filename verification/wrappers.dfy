/** Option and Result: the absent value of Python's `None` and the raised
    exception of a call that can fail, made explicit. */
module Wrappers {

  datatype Option<+T> = None | Some(value: T) {

    /** Returns the value held in Some, or `default` for None (Python's `x or default`
        on a value that is either present or absent). */
    function GetOr(default: T): T {
      match this
      case Some(v) => v
      case None => default
    }
  }

  /** Success carries a call's return value; Failure carries the text of the
      exception it raised (`str(e)` in the source). */
  datatype Result<+R> = Success(value: R) | Failure(error: string)
}
