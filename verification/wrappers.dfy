/** Option and Result datatypes shared by the dashboard model. */
module Wrappers {

  /** A value that may be absent: a missing JSON key, an unset selection. */
  datatype Option<+T> = None | Some(value: T) {

    /** The held value, or `default` when absent (Python's `d.get(k, default)`). */
    function GetOr(default: T): T {
      match this
      case Some(v) => v
      case None => default
    }
  }

  /** Either a computed value or the text of the exception that stopped it. */
  datatype Result<+R> = Success(value: R) | Failure(error: string)
}
