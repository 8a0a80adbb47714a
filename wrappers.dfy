/** Option and Result values shared by every module of the model. */
module Wrappers {

  datatype Option<+T> = None | Some(value: T) {
    /** The value, or `default` when there is none (Python's `dict.get(k, default)`). */
    function GetOr(default: T): T {
      match this
      case Some(v) => v
      case None => default
    }
  }

  /** A computation that either produced a value or raised an error. */
  datatype Result<+T, +E> = Ok(value: T) | Err(error: E)
}
