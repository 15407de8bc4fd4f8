/** Failure-carrying values shared by every module of the model. */
module Wrappers {

  datatype Option<+T> = None | Some(value: T) {
    /** `value` when present, `default` otherwise (Python's `dict.get(key, default)`). */
    function GetOr(default: T): T {
      if Some? then value else default
    }
  }

  /** A computation that either yields a value or raises an exception. */
  datatype Result<+T, +E> = Ok(value: T) | Err(error: E)
}
