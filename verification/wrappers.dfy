/** Failure-carrying values used throughout the model. */
module Wrappers {

  /** An optional value: a field that the configuration file may leave out. */
  datatype Option<+T> = None | Some(value: T) {

    /** The value when present, `default` otherwise. */
    function UnwrapOr(default: T): T {
      match this
      case Some(v) => v
      case None => default
    }
  }

  /** The outcome of an operation that either yields a value or fails with an error. */
  datatype Result<+R, +E> = Ok(value: R) | Err(error: E)
}
