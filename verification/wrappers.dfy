/** Failure-compatible wrappers shared by the backend and frontend models.
    `Option` stands for a JavaScript value that may be `undefined`;
    `Result` stands for a computation that may throw. */
module Wrappers {

  datatype Option<+T> = None | Some(value: T) {

    /** The wrapped value, or `default` when there is none. */
    function GetOr(default: T): T {
      match this
      case Some(v) => v
      case None => default
    }
  }

  datatype Result<+T, +E> = Ok(value: T) | Err(error: E)
}
