/** Absence and failure wrappers shared by every module of the model.
    `Option` stands for a JavaScript value that may be `undefined` or `null`;
    `Result` stands for a computation that may throw. */
module Wrappers {

  datatype Option<+T> = None | Some(value: T) {
    function GetOr(default: T): T {
      match this
      case Some(v) => v
      case None => default
    }
  }

  datatype Result<+R, +E> = Ok(value: R) | Err(error: E)
}
