/** Option and Result values used for Python's `None` and for raised exceptions. */
module Wrappers {

  datatype Option<+T> = None | Some(value: T) {
    function GetOr(default: T): T {
      match this
      case Some(v) => v
      case None => default
    }
  }

  /** `Err` stands for a raised exception (an `assert` that fails, an IndexError, ...). */
  datatype Result<+R> = Ok(value: R) | Err(message: string)
}
