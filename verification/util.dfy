/** Small wrapper types shared by the other modules. */
module Util {

  /** An optional value: a query's `.first()` that may find nothing. */
  datatype Option<+T> = None | Some(value: T) {
    function GetOr(default: T): T {
      match this
      case Some(v) => v
      case None => default
    }
  }

  /** Either a value or the reason a request was refused. */
  datatype Result<+T, +E> = Ok(value: T) | Err(error: E)
}
