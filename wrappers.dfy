/** Option and Result, the two outcome shapes used throughout the model. */
module Wrappers {

  /** An optional value: a JSON key that may be absent, a query parameter that may be missing. */
  datatype Option<+T> = None | Some(value: T) {

    /** The value when there is one, otherwise `default`. */
    function GetOr(default: T): T
    {
      match this
      case Some(v) => v
      case None => default
    }
  }

  /** Either a value or an error, as returned by a schema's safeParse. */
  datatype Result<+T, +E> = Ok(value: T) | Err(error: E)
}
