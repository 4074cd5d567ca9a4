/** Option and Result, the shapes used for Python's `None` returns and raised exceptions. */
module Wrappers {

  datatype Option<+T> = None | Some(value: T)

  /** The Python exception classes the modelled code raises or catches. */
  datatype Error =
    | ValueError(msg: string)
    | TypeError(msg: string)
    | FileNotFoundError(msg: string)
    | ZeroDivisionError

  datatype Result<+R> = Ok(value: R) | Err(error: Error)
}
