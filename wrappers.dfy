/** Option and Result, the failure-carrying values the rest of the model uses
    in place of Python's None and raised exceptions. */
module Wrappers {

  datatype Option<+T> = None | Some(value: T)

  /** `Err` carries the text that Python's `str(e)` would give for the raised exception. */
  datatype Result<+T> = Ok(value: T) | Err(error: string)
}
