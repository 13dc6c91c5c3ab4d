/** Optional values and outcomes that may fail, used wherever the application
    has `undefined`/`null` or a thrown exception. */
module Wrappers {
  datatype Option<+T> = None | Some(value: T)

  datatype Result<+T, +E> = Ok(value: T) | Err(error: E)
}
