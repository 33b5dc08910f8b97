/** Optional values and results with an error, used for nullable columns and for the
    error responses of the controllers. */
module Wrappers {

  datatype Option<+T> = None | Some(value: T)

  datatype Result<+T, +E> = Ok(value: T) | Err(error: E)
}
