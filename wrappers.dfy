/** Optional values and error-carrying results, used for the places where the
    JavaScript source has `undefined` or throws. */
module Wrappers {

  datatype Option<T> = None | Some(value: T)

  datatype Result<T, E> = Ok(value: T) | Err(error: E)
}
