/** Optional values and results with an error, used for the places where the
    modelled program may have nothing to give back or would raise. */
module Wrappers {

  datatype Option<+T> = None | Some(value: T)

  datatype Result<+T, +E> = Ok(value: T) | Err(error: E)
}
