/** Optional values and results with an error, used for lookups that may miss
    and for the load pipeline's failure reasons. */
module Wrappers {

  datatype Option<+T> = None | Some(value: T)

  datatype Result<+T, +E> = Ok(value: T) | Err(error: E)
}
