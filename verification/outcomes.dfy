/** Optional values and results with an error, used for the loaded dataset
    (which may be absent) and for the outcome of each chart action. */
module Outcomes {

  datatype Option<+T> = None | Some(value: T)

  datatype Result<+T, +E> = Ok(value: T) | Err(error: E)
}
