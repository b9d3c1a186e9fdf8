/** Optional values and fallible results, used for JavaScript's `undefined`,
    `NaN` and rejected promises throughout the model. */
module Wrappers {

  datatype Option<+T> = None | Some(value: T)

  datatype Result<+T, +E> = Ok(value: T) | Err(error: E)
}
