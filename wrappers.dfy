/** Optional values and results with an error, used for the values loaded from
    storage, the operator's selection and the scaler's division by zero. */
module Wrappers {
  datatype Option<+T> = None | Some(value: T)

  datatype Result<+T, +E> = Ok(value: T) | Err(error: E)
}
