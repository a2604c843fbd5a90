// Small result types shared by the modules: an optional value and a result
// that may carry an error instead of a value.
module Wrappers {

  /** The number of a plan step. */
  datatype Id = Id(num: int)

  datatype Option<+T> = None | Some(value: T)

  datatype Result<+T, +E> = Ok(value: T) | Err(error: E)
}
