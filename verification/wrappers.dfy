/** Optional values and results with an error, used for Ruby's nil and raised exceptions. */
module Wrappers {

  /** `None` stands for Ruby's nil. */
  datatype Option<+T> = None | Some(value: T)

  /** `Err` stands for an exception that propagates to the caller. */
  datatype Result<+T, +E> = Ok(value: T) | Err(error: E)
}
