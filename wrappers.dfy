/** Option and Result, the two failure-carrying shapes used by the model. */
module Wrappers {

  datatype Option<+T> = None | Some(value: T)

  /** A Go pair `(value, err)` in which exactly one side is meaningful. */
  datatype Result<+T, +E> = Ok(value: T) | Err(error: E)
}
