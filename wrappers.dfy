/** Option and Result: NaN cells and the per-stage RuntimeError of the pipeline. */
module Wrappers {

  /** `None` stands for pandas' NaN (a missing or undefined cell). */
  datatype Option<+T> = None | Some(value: T)

  datatype Result<+R, +E> = Success(value: R) | Failure(error: E)
}
