/** Optional values and success/failure results used across the model. */
module Wrappers {

  /** `None` stands for a quantity the calculator cannot give a finite value to. */
  datatype Option<+T> = None | Some(value: T)

  datatype Result<+T, +E> = Success(value: T) | Failure(error: E)
}
