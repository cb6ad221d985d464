/** Small value wrappers shared by the models: Java's null results and thrown exceptions become values. */
module Outcomes {

  datatype Option<+T> = None | Some(value: T)

  datatype Result<+T, +E> = Ok(value: T) | Err(error: E)

  /** The outcome of an operation that returns nothing: it completes or throws. */
  datatype Outcome<+E> = Pass | Fail(error: E)
}
