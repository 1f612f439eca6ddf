/** Swift optionals and thrown errors as datatypes: `T?` becomes `Option`,
    `throws` becomes `Result` or `Outcome`. */
module Wrappers {

  /** Swift's `T?`. */
  datatype Option<+T> = None | Some(value: T)

  /** The value of a throwing call: either what it returned or what it threw. */
  datatype Result<+R, +E> = Success(value: R) | Failure(error: E)

  /** The completion of a throwing call that returns nothing. */
  datatype Outcome<+E> = Pass | Fail(error: E)
}
