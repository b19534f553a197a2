/** The exceptions the Figure and Plot classes throw, as values.  An operation
    that throws in the source returns `Fail` here and leaves the object as it
    was. */
module Errors {

  datatype Error =
    | OutOfRange(what: string)       // std::out_of_range
    | InvalidArgument(what: string)  // std::invalid_argument
    | RuntimeError(what: string)     // std::runtime_error

  /** Outcome of an operation that returns `void` in the source. */
  datatype Outcome = Pass | Fail(error: Error)

  /** Outcome of a constructor that may throw. */
  datatype Result<T> = Ok(value: T) | Err(error: Error)
}
