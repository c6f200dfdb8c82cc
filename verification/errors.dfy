/** Failures the quaternion library reports instead of producing a value. */
module Errors {

  /** One constructor per exception the header throws (or assertion it checks). */
  datatype QuaternionError =
    | DivisionByZero         // std::domain_error from scalar division (and the assert in `/=`)
    | InvalidQuaternionSize  // std::invalid_argument from list construction and list assignment
    | IndexOutOfRange        // std::out_of_range from operator[]

  /** The outcome of an operation that can fail: a value, or the error it raised. */
  datatype Result<T> = Ok(value: T) | Err(error: QuaternionError)
}
