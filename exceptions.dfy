/** Failure values shared by both array containers.
    The containers signal failure by throwing one of two standard exception
    classes; here a call that would throw returns the matching error value
    instead, and a call that would return normally returns Ok/Pass. */
module Exceptions {

  /** `std::out_of_range` (bad index) and `std::runtime_error` (removal from an
      empty array, or an initializer list of the wrong length). */
  datatype Error = OutOfRange | RuntimeError

  /** The outcome of an accessor that yields a value on success. */
  datatype Result<T> = Ok(value: T) | Err(error: Error)

  /** The outcome of a mutator that yields nothing on success. */
  datatype Outcome = Pass | Fail(error: Error)
}
