/** The exceptions the container library throws, and the success/failure
    values that stand for "returns normally" or "throws" in this model. */
module Outcomes {

  /** A thrown exception: the standard exception class and its message. */
  datatype Error =
    | OutOfRange(what: string)   // std::out_of_range
    | LengthError(what: string)  // std::length_error

  /** The value of an operation that either returns a `T` or throws. */
  datatype Result<T> = Ok(value: T) | Err(error: Error)

  /** The outcome of an operation that returns nothing or throws. */
  datatype Outcome = Pass | Fail(error: Error)

  /** The value of a call to a `noexcept` function: an exception that
      would leave it calls std::terminate instead. */
  datatype Completion<T> = Returns(value: T) | Terminates

  function Noexcept<T>(r: Result<T>): (c: Completion<T>)
    ensures c.Terminates? <==> r.Err?
    ensures c.Returns? ==> c.value == r.value
  {
    match r
    case Ok(v) => Returns(v)
    case Err(_) => Terminates
  }
}
