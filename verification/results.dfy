/** Failure-compatible wrappers shared by every module of the model.

    flockmtl signals errors by throwing `std::runtime_error`,
    `std::invalid_argument` or a JSON `type_error`; here every such throw is
    an `Err` carrying the exception's message, and `:-` propagates it the way
    the exception unwinds to the caller.
 */
module Results {

  /** An optional value: a lookup that may find no row. */
  datatype Option<+T> = None | Some(value: T)

  /** The outcome of an operation that either returns a value or throws. */
  datatype Result<+T> = Ok(value: T) | Err(error: string) {

    predicate IsFailure() {
      Err?
    }

    function PropagateFailure<U>(): Result<U>
      requires Err?
    {
      Err(error)
    }

    function Extract(): T
      requires Ok?
    {
      value
    }
  }

  /** The outcome of a check that returns nothing or throws. */
  datatype Outcome = Pass | Fail(error: string) {

    predicate IsFailure() {
      Fail?
    }

    function PropagateFailure<U>(): Result<U>
      requires Fail?
    {
      Err(error)
    }
  }
}
