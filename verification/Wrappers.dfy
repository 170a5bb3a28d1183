/** The two result types of the model: `None` and `Error` stand for the
    exceptions that the bridge raises. */
module Wrappers {

  datatype Option<+T> = None | Some(value: T) {

    predicate IsFailure() {
      None?
    }

    function PropagateFailure<U>(): Option<U>
      requires None?
    {
      None
    }

    function Extract(): T
      requires Some?
    {
      value
    }
  }

  /** `code` is the status code carried by the service's protocol errors. */
  datatype Result<+T> = Ok(value: T) | Error(code: nat) {

    predicate IsFailure() {
      Error?
    }

    function PropagateFailure<U>(): Result<U>
      requires Error?
    {
      Error(code)
    }

    function Extract(): T
      requires Ok?
    {
      value
    }
  }
}
