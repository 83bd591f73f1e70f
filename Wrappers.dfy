/** Failure-compatible result types shared by every module of the model.
    Go's `(value, error)` pairs become `Result`; Go's nil references and
    "comma ok" lookups become `Option`. */
module Wrappers {

  datatype Option<+T> = None | Some(value: T)

  /** An operation that either yields a value or fails with the error text
      the Go code builds. */
  datatype Result<+T> = Ok(value: T) | Err(msg: string) {
    predicate IsFailure() {
      Err?
    }

    function PropagateFailure<U>(): Result<U>
      requires Err?
    {
      Err(msg)
    }

    function Extract(): T
      requires Ok?
    {
      value
    }
  }
}
