/** Failure-compatible result types shared by every module of the model. */
module Wrappers {

  datatype Option<+T> = None | Some(value: T)

  /** The kinds of failure the collager signals.
      IllegalArgument and IllegalState are the two unchecked exceptions the model
      package throws on purpose; Malformed stands for every other runtime failure
      a malformed input provokes (a missing token, a token that is not an int,
      a negative array size, an index out of range). */
  datatype Error = IllegalArgument | IllegalState | Malformed

  /** The value of a computation that may throw. */
  datatype Result<+T> = Ok(value: T) | Err(error: Error) {

    predicate IsFailure() {
      Err?
    }

    function PropagateFailure<U>(): Result<U>
      requires Err?
    {
      Err(error)
    }

    function Extract(): T
      requires Ok?
    {
      value
    }
  }

  /** The outcome of a void method that may throw. */
  datatype Outcome = Pass | Fail(error: Error) {

    predicate IsFailure() {
      Fail?
    }

    function PropagateFailure(): Outcome
      requires Fail?
    {
      this
    }
  }
}
