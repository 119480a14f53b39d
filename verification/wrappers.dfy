/** How the model says "this may be missing" and "this may raise": `Option` for a
    position or a parsed value that may not exist, `Result` for a step that either
    returns a value or raises with an error (usable with `:-`), and `Outcome` for a
    collaborator call that either completes or raises. */
module Wrappers {

  datatype Option<+T> = None | Some(value: T)

  datatype Result<+T, +E> = Success(value: T) | Failure(error: E) {

    predicate IsFailure() {
      Failure?
    }

    function PropagateFailure<U>(): Result<U, E>
      requires Failure?
    {
      Failure(error)
    }

    function Extract(): T
      requires Success?
    {
      value
    }
  }

  /** The outcome of a collaborator call that returns nothing of interest. */
  datatype Outcome<+E> = Pass | Fail(error: E)
}
