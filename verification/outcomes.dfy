/**
  Outcomes of Python calls: a value that may be `None`, and a call that either returns
  or raises. `Result` supports Dafny's `:-` so that a raise propagates the way an
  uncaught exception does.
*/
module Outcomes {

  datatype Option<T> = None | Some(value: T)

  datatype Result<T, E> = Success(value: T) | Failure(error: E) {
    predicate IsFailure() { Failure? }

    function PropagateFailure<U>(): Result<U, E>
      requires Failure?
    {
      Failure(error)
    }

    function Extract(): T
      requires Success?
    {
      value
    }
  }

  /** What an optional reply contributes to a queue: nothing, or itself. */
  function Elements<T>(o: Option<T>): seq<T>
  {
    if o.Some? then [o.value] else []
  }
}
