/** Failure-compatible result types shared by every module of the model. */
module Wrappers {

  /** An optional value: `None` stands for a C++ null pointer, a missing JSON
      member, or JavaScript's `undefined`. */
  datatype Option<+T> = None | Some(value: T) {
    function GetOr(default: T): T {
      match this
      case Some(v) => v
      case None => default
    }
  }

  /** The outcome of an operation that can throw: `Err` carries the exception. */
  datatype Result<+T, +E> = Ok(value: T) | Err(error: E) {
    predicate IsFailure() {
      Err?
    }

    function PropagateFailure<U>(): Result<U, E>
      requires Err?
    {
      Err(error)
    }

    function Extract(): T
      requires Ok?
    {
      value
    }

    /** Rewraps the error, keeping a success as it is. */
    function MapFailure<NewE>(f: E -> NewE): (r: Result<T, NewE>)
      ensures Ok? <==> r.Ok?
      ensures Ok? ==> r.value == value
      ensures Err? ==> r.error == f(error)
    {
      match this
      case Ok(v) => Ok(v)
      case Err(e) => Err(f(e))
    }
  }
}
