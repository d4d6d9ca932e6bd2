/** The two result shapes the other modules share: a value that may be absent
    and a computation that may raise. */
module Wrappers {

  datatype Option<+T> = None | Some(value: T) {

    function GetOr(default: T): T {
      match this
      case Some(v) => v
      case None => default
    }

    /** `dict.update` on one key: a present value replaces, an absent one keeps. */
    function Else(previous: Option<T>): Option<T> {
      if Some? then this else previous
    }
  }

  datatype Result<+T, +E> = Ok(value: T) | Err(error: E) {

    predicate IsFailure() {
      Err?
    }

    function PropagateFailure<U>(): Result<U, E>
      requires Err?
    {
      Err(error)
    }

    function Extract(): T
      requires Ok?
    {
      value
    }
  }
}
