/** Result types: what an awaited call can do to its caller. */
module Outcomes {

  datatype Option<+T> = None | Some(value: T)

  /** A call to the execution worker either raises or answers. */
  datatype Reply<+T> = Raised | Got(value: T)

  /** Every await may be the last thing the process does.  `Crashed` is propagated
      with `:-`, so the process stops at exactly the await that crashed. */
  datatype Await<+T> = Crashed | Done(value: T) {
    predicate IsFailure() {
      Crashed?
    }

    function PropagateFailure<U>(): Await<U>
      requires Crashed?
    {
      Crashed
    }

    function Extract(): T
      requires Done?
    {
      value
    }
  }
}
