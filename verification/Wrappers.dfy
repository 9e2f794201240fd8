/** Optional values and fallible results, as the Rust sources use them. */
module Wrappers {

  datatype Option<+T> = None | Some(value: T) {

    /** The value inside, or the given default. */
    function UnwrapOr(default: T): T {
      if Some? then value else default
    }
  }

  /** A failure-compatible result, so that methods can use `:-` where the source uses `?`. */
  datatype Result<+T, +E> = Ok(value: T) | Err(error: E) {

    predicate IsFailure() {
      Err?
    }

    function PropagateFailure<U>(): Result<U, E>
      requires Err?
    {
      Err(error)
    }

    function Extract(): T
      requires Ok?
    {
      value
    }
  }
}
