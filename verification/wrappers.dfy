/** Optional values and fallible results, as the contracts return them. */
module Wrappers {

  /** An optional value: `Option<T>` in the contracts. */
  datatype Option<+T> = None | Some(value: T) {

    /** `unwrap_or`: the value if present, else `fallback`. */
    function GetOr(fallback: T): T {
      if Some? then value else fallback
    }
  }

  /**
   * `StdResult<T>` in the contracts. The three members below let `:-` pass
   * an error on unchanged, as the contracts' `?` does.
   */
  datatype Result<+T, +E> = Ok(value: T) | Err(error: E) {

    predicate IsFailure() {
      Err?
    }

    function PropagateFailure<U>(): Result<U, E>
      requires Err?
    {
      Err(error)
    }

    function Extract(): T
      requires Ok?
    {
      value
    }
  }

  /** A check that either passes or fails with an error: `StdResult<()>`. */
  datatype Outcome<+E> = Pass | Fail(error: E)
}
