/** Option and the three-way result of a translation step. */
module Wrappers {

  /** Rust's `Option`. */
  datatype Option<+T> = None | Some(value: T)

  /**
   * The outcome of a translator function: `Ok` is `Ok(String)`, `Err` is an
   * `anyhow` error carrying its message, and `Panic` is a call to
   * `unimplemented!()` or an `unwrap()` on an error. With `:-`, both failures
   * propagate unchanged, as Rust's `?` (and unwinding) do.
   */
  datatype Result<+T> = Ok(value: T) | Err(message: seq<char>) | Panic {
    predicate IsFailure() {
      !Ok?
    }

    function PropagateFailure<U>(): Result<U>
      requires !Ok?
    {
      if Err? then Err(message) else Panic
    }

    function Extract(): T
      requires Ok?
    {
      value
    }
  }
}
