/** Value types shared by the registries and the buses: optional values, the
    `Result` a handler returns, and the outcome of a call that may panic. */
module Outcomes {

  /** `Option<T>` as returned by `get_handler`. */
  datatype Option<+T> = None | Some(value: T)

  /** A handler's `Result<Response, Error>`; events use `Result<(), Error>`. */
  datatype Result<+T, +E> = Ok(value: T) | Err(error: E)

  /** The two fatal conditions of the core: a Command/Query dispatched with no
      handler registered for its type, and an `expect` on a failed downcast
      inside the type-erasure layer. */
  datatype Panic = NoHandler | DowncastFailed

  /** A call that either returns normally or panics (aborts the current call). */
  datatype Outcome<+T> = Returned(value: T) | Panicked(cause: Panic)
}
