/** Failure-carrying wrappers shared by the relayer loop and the protocol client.
    A Go `error` return is an `Option<E>` (None is nil); a Go `(value, error)` pair
    is a `Result<T, E>`. */
module Wrappers {

  datatype Option<+T> = None | Some(value: T)

  datatype Result<+T, +E> = Ok(value: T) | Err(error: E)
}
