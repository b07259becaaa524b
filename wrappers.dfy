/** Small result types shared by the other modules. */
module Wrappers {

  /** A value that may be absent (Python's `None`). */
  datatype Option<+T> = None | Some(value: T)

  /** The outcome of a call into a foreign library or service: it returned a
      value, it returned nothing (`None`, a falsy result), or it raised. */
  datatype Lookup<+T> = Found(value: T) | NotFound | Raised

  datatype Result<+T, +E> = Ok(value: T) | Err(error: E)
}
