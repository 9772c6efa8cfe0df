/** Option and Result: the model's stand-ins for Python's `None`/`False`
    sentinels and for raised exceptions. */
module Wrappers {

  datatype Option<+T> = None | Some(value: T)

  /** `Err` stands for an exception raised by the source; `Ok` for a normal return. */
  datatype Result<+T, +E> = Ok(value: T) | Err(error: E)
}
