/** Option and Result, for values the source may leave out (None) and for
    operations that can raise instead of returning. */
module Wrappers {

  datatype Option<+T> = None | Some(value: T)

  datatype Result<+T, +E> = Ok(value: T) | Err(error: E)
}
