// Option and Result, the two sum types the rest of the model is written with, and the
// machine word.
module Wrappers {
  const USIZE_MAX := 0xFFFF_FFFF_FFFF_FFFF

  datatype Option<+T> = None | Some(value: T)

  datatype Result<+T, +E> = Ok(value: T) | Err(error: E)
}
