/** Shared value types. A Go string is a sequence of bytes; `text` keeps that, one octet per element. */
module Prelude {
  type byte = x: int | 0 <= x < 256
  type octet = c: char | c as int < 256 witness 'a'
  type text = seq<octet>

  datatype Option<+T> = None | Some(value: T)
  datatype Result<+T, +E> = Ok(value: T) | Err(error: E)
}
