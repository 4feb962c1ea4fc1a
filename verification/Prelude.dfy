/** Types and notions shared by every part of the model. */
module Prelude {
  newtype byte = x: int | 0 <= x < 0x100

  type bytes = seq<byte>

  datatype Option<+T> = None | Some(value: T)

  /** The JSON text {}. */
  const EMPTY_OBJECT: bytes := [0x7B, 0x7D]

  /** `part` occurs in `s`, as strings.Contains and bytes.Contains say. */
  predicate Contains<T(==)>(s: seq<T>, part: seq<T>) {
    exists i {:trigger s[i..]} :: 0 <= i <= |s| && part <= s[i..]
  }
}
