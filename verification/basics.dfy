/** Small shared vocabulary: an optional value (the C# `null` reference) and bytes. */
module Basics {

  /** A value that may be absent; `None` plays the part of a C# `null` reference. */
  datatype Option<+T> = None | Some(value: T)

  /** One octet, as held in a `byte[]` buffer. */
  newtype byte = b: int | 0 <= b < 256

  function Min(a: int, b: int): int
  {
    if a <= b then a else b
  }
}
