/** Declarations the other modules share. */
module Basics {
  datatype Option<+T> = None | Some(value: T)

  type Byte = x: int | 0 <= x < 256
  type Bytes = seq<Byte>

  const TwoTo64: nat := 0x1_0000_0000_0000_0000
}
