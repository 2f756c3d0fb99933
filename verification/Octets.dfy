/** Bytes and byte strings. */
module Octets {
  newtype Byte = x: int | 0 <= x < 256
  type Bytes = seq<Byte>
}
