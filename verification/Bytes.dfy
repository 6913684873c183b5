/** Bytes, as they travel over a connection. */
module Bytes {
  newtype byte = x: int | 0 <= x < 0x100
}
