/** Go's byte, as an integer in 0..255. */
module Bytes {
  type Byte = b: int | 0 <= b < 256
}
