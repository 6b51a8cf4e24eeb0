/** Bytes, as the scanner and the codec read them. */
module Octets {
  type byte = b: int | 0 <= b < 256
}
