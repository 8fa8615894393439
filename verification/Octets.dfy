/** The octets that keys, buffers and encodings are made of. */
module Octets {
  type byte = x: int | 0 <= x < 0x100
}
