/** Octets as they travel over the serial and GATT links. */
module Bytes {
  type byte = x: int | 0 <= x < 256
}
