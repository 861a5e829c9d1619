/** uint8_t */
module Octets {
  type Octet = b: int | 0 <= b < 256
}
