/** Octets as numbers, as the codecs and checksums use them. */
module Bytes {
  type Byte = b: nat | b < 256
}
