/** Bytes, as files, pipes and digests see them. */
module Octets {
  type Byte = b: int | 0 <= b < 256
  type Bytes = seq<Byte>
}
