/** Bytes as the proxy reads and writes them. */
module Bytes {
  /** One octet of a `bytes` object. */
  type Byte = b: int | 0 <= b < 256

  /** `BUFFER_SIZE`: the most any single socket read returns. */
  const BUFFER_SIZE: nat := 4096
}
