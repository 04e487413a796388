/** Bytes, as the elements of a `Uint8Array`. */
module Uint8 {

  newtype uint8 = x: int | 0 <= x < 256

  type Bytes = seq<uint8>
}
