/** The serialized byte form of keys and values. */
module Bytes {

  newtype byte = x: int | 0 <= x < 256

  /** The serialized form (`Data`) of a key or a value. Serialization is
      taken to be the identity, so equality of `Data` is value equality. */
  type Data = seq<byte>
}
