// Shared vocabulary: optional values, bytes and byte strings.

module Common {

  datatype Option<T> = None | Some(value: T)

  /** One octet of a RocksDB slice. */
  newtype Byte = b: int | 0 <= b < 256

  /** Keys and values are uninterpreted byte strings. */
  type Bytes = seq<Byte>
}
