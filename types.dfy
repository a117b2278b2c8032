// Shared vocabulary of the write batch: bytes, optional values and the
// value-type marker that tags every record and every memtable insertion.
module Types {

  /** One octet of a key, a value or an encoded record. */
  newtype byte = x: int | 0 <= x < 256

  datatype Option<T> = None | Some(value: T)

  /** The two-way marker distinguishing a live value from a deletion tombstone. */
  datatype ValueType = TypeDeletion | TypeValue

  /** The one-byte wire code of a marker: 0 for a deletion, 1 for a value. */
  function TagByte(t: ValueType): (b: byte)
    ensures (b == 0) <==> t == TypeDeletion
    ensures (b == 1) <==> t == TypeValue
  {
    match t
    case TypeDeletion => 0
    case TypeValue => 1
  }
}
