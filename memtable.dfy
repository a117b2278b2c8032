// The ordered in-memory store the batch is replayed into. Its internals (the
// skiplist and the comparator over internal keys) are not part of this model;
// it is seen only through its one insertion call, recorded as an append-only
// log of the calls made to it.
module Memtable {
  import opened Types

  /** One call to the store's add: sequence number, marker, key and value. */
  datatype Insertion = Insertion(seqNum: nat, vt: ValueType, key: seq<byte>, value: seq<byte>)

  class MemTable {
    /** Every insertion made so far, oldest first. */
    ghost var log: seq<Insertion>

    constructor ()
      ensures log == []
    {
      log := [];
    }

    /** Insert one sequenced, tagged key/value pair. */
    method Add(seqNum: nat, vt: ValueType, key: seq<byte>, value: seq<byte>)
      modifies this
      ensures log == old(log) + [Insertion(seqNum, vt, key, value)]
    {
      log := log + [Insertion(seqNum, vt, key, value)];
    }
  }
}
