# LevelDB write batch, modelled in Dafny

This project models the write batch of a Rust port of LevelDB
(`src/write_batch.rs`). A write batch collects an ordered list of put and
delete operations together with a base sequence number. It can report the
exact size of its encoding, encode itself as a write-ahead-log record
stream, hand out an iterator over its entries, and replay its entries into a
memtable with consecutive sequence numbers.

Files:

- `types.dfy` (module `Types`): bytes, `Option`, the `ValueType` marker
  and its one-byte wire code (deletion 0, value 1, as in LevelDB).
- `varint.dfy` (module `VarInt`): the unsigned LEB128 varint used for
  every length prefix (section 7.6 of DWARF version 4), its width
  `RequiredSpace`, a separate reference reading of LEB128 strings, and the
  proofs that the varint is well formed, denotes its number and is minimal.
- `memtable.dfy` (module `Memtable`): the memtable seen only through its
  `add` call, as a class whose ghost field `log` records every insertion.
- `write_batch.dfy` (module `Batch`): `BatchEntry`; the specification
  functions `Size` (the closed form of `byte_size`), `Enc` (the record
  grammar, entry by entry), `Replay` (the insertions a replay makes) and
  `Items` (what draining the iterator yields); the classes `WriteBatch` and
  `WriteBatchIter`; and the lemmas relating them.
- `write_batch_test.dfy` (module `WriteBatchTest`): the source's own test
  as a method whose postcondition holds its assertions, and a replay of the
  same batch into an empty memtable.

The batch is a class whose `entries` field (a `seq`) the methods `Put`,
`Delete` and `Clear` reassign. `ByteSize` accumulates the size in a loop and
is proved equal to `Size(entries)` and to `|Enc(entries)|`. `Encode` pulls
entries from a fresh `WriteBatchIter`, as the source does. For each entry it
pushes the tag, resizes the buffer and writes a varint into the new space,
appends the key, then does the same for the value length and the value. It
keeps the write index `ix` equal to the buffer length throughout, and it is
proved to return `Enc(entries)`. `InsertIntoMemtable` drives the same
iterator. It is proved to append exactly `Replay(seqNum, entries)` to the
memtable's log.

Decisions:

- Keys and values are copied `seq<byte>` values. Rust's borrowed slices and
  their lifetimes carry no obligation here.
- `seq` is a keyword in Dafny, so the base sequence number field is named
  `seqNum`.
- The two `ValueType` codes come from `types.rs`, which is not part of this
  model. They are taken to be 0 for a deletion and 1 for a value, which is
  LevelDB's format. Only their distinctness is used by the proofs.
- `integer_encoding`'s `required_space` and `encode_var` are modelled by
  `RequiredSpace` and `WriteVarint`. `WriteVarint` writes the LEB128 bytes of
  `n` at an offset and returns the number of bytes written.
- A deletion record carries a one-byte varint 0 as its value length, and
  `byte_size` counts that byte with its `+ 1` for a missing value.

## Model

| member | source | states |
|---|---|---|
| `Types.TagByte` | src/write_batch.rs:90-94 | the deletion and value markers have distinct one-byte codes, 0 and 1 |
| `VarInt.Varint` | src/write_batch.rs:100 | the bytes `encode_var` writes for a length: never empty; its properties are proved in `VarintIsLeb128` and `RequiredSpaceIsMinimal` |
| `VarInt.RequiredSpace` | src/write_batch.rs:98 | the width of a length prefix is the length of its varint, at least one byte, and exactly one byte iff the length is below 128; so `required_space(0) == 1` |
| `VarInt.VarintIsLeb128` | src/write_batch.rs:98-100 | the varint of n has the continuation bit on every byte but the last, and the reference LEB128 reading of it gives back n |
| `VarInt.RequiredSpaceIsMinimal` | src/write_batch.rs:98 | the varint width is the fewest base-128 digits that hold n |
| `Memtable.MemTable.Add` | src/write_batch.rs:78-79 | one add call appends one (sequence number, marker, key, value) insertion to the store's log and changes nothing else |
| `Batch.Resize` | src/write_batch.rs:99 | `Vec::resize` gives the requested length, keeps the old prefix and fills new room with zero bytes |
| `Batch.WriteVarint` | src/write_batch.rs:100 | writing a varint into the buffer at `ix` puts its bytes at `ix`, leaves every other byte alone and reports `required_space` bytes written |
| `Batch.PutVarint` | src/write_batch.rs:98-100 | resizing by `required_space(n)` and encoding n there appends exactly the varint of n and keeps the index equal to the buffer length |
| `Batch.RecordLength` | src/write_batch.rs:53-61 | the per-entry term of `byte_size` equals the length of that entry's record; a deletion's `+1` is the width of varint 0 |
| `Batch.SizeIsEncodedLength` | src/write_batch.rs:49-64 | the closed-form size of any entry list, the empty one included, equals the length of its encoding |
| `Batch.EncConcat` | src/write_batch.rs:89-121 | the encoding of two entry lists one after the other is the concatenation of their encodings |
| `Batch.EncStep` | src/write_batch.rs:89-121 | encoding one more entry appends that entry's record to the encoding so far |
| `Batch.RecordAt` | src/write_batch.rs:89-121 | entry i's record (tag, key length, key, value length, value) sits in the encoding at the offset the sizes of entries 0..i-1 predict |
| `Batch.PutRecord` | src/write_batch.rs:31-36 | a put appends the record `[1] ++ varint(len k) ++ k ++ varint(len v) ++ v` and grows the size by that record's length |
| `Batch.DeleteRecord` | src/write_batch.rs:38-43 | a delete appends the record `[0] ++ varint(len k) ++ k ++ [0]` and grows the size by `|k| + required_space(|k|) + 2` |
| `Batch.DeleteDiffersFromEmptyPutOnlyInTag` | src/write_batch.rs:105-114 | a delete and a put of an empty value give records of equal length that differ in the tag byte only |
| `Batch.ReplayLength` | src/write_batch.rs:76-82 | replay makes exactly one insertion per entry |
| `Batch.ReplayAt` | src/write_batch.rs:74-82 | the i-th insertion uses sequence number seq + i and the entry's key; a put gives the value marker and its value, a delete the deletion marker and an empty value |
| `Batch.ReplaySequenceNumbersDistinct` | src/write_batch.rs:74-81 | sequence numbers strictly increase along the replay, so no two entries of one batch share one |
| `Batch.WriteBatch.New` | src/write_batch.rs:17-22 | a new batch is empty and holds the given sequence number |
| `Batch.WriteBatch.WithCapacity` | src/write_batch.rs:24-29 | the same as `new`; the capacity hint changes nothing observable |
| `Batch.WriteBatch.Put` | src/write_batch.rs:31-36 | appends exactly `(k, Some(v))` at the end; earlier entries and the sequence number are unchanged |
| `Batch.WriteBatch.Delete` | src/write_batch.rs:38-43 | appends exactly `(k, None)` at the end; earlier entries and the sequence number are unchanged |
| `Batch.WriteBatch.Clear` | src/write_batch.rs:45-47 | empties the entries, keeps the sequence number, and leaves size 0 and an empty encoding |
| `Batch.WriteBatch.ByteSize` | src/write_batch.rs:49-64 | the accumulated size equals the closed form `Size(entries)` and the length of the encoding |
| `Batch.WriteBatch.Iter` | src/write_batch.rs:66-71 | returns a new iterator over this batch positioned at the first entry |
| `Batch.WriteBatch.InsertIntoMemtable` | src/write_batch.rs:73-83 | appends to the memtable log exactly the replay of the entries from the batch's sequence number, one insertion per entry, in order |
| `Batch.WriteBatch.Encode` | src/write_batch.rs:85-123 | returns exactly the record stream `Enc(entries)`, whose length is `Size(entries)` |
| `Batch.WriteBatchIter.constructor` | src/write_batch.rs:67-70 | an iterator starts at index 0 of its batch |
| `Batch.WriteBatchIter.Next` | src/write_batch.rs:135-142 | yields the entry at the cursor and advances it while entries remain, otherwise yields None and stays put; only the iterator changes |
| `Batch.WriteBatchIter.Collect` | src/write_batch.rs:133-143 | draining an iterator over any batch yields exactly `Items(entries)` from its cursor on: one (key, optional value) pair per remaining entry, in insertion order, leaving the cursor at the end |
| `Batch.WriteBatchIter.Count` | src/write_batch.rs:169 | draining the iterator counts exactly the entries not yet yielded |
| `WriteBatchTest.FixtureSize` | src/write_batch.rs:152-168 | three puts of 3-byte keys and values and two deletes of 3-byte keys have size 39 and a 39-byte encoding |
| `WriteBatchTest.ReplayFixture` | src/write_batch.rs:73-83 | replaying the test's batch from sequence number 1 into an empty memtable makes five insertions numbered 1 to 5 with the test's keys: three with the value marker and their values, then two with the deletion marker and empty payloads |
| `WriteBatchTest.TestWriteBatch` | src/write_batch.rs:151-183 | the test's batch has `byte_size` 39, an encoding of length 39, 5 items, and each item's key and value match the test's pairs as its assertions require |

## Left out

- Rust lifetimes and borrowing: entries hold copies of the key and value bytes.
- The `Vec` capacity hints (`with_capacity`'s `c`, and the `byte_size()` call that only sizes `encode`'s buffer): they affect performance only.
- The memtable's internals and the `Comparator` type parameter: only the insert calls are recorded.
- The internals of the `integer_encoding` crate. Its width and its encoding into a slice are given by the LEB128 definition above.
- Decoding a batch and the round trip: this source has no decoder.
- Overflow of `usize` sizes and of the `u64` sequence number: all counts are unbounded naturals.
- Concurrent mutation of a batch while an iterator is live, which Rust's borrow checker forbids. The model does not rule it out, and `Next` reads the batch as it is at each call.
