// The batch's own test: five operations with three-byte keys and values,
// checked for size, encoded length, item count and item contents.
module WriteBatchTest {
  import opened Types
  import opened VarInt
  import opened Batch
  import opened Memtable

  /** The bytes of a string literal whose characters are all below 256. */
  function Ascii(s: string): seq<byte>
    requires forall i :: 0 <= i < |s| ==> s[i] as int < 256
  {
    seq(|s|, i requires 0 <= i < |s| => s[i] as int as byte)
  }
  /** The test's (key, value) pairs; an empty value stands for a deletion. */
  function FixturePairs(): seq<(seq<byte>, seq<byte>)>
  {
    [(Ascii("abc"), Ascii("def")),
     (Ascii("123"), Ascii("456")),
     (Ascii("xxx"), Ascii("yyy")),
     (Ascii("zzz"), Ascii("")),
     (Ascii("010"), Ascii(""))]
  }

  /** The entry the test records for one pair. */
  function ToEntry(p: (seq<byte>, seq<byte>)): BatchEntry
  {
    if p.1 != [] then BatchEntry(p.0, Some(p.1)) else BatchEntry(p.0, None)
  }

  /** The entries the test's loop records. */
  function FixtureEntries(): seq<BatchEntry>
  {
    seq(5, i requires 0 <= i < 5 => ToEntry(FixturePairs()[i]))
  }

  /** Three puts of 3-byte keys and values take 9 bytes each, two deletes of
      3-byte keys take 6 bytes each: 39 in all, matching the encoding. */
  lemma FixtureSize()
    ensures Size(FixtureEntries()) == 39
    ensures |Enc(FixtureEntries())| == 39
  {
    var es := FixtureEntries();
    assert forall i :: 0 <= i < 5 ==> EntrySize(es[i]) == if i < 3 then 9 else 6;
    assert Size(es[..0]) == 0;
    assert Size(es[..1]) == 9 by { assert es[..1][..0] == es[..0]; }
    assert Size(es[..2]) == 18 by { assert es[..2][..1] == es[..1]; }
    assert Size(es[..3]) == 27 by { assert es[..3][..2] == es[..2]; }
    assert Size(es[..4]) == 33 by { assert es[..4][..3] == es[..3]; }
    assert es[..5] == es;
    SizeIsEncodedLength(es);
  }

  method TestWriteBatch() returns (size: nat, encodedLength: nat, count: nat, items: seq<Item>)
    ensures size == 39 && encodedLength == 39 && count == 5
    ensures |items| == 5
    ensures forall i :: 0 <= i < 5 ==>
      items[i].0 == FixturePairs()[i].0 &&
      (items[i].1.None? ==> FixturePairs()[i].1 == []) &&
      (items[i].1.Some? ==> items[i].1.value == FixturePairs()[i].1)
  {
    var b := new WriteBatch.WithCapacity(1, 16);
    var entries := FixturePairs();
    for i := 0 to |entries|
      invariant |b.entries| == i
      invariant forall j :: 0 <= j < i ==> b.entries[j] == ToEntry(entries[j])
    {
      var (k, v) := entries[i];
      if v != [] {
        b.Put(k, v);
      } else {
        b.Delete(k);
      }
    }
    assert b.entries == FixtureEntries();
    FixtureSize();

    size := b.ByteSize();
    var encoded := b.Encode();
    encodedLength := |encoded|;
    var it := b.Iter();
    count := it.Count();

    it := b.Iter();
    items := it.Collect();
  }

  /** Replaying the test's batch from sequence number 1 into an empty memtable
      makes five insertions numbered 1 to 5: three values, then two deletions
      with empty payloads. */
  method ReplayFixture() returns (ghost log: seq<Insertion>)
    ensures |log| == 5
    ensures forall i :: 0 <= i < 5 ==> log[i].seqNum == i + 1 && log[i].key == FixturePairs()[i].0
    ensures forall i :: 0 <= i < 3 ==> log[i].vt == TypeValue && log[i].value == FixturePairs()[i].1
    ensures forall i :: 3 <= i < 5 ==> log[i].vt == TypeDeletion && log[i].value == []
  {
    var b := new WriteBatch.New(1);
    b.Put(Ascii("abc"), Ascii("def"));
    b.Put(Ascii("123"), Ascii("456"));
    b.Put(Ascii("xxx"), Ascii("yyy"));
    b.Delete(Ascii("zzz"));
    b.Delete(Ascii("010"));
    assert b.entries == FixtureEntries();
    var mt := new MemTable();
    b.InsertIntoMemtable(mt);
    log := mt.log;
    assert log == Replay(1, b.entries);
    ReplayLength(1, b.entries);
    forall i | 0 <= i < 5
      ensures log[i].seqNum == i + 1 && log[i].key == FixturePairs()[i].0
      ensures i < 3 ==> log[i].vt == TypeValue && log[i].value == FixturePairs()[i].1
      ensures 3 <= i ==> log[i].vt == TypeDeletion && log[i].value == []
    {
      ReplayAt(1, b.entries, i);
    }
  }
}
