// LevelDB's write batch: an ordered list of put and delete operations over a
// base sequence number, with a closed-form size, a record encoder and a
// replay driver into the memtable.
module Batch {
  import opened Types
  import opened VarInt
  import opened Memtable

  /** One recorded operation; a missing value means a deletion. */
  datatype BatchEntry = BatchEntry(key: seq<byte>, val: Option<seq<byte>>)

  /** What the batch iterator yields for one entry. */
  type Item = (seq<byte>, Option<seq<byte>>)

  // ---------------------------------------------------------------------
  // Specification functions

  /** The marker an entry carries on the wire and in the memtable. */
  function Marker(e: BatchEntry): ValueType
  {
    if e.val.Some? then TypeValue else TypeDeletion
  }

  /** The payload an entry carries: its value, or nothing for a deletion. */
  function Payload(e: BatchEntry): seq<byte>
  {
    if e.val.Some? then e.val.value else []
  }

  /** The per-entry size the batch predicts: key and its length prefix, value and
      its length prefix (one byte for a deletion's zero length), and the tag. */
  function EntrySize(e: BatchEntry): nat
  {
    var valuePart := if e.val.Some? then |e.val.value| + RequiredSpace(|e.val.value|) else 1;
    |e.key| + RequiredSpace(|e.key|) + valuePart + 1
  }

  /** The predicted size of a list of entries. */
  function Size(es: seq<BatchEntry>): nat
  {
    if es == [] then 0 else Size(es[..|es| - 1]) + EntrySize(es[|es| - 1])
  }

  /** The record grammar of one entry: tag, varint key length, key bytes,
      varint value length (zero for a deletion), value bytes. */
  function Record(e: BatchEntry): seq<byte>
  {
    [TagByte(Marker(e))] + Varint(|e.key|) + e.key + Varint(|Payload(e)|) + Payload(e)
  }

  /** The encoding of a list of entries: their records, in order. */
  function Enc(es: seq<BatchEntry>): seq<byte>
  {
    if es == [] then [] else Enc(es[..|es| - 1]) + Record(es[|es| - 1])
  }

  /** The memtable insertion one entry becomes under sequence number sn. */
  function InsertionOf(sn: nat, e: BatchEntry): Insertion
  {
    Insertion(sn, Marker(e), e.key, Payload(e))
  }

  /** The insertions replaying es from base sequence number s makes, in order. */
  function Replay(s: nat, es: seq<BatchEntry>): seq<Insertion>
  {
    if es == [] then [] else Replay(s, es[..|es| - 1]) + [InsertionOf(s + |es| - 1, es[|es| - 1])]
  }

  /** What iterating over es yields: each key with its optional value, in order. */
  function Items(es: seq<BatchEntry>): seq<Item>
  {
    seq(|es|, i requires 0 <= i < |es| => (es[i].key, es[i].val))
  }

  // ---------------------------------------------------------------------
  // Buffer primitives used by the encoder

  /** Vec::resize: truncate to n, or pad with zero bytes up to n. */
  function Resize(buf: seq<byte>, n: nat): (r: seq<byte>)
    ensures |r| == n
    ensures forall i :: 0 <= i < n ==> r[i] == if i < |buf| then buf[i] else 0
  {
    if n <= |buf| then buf[..n] else buf + seq(n - |buf|, _ => 0)
  }

  /** Writing the varint of n into buf at offset at: the new buffer and the
      number of bytes written. */
  function WriteVarint(buf: seq<byte>, at: nat, n: nat): (r: (seq<byte>, nat))
    requires at + RequiredSpace(n) <= |buf|
    ensures r.1 == RequiredSpace(n)
    ensures |r.0| == |buf|
    ensures r.0[..at] == buf[..at]
    ensures r.0[at..at + r.1] == Varint(n)
    ensures r.0[at + r.1..] == buf[at + r.1..]
  {
    (buf[..at] + Varint(n) + buf[at + RequiredSpace(n)..], RequiredSpace(n))
  }

  /** Growing a buffer by a varint's width and writing the varint into the new
      space appends the varint. */
  lemma ResizeThenWrite(buf: seq<byte>, n: nat)
    ensures |buf| + RequiredSpace(n) <= |Resize(buf, |buf| + RequiredSpace(n))|
    ensures WriteVarint(Resize(buf, |buf| + RequiredSpace(n)), |buf|, n).0 == buf + Varint(n)
  {
  }

  /** Appending a record's fields one by one appends the record. */
  lemma AppendRecord(done: seq<byte>, e: BatchEntry)
    ensures done + [TagByte(Marker(e))] + Varint(|e.key|) + e.key + Varint(|Payload(e)|) + Payload(e)
         == done + Record(e)
  {
  }

  /** The encoding of one more entry of a list extends the encoding of the prefix. */
  lemma EncStep(es: seq<BatchEntry>, i: nat)
    requires i < |es|
    ensures Enc(es[..i + 1]) == Enc(es[..i]) + Record(es[i])
  {
    assert es[..i + 1][..i] == es[..i];
  }

  // ---------------------------------------------------------------------
  // Properties of the specification

  lemma RecordLength(e: BatchEntry)
    ensures |Record(e)| == EntrySize(e)
  {
  }

  /** The closed-form size is exactly the length of the encoding. */
  lemma {:induction false} SizeIsEncodedLength(es: seq<BatchEntry>)
    ensures Size(es) == |Enc(es)|
  {
    if es != [] {
      SizeIsEncodedLength(es[..|es| - 1]);
      RecordLength(es[|es| - 1]);
    }
  }

  /** Encoding distributes over concatenation of entry lists. */
  lemma {:induction false} EncConcat(a: seq<BatchEntry>, b: seq<BatchEntry>)
    ensures Enc(a + b) == Enc(a) + Enc(b)
    decreases |b|
  {
    if b == [] {
      assert a + b == a;
    } else {
      var b', last := b[..|b| - 1], b[|b| - 1];
      assert (a + b)[..|a + b| - 1] == a + b';
      assert (a + b)[|a + b| - 1] == last;
      calc {
        Enc(a + b);
        Enc(a + b') + Record(last);
        { EncConcat(a, b'); }
        Enc(a) + Enc(b') + Record(last);
        Enc(a) + (Enc(b') + Record(last));
        Enc(a) + Enc(b);
      }
    }
  }

  /** Entry i's record sits in the encoding at the offset the sizes of the
      entries before it predict. */
  lemma {:induction false} RecordAt(es: seq<BatchEntry>, i: nat)
    requires i < |es|
    ensures Size(es[..i]) + EntrySize(es[i]) <= |Enc(es)|
    ensures Enc(es)[Size(es[..i])..Size(es[..i]) + EntrySize(es[i])] == Record(es[i])
  {
    assert es == es[..i] + [es[i]] + es[i + 1..];
    EncConcat(es[..i] + [es[i]], es[i + 1..]);
    assert (es[..i] + [es[i]])[..i] == es[..i];
    SizeIsEncodedLength(es[..i]);
    RecordLength(es[i]);
  }

  /** Appending a put appends its value record and grows the size by its entry size. */
  lemma {:induction false} PutRecord(es: seq<BatchEntry>, k: seq<byte>, v: seq<byte>)
    ensures Enc(es + [BatchEntry(k, Some(v))]) == Enc(es) + [TagByte(TypeValue)] + Varint(|k|) + k + Varint(|v|) + v
    ensures Size(es + [BatchEntry(k, Some(v))]) == Size(es) + 1 + RequiredSpace(|k|) + |k| + RequiredSpace(|v|) + |v|
  {
  }

  /** Appending a delete appends a tombstone record with a zero value length. */
  lemma {:induction false} DeleteRecord(es: seq<BatchEntry>, k: seq<byte>)
    ensures Enc(es + [BatchEntry(k, None)]) == Enc(es) + [TagByte(TypeDeletion)] + Varint(|k|) + k + [0]
    ensures Size(es + [BatchEntry(k, None)]) == Size(es) + 1 + RequiredSpace(|k|) + |k| + 1
  {
  }

  /** A deletion and a put of an empty value have records of the same length
      that differ in the tag byte and nowhere else. */
  lemma DeleteDiffersFromEmptyPutOnlyInTag(k: seq<byte>)
    ensures |Record(BatchEntry(k, None))| == |Record(BatchEntry(k, Some([])))|
    ensures Record(BatchEntry(k, None))[0] != Record(BatchEntry(k, Some([])))[0]
    ensures Record(BatchEntry(k, None))[1..] == Record(BatchEntry(k, Some([])))[1..]
  {
  }

  /** Replay makes one insertion per entry; the i-th uses sequence number s + i,
      the entry's marker, its key and its value (empty for a deletion). */
  lemma {:induction false} ReplayAt(s: nat, es: seq<BatchEntry>, i: nat)
    requires i < |es|
    ensures |Replay(s, es)| == |es|
    ensures Replay(s, es)[i].seqNum == s + i
    ensures Replay(s, es)[i].key == es[i].key
    ensures es[i].val.Some? ==> Replay(s, es)[i].vt == TypeValue && Replay(s, es)[i].value == es[i].val.value
    ensures es[i].val.None? ==> Replay(s, es)[i].vt == TypeDeletion && Replay(s, es)[i].value == []
    decreases |es|
  {
    if i < |es| - 1 {
      ReplayAt(s, es[..|es| - 1], i);
    } else {
      ReplayLength(s, es[..|es| - 1]);
    }
  }

  lemma {:induction false} ReplayLength(s: nat, es: seq<BatchEntry>)
    ensures |Replay(s, es)| == |es|
    decreases |es|
  {
    if es != [] {
      ReplayLength(s, es[..|es| - 1]);
    }
  }

  /** No two insertions of one replay share a sequence number. */
  lemma ReplaySequenceNumbersDistinct(s: nat, es: seq<BatchEntry>, i: nat, j: nat)
    requires i < j < |es|
    ensures j < |Replay(s, es)| && Replay(s, es)[i].seqNum < Replay(s, es)[j].seqNum
  {
    ReplayAt(s, es, i);
    ReplayAt(s, es, j);
  }

  // ---------------------------------------------------------------------
  // The batch and its iterator

  class WriteBatch {
    var entries: seq<BatchEntry>
    /** The sequence number the first entry receives on replay. */
    var seqNum: nat

    constructor New(s: nat)
      ensures entries == [] && seqNum == s
    {
      entries := [];
      seqNum := s;
    }

    /** As New; the capacity hint c has no effect on the batch's contents. */
    constructor WithCapacity(s: nat, c: nat)
      ensures entries == [] && seqNum == s
    {
      entries := [];
      seqNum := s;
    }

    method Put(k: seq<byte>, v: seq<byte>)
      modifies this
      ensures entries == old(entries) + [BatchEntry(k, Some(v))]
      ensures seqNum == old(seqNum)
    {
      entries := entries + [BatchEntry(k, Some(v))];
    }

    method Delete(k: seq<byte>)
      modifies this
      ensures entries == old(entries) + [BatchEntry(k, None)]
      ensures seqNum == old(seqNum)
    {
      entries := entries + [BatchEntry(k, None)];
    }

    method Clear()
      modifies this
      ensures entries == [] && seqNum == old(seqNum)
      ensures Size(entries) == 0 && Enc(entries) == []
    {
      entries := [];
    }

    /** The exact length of the encoding, accumulated entry by entry. */
    method ByteSize() returns (size: nat)
      ensures size == Size(entries)
      ensures size == |Enc(entries)|
    {
      size := 0;
      for i := 0 to |entries|
        invariant size == Size(entries[..i])
      {
        var e := entries[i];
        size := size + |e.key| + RequiredSpace(|e.key|);
        if e.val.Some? {
          size := size + |e.val.value| + RequiredSpace(|e.val.value|);
        } else {
          size := size + 1;
        }
        size := size + 1;
        assert entries[..i + 1][..i] == entries[..i];
      }
      assert entries[..|entries|] == entries;
      SizeIsEncodedLength(entries);
    }

    /** A fresh iterator positioned before the first entry. */
    method Iter() returns (it: WriteBatchIter)
      ensures fresh(it) && it.batch == this && it.ix == 0
    {
      it := new WriteBatchIter(this);
    }

    /** Replays the entries into mt, one insertion per entry, with consecutive
        sequence numbers from seqNum. */
    method InsertIntoMemtable(mt: MemTable)
      modifies mt
      ensures mt.log == old(mt.log) + Replay(seqNum, entries)
    {
      var sequenceNum := seqNum;
      var it := Iter();
      while true
        invariant it.batch == this && it.ix <= |entries|
        invariant sequenceNum == seqNum + it.ix
        invariant mt.log == old(mt.log) + Replay(seqNum, entries[..it.ix])
        decreases |entries| - it.ix
      {
        var next := it.Next();
        if next.None? {
          break;
        }
        var (k, v) := next.value;
        match v {
          case Some(v') => mt.Add(sequenceNum, TypeValue, k, v');
          case None => mt.Add(sequenceNum, TypeDeletion, k, []);
        }
        sequenceNum := sequenceNum + 1;
        assert entries[..it.ix][..it.ix - 1] == entries[..it.ix - 1];
      }
      assert entries[..it.ix] == entries;
    }

    /** The encoded batch, built record by record with a running write index. */
    method Encode() returns (buf: seq<byte>)
      ensures buf == Enc(entries)
      ensures |buf| == Size(entries)
    {
      buf := [];
      var ix: nat := 0;
      var it := Iter();
      while true
        invariant it.batch == this && it.ix <= |entries|
        invariant ix == |buf|
        invariant buf == Enc(entries[..it.ix])
        decreases |entries| - it.ix
      {
        ghost var done := buf;
        var next := it.Next();
        if next.None? {
          break;
        }
        var (k, v) := next.value;
        ghost var e := entries[it.ix - 1];
        assert k == e.key && v == e.val;
        if v.Some? {
          buf := buf + [TagByte(TypeValue)];
        } else {
          buf := buf + [TagByte(TypeDeletion)];
        }
        ix := ix + 1;
        ghost var tagged := buf;

        var req := RequiredSpace(|k|);
        buf, ix := PutVarint(buf, ix, req, |k|);

        buf := buf + k;
        ix := ix + |k|;
        ghost var keyed := buf;

        var val: seq<byte>;
        var req2: nat;
        if v.Some? {
          val := v.value;
          req2 := RequiredSpace(|val|);
        } else {
          val := [];
          req2 := RequiredSpace(0);
        }
        buf, ix := PutVarint(buf, ix, req2, |val|);

        buf := buf + val;
        ix := ix + |val|;

        assert val == Payload(e);
        assert tagged == done + [TagByte(Marker(e))];
        assert keyed == tagged + Varint(|k|) + k;
        assert buf == keyed + Varint(|val|) + val;
        AppendRecord(done, e);
        EncStep(entries, it.ix - 1);
      }
      assert entries[..it.ix] == entries;
      SizeIsEncodedLength(entries);
    }
  }

  /** Grows buf by the req bytes the varint of n needs and writes it there,
      advancing the write index ix by the number of bytes written. */
  method PutVarint(buf: seq<byte>, ix: nat, req: nat, n: nat) returns (buf': seq<byte>, ix': nat)
    requires ix == |buf| && req == RequiredSpace(n)
    ensures buf' == buf + Varint(n)
    ensures ix' == |buf'|
  {
    buf' := Resize(buf, ix + req);
    var written := WriteVarint(buf', ix, n);
    buf' := written.0;
    ix' := ix + written.1;
    ResizeThenWrite(buf, n);
  }

  /** A cursor over a batch's entries, in insertion order. */
  class WriteBatchIter {
    const batch: WriteBatch
    var ix: nat

    constructor (b: WriteBatch)
      ensures batch == b && ix == 0
    {
      batch := b;
      ix := 0;
    }

    /** The next entry's key and optional value, or None once all are yielded. */
    method Next() returns (item: Option<Item>)
      modifies this
      ensures old(ix) < |batch.entries| ==>
        ix == old(ix) + 1 && item == Some((batch.entries[old(ix)].key, batch.entries[old(ix)].val))
      ensures |batch.entries| <= old(ix) ==> ix == old(ix) && item == None
    {
      if ix < |batch.entries| {
        ix := ix + 1;
        item := Some((batch.entries[ix - 1].key, batch.entries[ix - 1].val));
      } else {
        item := None;
      }
    }

    /** Drains the iterator, collecting every item it yields, in order. */
    method Collect() returns (items: seq<Item>)
      modifies this
      ensures old(ix) <= |batch.entries| ==> items == Items(batch.entries)[old(ix)..]
      ensures |batch.entries| < old(ix) ==> items == []
      ensures ix == if old(ix) < |batch.entries| then |batch.entries| else old(ix)
    {
      items := [];
      ghost var start := ix;
      while true
        invariant start <= |batch.entries| ==> start <= ix <= |batch.entries| && items == Items(batch.entries)[start..ix]
        invariant |batch.entries| < start ==> ix == start && items == []
        decreases |batch.entries| - ix
      {
        var next := Next();
        if next.None? {
          break;
        }
        items := items + [next.value];
        assert Items(batch.entries)[start..ix] == Items(batch.entries)[start..ix - 1] + [next.value];
      }
    }

    /** Iterator::count: drains the iterator and returns how many items it yielded. */
    method Count() returns (n: nat)
      modifies this
      ensures n == if old(ix) < |batch.entries| then |batch.entries| - old(ix) else 0
      ensures ix == if old(ix) < |batch.entries| then |batch.entries| else old(ix)
    {
      n := 0;
      while true
        invariant ix == if old(ix) < |batch.entries| then old(ix) + n else old(ix)
        invariant old(ix) < |batch.entries| ==> ix <= |batch.entries|
        invariant |batch.entries| <= old(ix) ==> n == 0
        decreases |batch.entries| - ix
      {
        var next := Next();
        if next.None? {
          break;
        }
        n := n + 1;
      }
    }
  }
}
