// The unsigned base-128 varint (LEB128, section 7.6 of DWARF version 4) that
// the write batch uses for every length prefix: seven data bits per byte, least
// significant group first, the high bit set on every byte except the last.
module VarInt {
  import opened Types

  /** The varint bytes of n. */
  function Varint(n: nat): (r: seq<byte>)
    ensures 1 <= |r|
    decreases n
  {
    if n < 128 then [n as byte] else [(n % 128 + 128) as byte] + Varint(n / 128)
  }

  /** The number of bytes the varint of n occupies. */
  function RequiredSpace(n: nat): (r: nat)
    ensures r == |Varint(n)|
    ensures 1 <= r
    ensures r == 1 <==> n < 128
  {
    |Varint(n)|
  }

  /** 128 to the power k: the count of numbers that k varint bytes can hold. */
  function Pow128(k: nat): nat
  {
    if k == 0 then 1 else 128 * Pow128(k - 1)
  }

  // Reference reading of a LEB128 byte string, independent of Varint.

  /** A well-formed LEB128 string: continuation bit on every byte but the last. */
  ghost predicate WellFormed(bs: seq<byte>)
  {
    1 <= |bs| &&
    (forall i :: 0 <= i < |bs| - 1 ==> 128 <= bs[i]) &&
    bs[|bs| - 1] < 128
  }

  /** The number a LEB128 string denotes. */
  ghost function Value(bs: seq<byte>): nat
  {
    if bs == [] then 0 else (bs[0] as int) % 128 + 128 * Value(bs[1..])
  }

  /** The varint of n is a well-formed LEB128 string that denotes n. */
  lemma {:induction false} VarintIsLeb128(n: nat)
    ensures WellFormed(Varint(n))
    ensures Value(Varint(n)) == n
    decreases n
  {
    if n >= 128 {
      var q, b := n / 128, (n % 128 + 128) as byte;
      VarintIsLeb128(q);
      var tail := Varint(q);
      assert Varint(n) == [b] + tail;
      assert (b as int) % 128 == n % 128;
      assert Value(Varint(n)) == n % 128 + 128 * Value(tail);
      forall i | 0 <= i < |Varint(n)| - 1
        ensures 128 <= Varint(n)[i]
      {
        if i > 0 { assert Varint(n)[i] == tail[i - 1]; }
      }
    }
  }

  /** The varint uses the fewest bytes: n fits its width and not one byte less. */
  lemma {:induction false} RequiredSpaceIsMinimal(n: nat)
    ensures n < Pow128(RequiredSpace(n))
    ensures 1 < RequiredSpace(n) ==> Pow128(RequiredSpace(n) - 1) <= n
    decreases n
  {
    if n >= 128 {
      RequiredSpaceIsMinimal(n / 128);
      assert RequiredSpace(n) == 1 + RequiredSpace(n / 128);
    }
  }
}
