/** The byte arithmetic of the report signature check: r and s arrive as padded
    little-endian fields and leave as trimmed big-endian integers. */
module Signature {
  import opened Bytes

  /** Index of the first byte that is not zero, or |bytes| when there is none. */
  function FirstNonzero(bytes: seq<Byte>): (p: nat)
    ensures p <= |bytes|
    ensures forall i :: 0 <= i < p ==> bytes[i] == 0
    ensures p < |bytes| ==> bytes[p] != 0
  {
    if bytes == [] || bytes[0] != 0 then 0 else 1 + FirstNonzero(bytes[1..])
  }

  function StripLeadingZeros(bytes: seq<Byte>): seq<Byte> {
    var p := FirstNonzero(bytes);
    if p < |bytes| then bytes[p..]
    else bytes[if |bytes| == 0 then 0 else |bytes| - 1..]
  }

  /** What is handed to the big-number library for one signature component. */
  function ComponentBytes(littleEndian: seq<Byte>): seq<Byte> {
    StripLeadingZeros(Reverse(littleEndian))
  }

  lemma {:induction false} DropZerosKeepsValue(bytes: seq<Byte>, n: nat)
    requires n <= |bytes|
    requires forall i :: 0 <= i < n ==> bytes[i] == 0
    ensures BigEndian(bytes[n..]) == BigEndian(bytes)
  {
    if n == 0 {
      assert bytes[0..] == bytes;
    } else {
      LeadingZero(bytes);
      DropZerosKeepsValue(bytes[1..], n - 1);
      assert bytes[1..][n - 1..] == bytes[n..];
    }
  }

  /** The integer is preserved, whatever the field holds. */
  lemma ComponentPreservesValue(littleEndian: seq<Byte>)
    ensures BigEndian(ComponentBytes(littleEndian)) == LittleEndian(littleEndian)
  {
    var be := Reverse(littleEndian);
    ReverseSwapsEndianness(littleEndian);
    var p := FirstNonzero(be);
    DropZerosKeepsValue(be, if p < |be| then p else if |be| == 0 then 0 else |be| - 1);
  }

  /** The result is the shortest non-empty big-endian form of that integer, so the
      only result that starts with a zero byte is the single byte 0. */
  lemma ComponentIsShortest(littleEndian: seq<Byte>, other: seq<Byte>)
    requires littleEndian != [] && other != []
    requires BigEndian(other) == LittleEndian(littleEndian)
    ensures 1 <= |ComponentBytes(littleEndian)| <= |other|
    ensures ComponentBytes(littleEndian)[0] == 0 ==> ComponentBytes(littleEndian) == [0]
  {
    var c := ComponentBytes(littleEndian);
    ComponentPreservesValue(littleEndian);
    if c[0] != 0 && |other| < |c| {
      BigEndianAbove(c);
      BigEndianBelow(other);
      Pow256Monotone(|other|, |c| - 1);
      assert false;
    }
  }
}
