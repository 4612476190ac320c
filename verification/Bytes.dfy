/** Bytes and the little-endian 32-bit numbers every wire format of the
    repository is built from. */
module Bytes {
  type Byte = x: int | 0 <= x < 256
  type Data = seq<Byte>

  const UINT32_MAX := 0xffff_ffff

  function Encode32(value: nat): (bytes: Data)
    requires value <= UINT32_MAX
    ensures |bytes| == 4 && Decode32(bytes, 0) == value
  {
    var q1 := value / 256;
    var q2 := q1 / 256;
    var q3 := q2 / 256;
    [value % 256, q1 % 256, q2 % 256, q3]
  }

  function Decode32(bytes: Data, offset: nat): (value: nat)
    requires offset + 4 <= |bytes|
    ensures value <= UINT32_MAX
  {
    var a: int, b: int, c: int, d: int := bytes[offset], bytes[offset + 1], bytes[offset + 2], bytes[offset + 3];
    a + 256 * b + 65536 * c + 16777216 * d
  }

  /** Every four bytes are the encoding of exactly one number. */
  lemma DecodeEncode(bytes: Data, offset: nat)
    requires offset + 4 <= |bytes|
    ensures Encode32(Decode32(bytes, offset)) == bytes[offset..offset + 4]
  {
    var a: int, b: int, c: int, d: int := bytes[offset], bytes[offset + 1], bytes[offset + 2], bytes[offset + 3];
    var value := Decode32(bytes, offset);
    var q1 := value / 256;
    assert q1 == b + 256 * c + 65536 * d;
    assert q1 / 256 == c + 256 * d;
  }

  /** A number keeps its value when more bytes precede or follow it. */
  lemma DecodeWithin(before: Data, value: nat, after: Data)
    requires value <= UINT32_MAX
    ensures Decode32(before + Encode32(value) + after, |before|) == value
  {
    var bytes := before + Encode32(value) + after;
    assert bytes[|before|..|before| + 4] == Encode32(value);
    assert forall k :: 0 <= k < 4 ==> bytes[|before| + k] == Encode32(value)[k];
  }
}
