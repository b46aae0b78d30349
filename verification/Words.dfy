/** Little-endian 32-bit words inside a block or page of bytes. */
module Words {
  import opened Base

  /** Word j of b; 0 past its end. */
  function Entry(b: seq<byte>, j: nat): nat {
    if 4 * j + 3 < |b| then
      var b0: nat, b1: nat, b2: nat, b3: nat := b[4 * j], b[4 * j + 1], b[4 * j + 2], b[4 * j + 3];
      b0 + 256 * b1 + 65536 * b2 + 16777216 * b3
    else 0
  }

  function SetEntry(b: seq<byte>, j: nat, v: nat): (r: seq<byte>)
    ensures |r| == |b|
  {
    if 4 * j + 3 < |b| then
      b[4 * j := Byte(v, 1)][4 * j + 1 := Byte(v, 256)][4 * j + 2 := Byte(v, 65536)][4 * j + 3 := Byte(v, 16777216)]
    else b
  }

  function Byte(v: nat, unit: nat): byte
    requires unit > 0
  {
    v / unit % 256
  }

  lemma Bytes4(v: nat)
    requires v < U32
    ensures v == Byte(v, 1) + 256 * Byte(v, 256) + 65536 * Byte(v, 65536) + 16777216 * Byte(v, 16777216)
  {
    var a := v / 256;
    var b := a / 256;
    assert v / 65536 == b && v / 16777216 == b / 256;
  }

  lemma EntryAfterSet(b: seq<byte>, j: nat, v: nat, i: nat)
    requires 4 * j + 3 < |b| && 4 * i + 3 < |b| && v < U32
    ensures Entry(SetEntry(b, j, v), i) == if i == j then v else Entry(b, i)
  {
    Bytes4(v);
  }

  lemma EntryRange(b: seq<byte>, j: nat)
    ensures Entry(b, j) < U32
  {
  }
}
