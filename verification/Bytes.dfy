/** Machine integers and little-endian loads, as the C++ sources read them on a little-endian host. */
module Bytes {

  type byte = x: int | 0 <= x < 0x100
  type u16 = x: int | 0 <= x < 0x1_0000
  type u32 = x: int | 0 <= x < 0x1_0000_0000

  function Word(hi: byte, lo: byte): u16 {
    0x100 * (hi as int) + lo as int
  }

  function U16At(b: seq<byte>, at: nat): u16
    requires at + 2 <= |b|
  {
    Word(b[at + 1], b[at])
  }

  function U32At(b: seq<byte>, at: nat): u32
    requires at + 4 <= |b|
  {
    (U16At(b, at) as int) + 0x1_0000 * (U16At(b, at + 2) as int)
  }

  /** The same four bytes read as a signed `int`. */
  function I32At(b: seq<byte>, at: nat): int
    requires at + 4 <= |b|
  {
    var u := U32At(b, at);
    if u < 0x8000_0000 then u else u - 0x1_0000_0000
  }

  /** The loads, byte by byte. */
  lemma LittleEndian(b: seq<byte>, at: nat)
    requires at + 4 <= |b|
    ensures var b0: int, b1: int, b2: int, b3: int := b[at], b[at + 1], b[at + 2], b[at + 3];
            U16At(b, at) == b0 + 256 * b1 && U32At(b, at) == b0 + 256 * b1 + 65536 * b2 + 16777216 * b3
    ensures I32At(b, at) == U32At(b, at) - if b[at + 3] >= 128 then 4294967296 else 0
  {
  }

  function U16Bytes(x: u16): (b: seq<byte>)
    ensures |b| == 2 && U16At(b, 0) == x
  {
    [x % 0x100, x / 0x100]
  }

  function U32Bytes(x: u32): (b: seq<byte>)
    ensures |b| == 4 && U32At(b, 0) == x
  {
    var b := U16Bytes(x % 0x1_0000) + U16Bytes(x / 0x1_0000);
    assert U16At(b, 2) == U16At(U16Bytes(x / 0x1_0000), 0);
    b
  }

  lemma U16BytesOf(b: seq<byte>)
    requires |b| >= 2
    ensures U16Bytes(U16At(b, 0)) == b[..2]
  {
  }

  lemma Halves(lo: u16, hi: u16)
    ensures (lo + 0x1_0000 * hi) % 0x1_0000 == lo && (lo + 0x1_0000 * hi) / 0x1_0000 == hi
  {
  }

  lemma U32BytesOf(b: seq<byte>)
    requires |b| >= 4
    ensures U32Bytes(U32At(b, 0)) == b[..4]
  {
    var lo: int, hi: int := U16At(b, 0), U16At(b, 2);
    assert hi == U16At(b[2..], 0);
    U16BytesOf(b);
    U16BytesOf(b[2..]);
    hide U16At, U16Bytes;
    assert b[..4] == b[..2] + b[2..][..2];
    assert U32At(b, 0) == lo + 0x1_0000 * hi;
    Halves(lo, hi);
  }

  lemma BytesOf32(x: u32)
    ensures U32Bytes(x) == [x % 256, x / 256 % 256, x / 65536 % 256, x / 16777216]
  {
    var b := U32Bytes(x);
    hide U32Bytes, U16At, I32At;
    LittleEndian(b, 0);
    FourDigits(b[0], b[1], b[2], b[3]);
  }

  lemma FourDigits(b0: byte, b1: byte, b2: byte, b3: byte)
    ensures var i0: int, i1: int, i2: int, i3: int := b0, b1, b2, b3;
            var x := i0 + 256 * i1 + 65536 * i2 + 16777216 * i3;
            x % 256 == b0 && x / 256 % 256 == b1 && x / 65536 % 256 == b2 && x / 16777216 == b3
  {
    var i0: int, i1: int, i2: int, i3: int := b0, b1, b2, b3;
    var x := i0 + 256 * i1 + 65536 * i2 + 16777216 * i3;
    assert x / 256 == i1 + 256 * i2 + 65536 * i3;
    assert x / 65536 == i2 + 256 * i3;
  }

  predicate IsI32(x: int) {
    -0x8000_0000 <= x < 0x8000_0000
  }

  function I32Bytes(x: int): (b: seq<byte>)
    requires IsI32(x)
    ensures |b| == 4 && I32At(b, 0) == x
  {
    U32Bytes(if x < 0 then x + 0x1_0000_0000 else x)
  }

  // ---------- The same loads through a pointer into a buffer ----------

  function Load16(data: array<byte>, at: nat): u16
    requires at + 2 <= data.Length
    reads data
  {
    Word(data[at + 1], data[at])
  }

  function Load32(data: array<byte>, at: nat): u32
    requires at + 4 <= data.Length
    reads data
  {
    (Load16(data, at) as int) + 0x1_0000 * (Load16(data, at + 2) as int)
  }

  function LoadI32(data: array<byte>, at: nat): int
    requires at + 4 <= data.Length
    reads data
  {
    var u := Load32(data, at);
    if u < 0x8000_0000 then u else u - 0x1_0000_0000
  }
}
