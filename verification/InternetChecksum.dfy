/** The Internet checksum of ping_monitor_addr.cpp, against RFC 1071. */
module InternetChecksum {
  import opened Bytes

  const WRAP := 0x1_0000_0000

  // ---------- RFC 1071: 16-bit one's complement addition ----------

  /** Addition with end-around carry (RFC 1071 section 1). */
  function OnesAdd(a: u16, b: u16): u16 {
    if a + b <= 0xFFFF then a + b else a + b - 0xFFFF
  }

  function Not16(a: u16): u16 {
    0xFFFF - a
  }

  function Swap16(a: u16): u16 {
    a % 0x100 * 0x100 + a / 0x100
  }

  /** The sum RFC 1071 asks for: network-order words, an odd last byte padded with a zero byte. */
  function OnesSumBE(b: seq<byte>): u16 {
    if |b| == 0 then 0
    else if |b| == 1 then Word(b[0], 0)
    else OnesAdd(Word(b[0], b[1]), OnesSumBE(b[2..]))
  }

  /** The same sum over little-endian loads. */
  function OnesSumLE(b: seq<byte>): u16 {
    if |b| == 0 then 0
    else if |b| == 1 then b[0]
    else OnesAdd(U16At(b, 0), OnesSumLE(b[2..]))
  }

  /** The plain integer total of the little-endian words. */
  function WordTotal(b: seq<byte>): nat {
    if |b| == 0 then 0
    else if |b| == 1 then b[0]
    else U16At(b, 0) + WordTotal(b[2..])
  }

  // ---------- The code ----------

  function Fold32(sum: u32): u16 {
    var once := sum / 0x1_0000 + sum % 0x1_0000;
    (once + once / 0x1_0000) % 0x1_0000
  }

  /**
   * `length` is a C `int`; the accumulator is a `uint32_t`, so each addition wraps.
   * The result is the complement of the RFC 1071 sum exactly when the words of the
   * buffer total less than 2^32.
   */
  method Checksum(buf: array<byte>, length: int) returns (c: u16)
    requires IsI32(length) && length <= buf.Length
    ensures length <= 0 ==> c == 0xFFFF
    ensures length > 0 ==>
              (c == Not16(OnesSumLE(buf[..length])) <==> WordTotal(buf[..length]) < WRAP)
  {
    hide OnesSumLE, Fold32, Canonical, Word;
    var p := 0;
    var len := length;
    var sum: u32 := 0;
    ghost var data := buf[..if length > 0 then length else 0];
    assert data[0..] == data;
    while len > 1
      invariant 0 <= p && p + len == length
      invariant length > 0 ==> p <= length && (sum + WordTotal(data[p..])) % WRAP == WordTotal(data) % WRAP
      invariant length <= 0 ==> sum == 0 && len == length
    {
      ghost var rest := data[p..];
      assert rest[2..] == data[p + 2..];
      ghost var before := sum;
      sum := (sum + Word(buf[p + 1], buf[p])) % WRAP;
      WrapStep(before, U16At(rest, 0), WordTotal(rest[2..]));
      p, len := p + 2, len - 2;
    }
    if len == 1 {
      assert data[p..] == [buf[p]];
      sum := (sum + buf[p]) % WRAP;
    }
    c := Not16(Fold32(sum));
    FoldIsCanonical(0);
    CanonicalOfWord(0);
    if length > 0 {
      assert sum == WordTotal(data) % WRAP;
      WordTotalBound(data);
      OnesSumIsCanonical(data);
      FoldIsCanonical(sum);
      WrapChangesCanonical(WordTotal(data));
    }
  }

  // ---------- Proofs ----------

  /** The one's complement value of a non-negative total: zero only for zero. */
  function Canonical(n: nat): u16 {
    if n == 0 then 0 else 1 + (n - 1) % 0xFFFF
  }

  lemma WrapStep(sum: u32, word: u16, rest: nat)
    ensures ((sum + word) % WRAP + rest) % WRAP == (sum + (word + rest)) % WRAP
  {
    if sum + word >= WRAP {
      assert (sum + word) % WRAP == sum + word - WRAP;
    }
  }

  lemma CanonicalAdd(a: nat, b: nat)
    ensures OnesAdd(Canonical(a), Canonical(b)) == Canonical(a + b)
  {
    if a > 0 && b > 0 {
      var x, y := (a - 1) % 0xFFFF, (b - 1) % 0xFFFF;
      var p, q := (a - 1) / 0xFFFF, (b - 1) / 0xFFFF;
      assert a + b - 1 == 0xFFFF * (p + q) + (x + y + 1);
      if x + y + 1 < 0xFFFF {
        assert (a + b - 1) % 0xFFFF == x + y + 1;
      } else {
        assert a + b - 1 == 0xFFFF * (p + q + 1) + (x + y + 1 - 0xFFFF);
        assert (a + b - 1) % 0xFFFF == x + y + 1 - 0xFFFF;
      }
    }
  }

  lemma {:induction false} OnesSumIsCanonical(b: seq<byte>)
    ensures OnesSumLE(b) == Canonical(WordTotal(b))
  {
    hide Canonical, OnesAdd, Word;
    CanonicalOfWord(0);
    if |b| == 1 {
      CanonicalOfWord(b[0]);
    }
    if |b| > 1 {
      CanonicalOfWord(U16At(b, 0));
      OnesSumIsCanonical(b[2..]);
      CanonicalAdd(U16At(b, 0), WordTotal(b[2..]));
    }
  }

  /** Two folds of a 32-bit accumulator lose no carry. */
  lemma FoldIsCanonical(sum: u32)
    ensures Fold32(sum) == Canonical(sum)
  {
    var hi, lo := sum / 0x1_0000, sum % 0x1_0000;
    var once := hi + lo;
    if sum > 0 {
      assert sum - 1 == 0xFFFF * hi + (once - 1);
      if once - 1 < 0xFFFF {
        assert (sum - 1) % 0xFFFF == once - 1;
      } else {
        assert sum - 1 == 0xFFFF * (hi + 1) + (once - 0x1_0000);
        assert (sum - 1) % 0xFFFF == once - 0x1_0000;
      }
    }
  }

  lemma CanonicalCongruent(a: nat, b: nat)
    requires 0 < a <= b && Canonical(a) == Canonical(b)
    ensures (b - a) % 0xFFFF == 0
  {
    var i, j := (a - 1) / 0xFFFF, (b - 1) / 0xFFFF;
    assert b - a == 0xFFFF * (j - i);
  }

  /** Dropping a multiple of 2^32 always changes the one's complement value. */
  lemma WrapChangesCanonical(total: nat)
    requires total < 0xFFFF * WRAP
    ensures Canonical(total % WRAP) == Canonical(total) <==> total < WRAP
  {
    var q, r := total / WRAP, total % WRAP;
    CanonicalZero(r);
    CanonicalZero(total);
    if r > 0 && Canonical(r) == Canonical(total) {
      CanonicalCongruent(r, total);
      QuotientResidue(q);
      hide Canonical;
      assert total - r == WRAP * q;
    }
  }

  lemma QuotientResidue(q: nat)
    requires q < 0xFFFF
    ensures (WRAP * q) % 0xFFFF == q
  {
    assert WRAP * q == 0xFFFF * (0x1_0001 * q) + q;
  }

  lemma CanonicalZero(n: nat)
    ensures Canonical(n) == 0 <==> n == 0
  {
  }

  lemma {:induction false} WordTotalBound(b: seq<byte>)
    ensures WordTotal(b) <= 0xFFFF * ((|b| + 1) / 2)
  {
    if |b| > 1 {
      WordTotalBound(b[2..]);
    }
  }

  /** Every buffer of up to 131074 bytes is summed without overflow... */
  lemma NoOverflowUpTo131074(b: seq<byte>)
    requires |b| <= 131074
    ensures WordTotal(b) < WRAP
  {
    WordTotalBound(b);
  }

  /** ...and one byte more is too many for some buffer. */
  lemma OverflowAt131075()
    ensures exists b: seq<byte> :: |b| == 131075 && WordTotal(b) >= WRAP
  {
    var b := seq(131075, i => 0xFF);
    AllOnesTotal(b, 65537);
    assert |b| == 131075 && WordTotal(b) >= WRAP;
  }

  lemma {:induction false} AllOnesTotal(b: seq<byte>, words: nat)
    requires |b| == 2 * words + 1 && forall i :: 0 <= i < |b| ==> b[i] == 0xFF
    ensures WordTotal(b) == 0xFFFF * words + 0xFF
  {
    if words > 0 {
      AllOnesTotal(b[2..], words - 1);
    }
  }

  // ---------- Byte-order independence (RFC 1071 section 2) ----------

  lemma SwapWord(hi: byte, lo: byte)
    ensures Swap16(Word(hi, lo)) == Word(lo, hi)
  {
    assert Word(hi, lo) / 0x100 == hi && Word(hi, lo) % 0x100 == lo;
  }

  lemma SwapAdd(ah: byte, al: byte, bh: byte, bl: byte)
    ensures Swap16(OnesAdd(Word(ah, al), Word(bh, bl))) == OnesAdd(Word(al, ah), Word(bl, bh))
  {
    var carry := if Word(ah, al) + Word(bh, bl) > 0xFFFF then 1 else 0;
    var low := al + bl + carry;
    var k := if low >= 0x100 then 1 else 0;
    SwapWord(ah + bh + k - 0x100 * carry, low - 0x100 * k);
  }

  lemma SwapZero()
    ensures Swap16(0) == 0
  {
  }

  lemma WordOfByte(x: byte)
    ensures Word(0, x) == x
  {
  }

  lemma WordParts(x: u16)
    ensures x == Word(x / 0x100, x % 0x100) && Swap16(x) == Word(x % 0x100, x / 0x100)
  {
  }

  /** Summing little-endian words gives the byte-swapped network-order sum, for any buffer. */
  lemma {:induction false} ByteOrderIndependence(b: seq<byte>)
    ensures OnesSumLE(b) == Swap16(OnesSumBE(b))
  {
    hide OnesAdd, Swap16, Word;
    SwapZero();
    if |b| == 1 {
      SwapWord(b[0], 0);
      WordOfByte(b[0]);
    }
    if |b| > 1 {
      ByteOrderIndependence(b[2..]);
      var rest := OnesSumBE(b[2..]);
      WordParts(rest);
      SwapAdd(b[0], b[1], rest / 0x100, rest % 0x100);
    }
  }

  /** The worked example of RFC 1071 section 3, and the same with an odd byte more. */
  lemma WorkedExample()
    ensures OnesSumBE([0x00, 0x01, 0xf2, 0x03, 0xf4, 0xf5, 0xf6, 0xf7]) == 0xddf2
    ensures OnesSumBE([0x00, 0x01, 0xf2, 0x03, 0xf4, 0xf5, 0xf6, 0xf7, 0x12]) == 0xeff2
  {
    var b: seq<byte> := [0x00, 0x01, 0xf2, 0x03, 0xf4, 0xf5, 0xf6, 0xf7];
    var c: seq<byte> := b + [0x12];
    assert b[2..][2..][2..] == [0xf6, 0xf7] && b[2..][2..][2..][2..] == [];
    assert c[2..][2..][2..][2..] == [0x12];
    assert OnesSumBE(c[2..][2..][2..]) == OnesAdd(0xf6f7, 0x1200);
  }

  // ---------- Storing the checksum into the packet ----------

  /** `b` with the two bytes at `at` replaced by the little-endian bytes of `x`. */
  function StoreU16(b: seq<byte>, at: nat, x: u16): (r: seq<byte>)
    requires at + 2 <= |b|
    ensures |r| == |b|
  {
    b[at := x % 0x100][at + 1 := x / 0x100]
  }

  lemma {:induction false} StoreTotal(b: seq<byte>, at: nat, x: u16)
    requires at % 2 == 0 && at + 2 <= |b|
    ensures WordTotal(StoreU16(b, at, x)) == WordTotal(b) - U16At(b, at) + x
    ensures WordTotal(b) >= U16At(b, at)
  {
    var r := StoreU16(b, at, x);
    if at == 0 {
      assert r[2..] == b[2..];
    } else {
      StoreTotal(b[2..], at - 2, x);
      assert r[2..] == StoreU16(b[2..], at - 2, x);
    }
  }

  /**
   * Storing any value `x` into a zeroed, even-offset field makes the packet verify (its sum is
   * all ones) exactly when `x` is the complement of the sum, up to the two forms of zero.
   */
  lemma StoredFieldVerifies(b: seq<byte>, at: nat, x: u16)
    requires at % 2 == 0 && at + 2 <= |b| && U16At(b, at) == 0
    requires WordTotal(b) > 0
    ensures OnesSumLE(StoreU16(b, at, x)) == 0xFFFF <==>
            x == Not16(OnesSumLE(b)) || (x == 0xFFFF && Not16(OnesSumLE(b)) == 0)
  {
    hide OnesSumLE, WordTotal, StoreU16;
    StoreTotal(b, at, x);
    OnesSumIsCanonical(b);
    OnesSumIsCanonical(StoreU16(b, at, x));
    CanonicalAdd(WordTotal(b), x);
    CanonicalOfWord(x);
  }

  lemma CanonicalOfWord(x: u16)
    ensures Canonical(x) == x
  {
  }

  /** The checksum itself verifies for every buffer, the all-zero one included. */
  lemma SelfVerifying(b: seq<byte>, at: nat)
    requires at % 2 == 0 && at + 2 <= |b| && U16At(b, at) == 0
    ensures OnesSumLE(StoreU16(b, at, Not16(OnesSumLE(b)))) == 0xFFFF
    ensures OnesSumBE(StoreU16(b, at, Not16(OnesSumLE(b)))) == 0xFFFF
  {
    hide OnesSumLE, OnesSumBE, WordTotal, Swap16, StoreU16;
    var x := Not16(OnesSumLE(b));
    var r := StoreU16(b, at, x);
    if WordTotal(b) > 0 {
      StoredFieldVerifies(b, at, x);
    } else {
      StoreTotal(b, at, x);
      OnesSumIsCanonical(b);
      OnesSumIsCanonical(r);
      CanonicalOfWord(x);
    }
    ByteOrderIndependence(r);
    SwapAllOnes(OnesSumBE(r));
  }

  lemma SwapAllOnes(a: u16)
    requires Swap16(a) == 0xFFFF
    ensures a == 0xFFFF
  {
  }
}
