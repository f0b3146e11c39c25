/**
 Bits, bytes and machine words. A bit string is least significant bit first, as in section B.1 of
 FIPS 202; an OpenCL ulong is a string of 64 bits, and a Rust u64 is a number below 2^64.
 */
module Bits {

  type Byte = n: int | 0 <= n < 256
  type Word = w: seq<bool> | |w| == 64 witness seq(64, _ => false)

  const TWO64 := 0x1_0000_0000_0000_0000
  const TWO256 := 0x1_0000_0000_0000_0000_0000_0000_0000_0000_0000_0000_0000_0000_0000_0000_0000_0000

  function Pow2(n: nat): (p: nat)
    ensures p >= 1
  {
    if n == 0 then 1 else 2 * Pow2(n - 1)
  }

  type B256 = b: seq<Byte> | |b| == 32 witness seq(32, _ => 0)
  type U64 = n: nat | n < TWO64
  type U256 = n: nat | n < TWO256

  // ---------- Bit strings and numbers ----------

  function Val(s: seq<bool>): nat {
    if |s| == 0 then 0 else (if s[0] then 1 else 0) + 2 * Val(s[1..])
  }

  /** The low `width` bits of n. */
  function OfNat(n: nat, width: nat): (s: seq<bool>)
    ensures |s| == width
    decreases width, n
  {
    if width == 0 then [] else [n % 2 == 1] + OfNat(n / 2, width - 1)
  }

  lemma {:induction false} ValBound(s: seq<bool>)
    ensures Val(s) < Pow2(|s|)
  {
    if |s| > 0 {
      ValBound(s[1..]);
    }
  }

  lemma {:induction false} OfNatVal(s: seq<bool>)
    ensures OfNat(Val(s), |s|) == s
  {
    if |s| > 0 {
      OfNatVal(s[1..]);
    }
  }

  lemma {:induction false} ValOfNat(n: nat, width: nat)
    requires n < Pow2(width)
    ensures Val(OfNat(n, width)) == n
  {
    if width > 0 {
      ValOfNat(n / 2, width - 1);
      assert OfNat(n, width)[1..] == OfNat(n / 2, width - 1);
    }
  }

  lemma ScaleUp(d: int, p: nat)
    requires p > 0
    ensures d >= 1 ==> d * p >= p
    ensures d <= -1 ==> d * p + p <= 0
  {
  }

  lemma DivModIs(n: nat, p: nat, q: nat, r: nat)
    requires 0 <= r < p && n == q * p + r
    ensures n / p == q && n % p == r
  {
    var d := q - n / p;
    assert n == n / p * p + n % p;
    assert d * p == n % p - r;
    ScaleUp(d, p);
  }

  lemma HalfOfRest(n: nat, p: nat)
    requires p > 0
    ensures n % (2 * p) / 2 == n / 2 % p && n % (2 * p) % 2 == n % 2
  {
    var q, r, b := n / 2 / p, n / 2 % p, n % 2;
    assert n / 2 == q * p + r;
    assert q * (2 * p) == 2 * (q * p);
    DivModIs(n, 2 * p, q, 2 * r + b);
  }

  /** Only the low bits matter: arithmetic that wraps at 2^width. */
  lemma {:induction false} OfNatWraps(n: nat, width: nat)
    ensures OfNat(n % Pow2(width), width) == OfNat(n, width)
  {
    if width > 0 {
      HalfOfRest(n, Pow2(width - 1));
      OfNatWraps(n / 2, width - 1);
    }
  }

  lemma {:induction false} Pow2Add(m: nat, n: nat)
    ensures Pow2(m + n) == Pow2(m) * Pow2(n)
  {
    if m > 0 {
      Pow2Add(m - 1, n);
      assert Pow2(m) * Pow2(n) == 2 * (Pow2(m - 1) * Pow2(n));
    }
  }

  lemma Pow2Table()
    ensures Pow2(8) == 256 && Pow2(64) == TWO64
  {
    assert Pow2(4) == 16;
    Pow2Add(4, 4);
    Pow2Add(8, 8);
    Pow2Add(16, 16);
    Pow2Add(32, 32);
  }

  lemma Pow2Is256()
    ensures Pow2(128) == TWO64 * TWO64 && Pow2(192) == TWO64 * TWO64 * TWO64 && Pow2(256) == TWO256
  {
    hide Pow2;
    Pow2Table();
    Pow2Add(64, 64);
    Pow2Add(128, 64);
    Pow2Add(128, 128);
  }

  lemma {:induction false} OfNatSplit(lo: nat, hi: nat, a: nat, width: nat)
    requires lo < Pow2(a)
    ensures OfNat(lo + Pow2(a) * hi, a + width) == OfNat(lo, a) + OfNat(hi, width)
  {
    if a > 0 {
      var q := Pow2(a - 1) * hi;
      assert Pow2(a) * hi == 2 * q;
      assert (lo + 2 * q) % 2 == lo % 2 && (lo + 2 * q) / 2 == lo / 2 + q;
      OfNatSplit(lo / 2, hi, a - 1, width);
    }
  }

  // ---------- Bytes and numbers ----------

  /** from_le_bytes */
  function FromLe(b: seq<Byte>): nat {
    if |b| == 0 then 0 else b[0] + 256 * FromLe(b[1..])
  }

  /** from_be_bytes */
  function FromBe(b: seq<Byte>): nat {
    if |b| == 0 then 0 else 256 * FromBe(b[..|b| - 1]) + b[|b| - 1]
  }

  /** to_be_bytes, with `width` bytes */
  function ToBe(n: nat, width: nat): (b: seq<Byte>)
    ensures |b| == width
    decreases width, n
  {
    if width == 0 then [] else ToBe(n / 256, width - 1) + [n % 256]
  }

  function Reverse(b: seq<Byte>): (r: seq<Byte>)
    ensures |r| == |b|
  {
    seq(|b|, i requires 0 <= i < |b| => b[|b| - 1 - i])
  }

  /** Section B.1 of FIPS 202: bit z of a byte string is bit z mod 8 of byte z / 8. */
  function ByteBits(b: seq<Byte>): (s: seq<bool>)
    ensures |s| == 8 * |b|
  {
    seq(8 * |b|, z requires 0 <= z < 8 * |b| => OfNat(b[z / 8], 8)[z % 8])
  }

  function BitBytes(s: seq<bool>): (b: seq<Byte>)
    requires |s| % 8 == 0
    ensures |b| == |s| / 8
  {
    seq(|s| / 8, k requires 0 <= k < |s| / 8 => ByteVal(s[8 * k..8 * k + 8]))
  }

  function ByteVal(s: seq<bool>): Byte
    requires |s| == 8
  {
    ValBound(s);
    Pow2Table();
    Val(s)
  }

  lemma ByteBitsOfBitBytes(s: seq<bool>)
    requires |s| % 8 == 0
    ensures ByteBits(BitBytes(s)) == s
  {
    var b := BitBytes(s);
    forall z | 0 <= z < |s|
      ensures ByteBits(b)[z] == s[z]
    {
      var k := z / 8;
      OfNatVal(s[8 * k..8 * k + 8]);
    }
  }

  lemma ByteBitsCons(b: seq<Byte>)
    requires |b| > 0
    ensures ByteBits(b) == OfNat(b[0], 8) + ByteBits(b[1..])
  {
    hide OfNat;
    forall z | 8 <= z < 8 * |b|
      ensures ByteBits(b)[z] == ByteBits(b[1..])[z - 8]
    {
      assert (z - 8) / 8 == z / 8 - 1 && (z - 8) % 8 == z % 8;
    }
  }

  /** A little-endian number has the bits of its bytes. */
  lemma {:induction false} FromLeBits(b: seq<Byte>)
    ensures OfNat(FromLe(b), 8 * |b|) == ByteBits(b)
  {
    hide OfNat, Pow2, ByteBits;
    if |b| == 0 {
      assert OfNat(0, 0) == [] && ByteBits(b) == [];
    } else {
      FromLeBits(b[1..]);
      Pow2Table();
      OfNatSplit(b[0], FromLe(b[1..]), 8, 8 * (|b| - 1));
      ByteBitsCons(b);
    }
  }

  lemma {:induction false} FromBeIsFromLe(b: seq<Byte>)
    ensures FromBe(b) == FromLe(Reverse(b))
  {
    if |b| > 0 {
      FromBeIsFromLe(b[..|b| - 1]);
      assert Reverse(b)[1..] == Reverse(b[..|b| - 1]);
    }
  }

  /** The width in bytes bounds the number: 256^n, written as a power of two. */
  lemma {:induction false} FromBeBound(b: seq<Byte>)
    ensures FromBe(b) < Pow2(8 * |b|)
  {
    if |b| > 0 {
      FromBeBound(b[..|b| - 1]);
      Pow2Table();
      Pow2Add(8, 8 * (|b| - 1));
    }
  }

  lemma {:induction false} ToBeFromBe(b: seq<Byte>)
    ensures ToBe(FromBe(b), |b|) == b
  {
    if |b| > 0 {
      ToBeFromBe(b[..|b| - 1]);
      assert b == b[..|b| - 1] + [b[|b| - 1]];
    }
  }

  lemma {:induction false} FromBeToBe(n: nat, width: nat)
    requires n < Pow2(8 * width)
    ensures FromBe(ToBe(n, width)) == n
  {
    if width > 0 {
      Pow2Table();
      Pow2Add(8, 8 * (width - 1));
      FromBeToBe(n / 256, width - 1);
      assert ToBe(n, width)[..width - 1] == ToBe(n / 256, width - 1);
    }
  }

  lemma {:induction false} FromBeAppend(a: seq<Byte>, b: seq<Byte>)
    ensures FromBe(a + b) == FromBe(a) * Pow2(8 * |b|) + FromBe(b)
  {
    if |b| == 0 {
      assert a + b == a;
    } else {
      var b' := b[..|b| - 1];
      var f, p := FromBe(a), Pow2(8 * |b'|);
      assert Pow2(8 * |b|) == 256 * p by {
        Pow2Table();
        Pow2Add(8, 8 * |b'|);
      }
      assert FromBe(a + b') == f * p + FromBe(b') by {
        FromBeAppend(a, b');
      }
      assert (a + b)[..|a + b| - 1] == a + b';
      assert f * (256 * p) == 256 * (f * p);
    }
  }

  // ---------- Operators of the OpenCL kernel on ulong ----------

  function Xor(a: bool, b: bool): bool { a != b }

  function Zero(): Word {
    seq(64, _ => false)
  }

  function XorW(a: Word, b: Word): Word {
    seq(64, z requires 0 <= z < 64 => Xor(a[z], b[z]))
  }

  function AndW(a: Word, b: Word): Word {
    seq(64, z requires 0 <= z < 64 => a[z] && b[z])
  }

  function OrW(a: Word, b: Word): Word {
    seq(64, z requires 0 <= z < 64 => a[z] || b[z])
  }

  function NotW(a: Word): Word {
    seq(64, z requires 0 <= z < 64 => !a[z])
  }

  function Shl(a: Word, n: nat): Word {
    seq(64, z requires 0 <= z < 64 => z >= n && a[z - n])
  }

  function Shr(a: Word, n: nat): Word {
    seq(64, z requires 0 <= z < 64 => z + n < 64 && a[z + n])
  }

  /** ROL64 */
  function Rol(a: Word, n: nat): Word
    requires n <= 64
  {
    OrW(Shl(a, n), Shr(a, 64 - n))
  }

  lemma RolBit(a: Word, n: nat, z: nat)
    requires n < 64 && z < 64
    ensures Rol(a, n)[z] == a[(z - n) % 64]
  {
  }

  /** The constant 0xff at byte k. */
  function ByteMask(k: nat): Word {
    seq(64, z requires 0 <= z < 64 => z / 8 == k)
  }

  /** bswap64 */
  function BSwap(v: Word): Word {
    OrW(OrW(OrW(OrW(OrW(OrW(OrW(
      Shr(AndW(v, ByteMask(7)), 56),
      Shr(AndW(v, ByteMask(6)), 40)),
      Shr(AndW(v, ByteMask(5)), 24)),
      Shr(AndW(v, ByteMask(4)), 8)),
      Shl(AndW(v, ByteMask(3)), 8)),
      Shl(AndW(v, ByteMask(2)), 24)),
      Shl(AndW(v, ByteMask(1)), 40)),
      Shl(AndW(v, ByteMask(0)), 56))
  }

  lemma BSwapByte(v: Word, k: nat, j: nat)
    requires k < 8 && j < 8
    ensures BSwap(v)[8 * k + j] == v[8 * (7 - k) + j]
  {
    match k
    case 0 => case 1 => case 2 => case 3 => case 4 => case 5 => case 6 => case _ =>
  }

  /** bswap64 moves every bit of byte k to the same bit of byte 7 - k. */
  lemma BSwapBit(v: Word, z: nat)
    requires z < 64
    ensures BSwap(v)[z] == v[8 * (7 - z / 8) + z % 8]
  {
    hide BSwap;
    BSwapByte(v, z / 8, z % 8);
  }

  lemma BSwapReverses(b: seq<Byte>)
    requires |b| == 8
    ensures BSwap(ByteBits(b)) == ByteBits(Reverse(b))
  {
    hide BSwap, OfNat;
    var v, r := ByteBits(b), Reverse(b);
    forall z | 0 <= z < 64
      ensures BSwap(v)[z] == ByteBits(r)[z]
    {
      BSwapBit(v, z);
      assert r[z / 8] == b[7 - z / 8];
    }
  }

  /** bswap64 turns the word of eight bytes read little-endian into the word read big-endian. */
  lemma BSwapBytes(b: seq<Byte>)
    requires |b| == 8
    ensures BSwap(OfNat(FromLe(b), 64)) == OfNat(FromBe(b), 64)
  {
    hide BSwap, OfNat, FromLe, FromBe, ByteBits, Reverse;
    FromLeBits(b);
    FromBeIsFromLe(b);
    FromLeBits(Reverse(b));
    BSwapReverses(b);
  }
}
