/**
 One work-item of mine_keccak_u256, from its arguments to its decision, and the proof that the
 decision is the contract's: the item reaches its compare-and-swap exactly when its nonce is a proof.
 */
module GpuSearch {
  import opened Bits
  import opened Fips202
  import opened KeccakTables
  import opened KeccakWords
  import opened Contract
  import opened NonceSpace
  import GpuKernel

  /** The scalar arguments of the kernel: challenge, prefix and target words. */
  datatype Args = Args(c: seq<Word>, p: seq<Word>, d: seq<Word>)

  ghost predicate WellFormed(a: Args) {
    |a.c| == 4 && |a.p| == 3 && |a.d| == 4
  }

  // ---------- The host's lane splitting (gpu/mod.rs) ----------

  function WordLe(b: seq<Byte>): Word {
    OfNat(FromLe(b), 64)
  }

  function WordBe(b: seq<Byte>): Word {
    OfNat(FromBe(b), 64)
  }

  function SplitChallengeLe(challenge: B256): seq<Word> {
    [WordLe(challenge[0..8]), WordLe(challenge[8..16]), WordLe(challenge[16..24]), WordLe(challenge[24..32])]
  }

  function SplitPrefixLanes(prefix: NoncePrefix): seq<Word> {
    [WordLe(prefix[0..8]), WordLe(prefix[8..16]), WordLe(prefix[16..24])]
  }

  function SplitU256Be(d: U256): seq<Word> {
    var b := ToBe(d, 32);
    [WordBe(b[0..8]), WordBe(b[8..16]), WordBe(b[16..24]), WordBe(b[24..32])]
  }

  function HostArgs(challenge: B256, prefix: NoncePrefix, target: U256): (a: Args)
    ensures WellFormed(a)
  {
    Args(SplitChallengeLe(challenge), SplitPrefixLanes(prefix), SplitU256Be(target))
  }

  // ---------- The kernel ----------

  /** ulong addition, modulo 2^64. */
  function AddW(a: Word, b: Word): Word {
    OfNat(Val(a) + Val(b), 64)
  }

  function PadFirst(): Word {
    OfNat(0x0000_0000_0000_0001, 64)
  }

  function PadLast(): Word {
    OfNat(0x8000_0000_0000_0000, 64)
  }

  /** Word i of the padding: 0x01 at byte 64, 0x80 at byte 135, then the zero capacity. */
  function PadAt(i: nat): Word {
    if i == 8 then PadFirst() else if i == 16 then PadLast() else Zero()
  }

  function Padding(): (s: seq<Word>)
    ensures |s| == 17
  {
    seq(17, k requires 0 <= k < 17 => PadAt(8 + k))
  }

  /** The one padded block. */
  function BlockWords(m: seq<Word>): (s: seq<Word>)
    requires |m| == 8
    ensures |s| == 25
  {
    m + Padding()
  }

  function MessageWords(a: Args, counter: Word): (m: seq<Word>)
    requires WellFormed(a)
    ensures |m| == 8
  {
    a.c + a.p + [BSwap(counter)]
  }

  /** The 256-bit number of four 64-bit numbers, most significant first. */
  function Limbs(v: seq<nat>): nat
    requires |v| == 4
  {
    v[0] * 0x1_0000_0000_0000_0000_0000_0000_0000_0000_0000_0000_0000_0000
    + v[1] * 0x1_0000_0000_0000_0000_0000_0000_0000_0000 + v[2] * TWO64 + v[3]
  }

  function SwappedVals(s: seq<Word>): (v: seq<nat>)
    requires |s| >= 4
    ensures |v| == 4
  {
    [Val(BSwap(s[0])), Val(BSwap(s[1])), Val(BSwap(s[2])), Val(BSwap(s[3]))]
  }

  function Vals(d: seq<Word>): (v: seq<nat>)
    requires |d| == 4
    ensures |v| == 4
  {
    [Val(d[0]), Val(d[1]), Val(d[2]), Val(d[3])]
  }

  /** What the item with this counter decides. */
  predicate ItemHits(a: Args, counter: Word)
    requires WellFormed(a)
  {
    Limbs(SwappedVals(PermuteWords(BlockWords(MessageWords(a, counter)), 24))) < Limbs(Vals(a.d))
  }

  lemma SameVal(v: Word, w: Word)
    ensures (v == w) == (Val(v) == Val(w)) && Val(v) < TWO64
  {
    OfNatVal(v);
    OfNatVal(w);
    ValBound(v);
    Pow2Table();
  }

  /**
   The comparison: nested, with an early return for every larger word. It decides the strict order
   of the two 256-bit numbers.
   */
  method EarlyExit(s: array<Word>, d: seq<Word>) returns (reachesCas: bool)
    requires s.Length == 25 && |d| == 4
    ensures reachesCas == (Limbs(SwappedVals(s[..])) < Limbs(Vals(d)))
  {
    hide BSwap, Val;
    var h0 := BSwap(s[0]);
    SameVal(h0, d[0]);
    SameVal(d[0], h0);
    SameVal(BSwap(s[1]), d[1]);
    SameVal(d[1], BSwap(s[1]));
    SameVal(BSwap(s[2]), d[2]);
    SameVal(d[2], BSwap(s[2]));
    SameVal(BSwap(s[3]), d[3]);
    SameVal(d[3], BSwap(s[3]));
    if Val(h0) > Val(d[0]) { return false; }
    if h0 == d[0] {
      var h1 := BSwap(s[1]);
      if Val(h1) > Val(d[1]) { return false; }
      if h1 == d[1] {
        var h2 := BSwap(s[2]);
        if Val(h2) > Val(d[2]) { return false; }
        if h2 == d[2] {
          var h3 := BSwap(s[3]);
          if Val(h3) >= Val(d[3]) { return false; }
        }
      }
    }
    return true;
  }

  method FillMessage(s: array<Word>, a: Args, counter: Word)
    requires s.Length == 25 && WellFormed(a)
    modifies s
    ensures s[..8] == MessageWords(a, counter)
  {
    hide BSwap;
    s[0], s[1], s[2], s[3] := a.c[0], a.c[1], a.c[2], a.c[3];
    s[4], s[5], s[6], s[7] := a.p[0], a.p[1], a.p[2], BSwap(counter);
  }

  method FillPadding(s: array<Word>, first: Word, last: Word, zero: Word)
    requires s.Length == 25
    modifies s
    ensures s[..8] == old(s[..8])
    ensures forall i :: 8 <= i < 25 ==> s[i] == if i == 8 then first else if i == 16 then last else zero
  {
    s[8] := first;
    s[9] := zero; s[10] := zero; s[11] := zero; s[12] := zero;
    s[13] := zero; s[14] := zero; s[15] := zero;
    s[16] := last;
    s[17] := zero; s[18] := zero; s[19] := zero; s[20] := zero;
    s[21] := zero; s[22] := zero; s[23] := zero; s[24] := zero;
  }

  /** One work-item up to its compare-and-swap, with its own 25 words of state. */
  method RunItem(a: Args, counterBase: Word, globalId: Word) returns (reachesCas: bool, counter: Word)
    requires WellFormed(a)
    ensures counter == AddW(counterBase, globalId)
    ensures reachesCas == ItemHits(a, counter)
  {
    hide PadFirst, PadLast, Zero, MessageWords, AddW, PermuteWords, Limbs, SwappedVals, Vals;
    counter := AddW(counterBase, globalId);
    var s := new Word[25];
    FillMessage(s, a, counter);
    FillPadding(s, PadFirst(), PadLast(), Zero());
    assert s[..] == BlockWords(MessageWords(a, counter));
    GpuKernel.KeccakF1600(s);
    reachesCas := EarlyExit(s, a.d);
  }

  // ---------- The block is the padded message ----------

  function Message(challenge: B256, prefix: NoncePrefix, counter: U64): (m: seq<Byte>)
    ensures |m| == 64
  {
    challenge + prefix + ToBe(counter, 8)
  }

  lemma PowNonceBytes(prefix: NoncePrefix, counter: U64)
    ensures ToBe(PowNonce(prefix, counter), 32) == prefix + ToBe(counter, 8)
  {
    ToBeFromBe(prefix + ToBe(counter, 8));
  }

  /** Lane 7: the byte-swapped counter is its big-endian bytes, read little-endian. */
  lemma CounterWord(counter: U64)
    ensures BSwap(OfNat(counter, 64)) == WordLe(ToBe(counter, 8))
  {
    hide BSwap, OfNat, ToBe;
    var b := ToBe(counter, 8);
    var r := Reverse(b);
    Pow2Table();
    FromBeToBe(counter, 8);
    FromBeIsFromLe(b);
    FromBeIsFromLe(r);
    assert Reverse(r) == b;
    BSwapBytes(r);
  }

  lemma MessageWordsAre(challenge: B256, prefix: NoncePrefix, target: U256, counter: U64, i: nat)
    requires i < 8
    ensures MessageWords(HostArgs(challenge, prefix, target), OfNat(counter, 64))[i]
         == WordLe(Message(challenge, prefix, counter)[8 * i..8 * i + 8])
  {
    hide BSwap, WordLe, WordBe, ToBe, SplitU256Be;
    var m := Message(challenge, prefix, counter);
    CounterWord(counter);
    assert m[0..8] == challenge[0..8] && m[8..16] == challenge[8..16];
    assert m[16..24] == challenge[16..24] && m[24..32] == challenge[24..32];
    assert m[32..40] == prefix[0..8] && m[40..48] == prefix[8..16] && m[48..56] == prefix[16..24];
    assert m[56..64] == ToBe(counter, 8);
  }

  lemma PadWords(z: nat)
    requires z < 64
    ensures PadFirst()[z] == (z == 0) && PadLast()[z] == (z == 63)
  {
    hide OfNat;
    PadWord([1, 0, 0, 0, 0, 0, 0, 0], z);
    PadWord([0, 0, 0, 0, 0, 0, 0, 0x80], z);
    FromLe8();
    PadByte(z % 8);
  }

  lemma PadWord(b: seq<Byte>, z: nat)
    requires |b| == 8 && z < 64
    ensures WordLe(b)[z] == OfNat(b[z / 8], 8)[z % 8]
  {
    hide OfNat, FromLe;
    FromLeBits(b);
  }

  lemma FromLe8()
    ensures FromLe([1, 0, 0, 0, 0, 0, 0, 0]) == 1
    ensures FromLe([0, 0, 0, 0, 0, 0, 0, 0x80]) == 0x8000_0000_0000_0000
  {
    assert FromLe([0, 0, 0, 0x80]) == 0x8000_0000;
    assert [0, 0, 0, 0, 0x80] == [0] + [0, 0, 0, 0x80];
  }

  lemma PadByte(j: nat)
    requires j < 8
    ensures OfNat(0, 8)[j] == false && OfNat(1, 8)[j] == (j == 0) && OfNat(0x80, 8)[j] == (j == 7)
  {
    hide OfNat, Val;
    ByteOf([false, false, false, false, false, false, false, false]);
    ByteOf([true, false, false, false, false, false, false, false]);
    ByteOf([false, false, false, false, false, false, false, true]);
  }

  lemma ByteOf(s: seq<bool>)
    requires |s| == 8
    ensures OfNat(B(s[0]) + 2 * B(s[1]) + 4 * B(s[2]) + 8 * B(s[3])
                  + 16 * B(s[4]) + 32 * B(s[5]) + 64 * B(s[6]) + 128 * B(s[7]), 8) == s
  {
    hide OfNat, Val;
    ByteVal8(s);
    OfNatVal(s);
  }

  // ---------- The permuted block is the sponge ----------

  function Padded(m: seq<Byte>): (P: seq<bool>)
    requires |m| == 64
    ensures |P| == RATE
  {
    ByteBits(m) + Pad(512)
  }

  lemma OneBlock(m: seq<Byte>)
    requires |m| == 64
    ensures Keccak512(ByteBits(m)) == KeccakF(XorBlock(ZeroBits(1600), Padded(m)))[..DIGEST]
  {
    hide KeccakF, XorBlock, Pad;
    var S, P := ZeroBits(1600), Padded(m);
    assert P[..RATE] == P && P[RATE..] == [];
    var T := KeccakF(XorBlock(S, P));
    assert Absorb(T, []) == T;
  }

  /** The filled block is the absorbed state: bit z of word i is bit 64 i + z of the block. */
  lemma BlockBit(m: seq<Byte>, w: seq<Word>, i: nat, z: nat)
    requires |m| == 64 && |w| == 8 && i < 25 && z < 64
    requires forall k :: 0 <= k < 8 ==> w[k] == WordLe(m[8 * k..8 * k + 8])
    ensures BlockWords(w)[i][z] == XorBlock(ZeroBits(1600), Padded(m))[64 * i + z]
  {
    hide OfNat, WordLe, PadFirst, PadLast;
    if i < 8 {
      var b := m[8 * i..8 * i + 8];
      PadWord(b, z);
      assert (64 * i + z) / 8 == 8 * i + z / 8 && (64 * i + z) % 8 == z % 8;
      assert b[z / 8] == m[8 * i + z / 8];
    } else {
      PadWords(z);
    }
  }

  lemma BlockHolds(m: seq<Byte>, w: seq<Word>)
    requires |m| == 64 && |w| == 8
    requires forall k :: 0 <= k < 8 ==> w[k] == WordLe(m[8 * k..8 * k + 8])
    ensures Holds(BlockWords(w), StateOf(XorBlock(ZeroBits(1600), Padded(m))))
  {
    hide BlockWords, XorBlock, Padded, WordLe;
    var X := XorBlock(ZeroBits(1600), Padded(m));
    forall i, z | 0 <= i < 25 && 0 <= z < 64
      ensures BlockWords(w)[i][z] == StateOf(X)(i % 5, i / 5, z)
    {
      BlockBit(m, w, i, z);
      assert 64 * (5 * (i / 5) + i % 5) + z == 64 * i + z;
    }
  }

  /** Word i of the permuted block carries bytes 8i to 8i + 7 of the digest. */
  lemma DigestWord(m: seq<Byte>, w: seq<Word>, i: nat)
    requires |m| == 64 && |w| == 8 && i < 4
    requires forall k :: 0 <= k < 8 ==> w[k] == WordLe(m[8 * k..8 * k + 8])
    ensures PermuteWords(BlockWords(w), 24)[i] == WordLe(Keccak256(m)[8 * i..8 * i + 8])
  {
    hide PermuteWords, BlockWords, XorBlock, Padded, WordLe, Permute, Keccak512, BitBytes, ByteBits, OfNat, FromLe;
    var X := XorBlock(ZeroBits(1600), Padded(m));
    var F := PermuteWords(BlockWords(w), 24);
    BlockHolds(m, w);
    PermuteHolds(BlockWords(w), StateOf(X), 24);
    OneBlock(m);
    var Z := Keccak512(ByteBits(m));
    var b := Keccak256(m);
    ByteBitsOfBitBytes(Z);
    forall z | 0 <= z < 64
      ensures F[i][z] == Z[64 * i + z]
    {
      assert (64 * i + z) / 64 == i && (64 * i + z) % 64 == z && (64 * i + z) / 320 == i / 5;
    }
    SliceBits(b, i);
    assert F[i] == Z[64 * i..64 * i + 64];
  }

  lemma SliceBits(b: seq<Byte>, i: nat)
    requires |b| == 32 && i < 4
    ensures WordLe(b[8 * i..8 * i + 8]) == ByteBits(b)[64 * i..64 * i + 64]
  {
    hide OfNat, FromLe;
    var c := b[8 * i..8 * i + 8];
    FromLeBits(c);
    forall z | 0 <= z < 64
      ensures ByteBits(c)[z] == ByteBits(b)[64 * i + z]
    {
      assert (64 * i + z) / 8 == 8 * i + z / 8 && (64 * i + z) % 8 == z % 8;
    }
  }

  // ---------- The comparison is the contract's ----------

  function LimbVals(b: seq<Byte>): (v: seq<nat>)
    requires |b| == 32
    ensures |v| == 4
  {
    [FromBe(b[0..8]), FromBe(b[8..16]), FromBe(b[16..24]), FromBe(b[24..32])]
  }

  lemma LastLimb(a: seq<Byte>, b: seq<Byte>)
    requires |b| == 8
    ensures FromBe(a + b) == FromBe(a) * TWO64 + FromBe(b)
  {
    hide FromBe, Pow2;
    Pow2Table();
    FromBeAppend(a, b);
  }

  lemma LimbsOfBytes(b: seq<Byte>)
    requires |b| == 32
    ensures Limbs(LimbVals(b)) == FromBe(b)
  {
    hide FromBe;
    LastLimb(b[0..8], b[8..16]);
    LastLimb(b[0..16], b[16..24]);
    LastLimb(b[0..24], b[24..32]);
    assert b[0..16] == b[0..8] + b[8..16] && b[0..24] == b[0..16] + b[16..24] && b == b[0..24] + b[24..32];
  }

  lemma ValWordBe(b: seq<Byte>)
    requires |b| == 8
    ensures Val(WordBe(b)) == FromBe(b)
  {
    hide Val, OfNat, FromBe, Pow2;
    FromBeBound(b);
    ValOfNat(FromBe(b), 64);
  }

  lemma TargetVals(target: U256)
    ensures Limbs(Vals(SplitU256Be(target))) == target
  {
    hide Val, WordBe, ToBe, Limbs;
    var b := ToBe(target, 32);
    ValWordBe(b[0..8]);
    ValWordBe(b[8..16]);
    ValWordBe(b[16..24]);
    ValWordBe(b[24..32]);
    LimbsOfBytes(b);
    Pow2Is256();
    FromBeToBe(target, 32);
  }

  lemma DigestVals(m: seq<Byte>, w: seq<Word>)
    requires |m| == 64 && |w| == 8
    requires forall k :: 0 <= k < 8 ==> w[k] == WordLe(m[8 * k..8 * k + 8])
    ensures Limbs(SwappedVals(PermuteWords(BlockWords(w), 24))) == FromBe(Keccak256(m))
  {
    hide Val, WordLe, WordBe, BSwap, PermuteWords, BlockWords, Keccak256, Limbs, FromBe;
    var F, b := PermuteWords(BlockWords(w), 24), Keccak256(m);
    forall i | 0 <= i < 4
      ensures Val(BSwap(F[i])) == FromBe(b[8 * i..8 * i + 8])
    {
      DigestWord(m, w, i);
      SwapLeBe(b[8 * i..8 * i + 8]);
      ValWordBe(b[8 * i..8 * i + 8]);
    }
    assert SwappedVals(F) == LimbVals(b);
    LimbsOfBytes(b);
  }

  lemma SwapLeBe(b: seq<Byte>)
    requires |b| == 8
    ensures BSwap(WordLe(b)) == WordBe(b)
  {
    hide BSwap, OfNat, FromLe, FromBe;
    BSwapBytes(b);
  }

  /**
   The kernel's decision is the contract's rule: for every challenge, prefix, target and counter,
   the work-item reaches its compare-and-swap if and only if
   keccak256(challenge || prefix || counter) is below the target.
   */
  lemma HitIsProof(challenge: B256, prefix: NoncePrefix, target: U256, counter: U64)
    ensures ItemHits(HostArgs(challenge, prefix, target), OfNat(counter, 64))
        <==> ProofIsValid(challenge, PowNonce(prefix, counter), target)
  {
    hide PermuteWords, BlockWords, MessageWords, Keccak256, SplitU256Be, FromBe, Limbs, SwappedVals, Vals, WordLe,
        ToBe, PowNonce;
    var a := HostArgs(challenge, prefix, target);
    var m := Message(challenge, prefix, counter);
    var w := MessageWords(a, OfNat(counter, 64));
    forall k | 0 <= k < 8
      ensures w[k] == WordLe(m[8 * k..8 * k + 8])
    {
      MessageWordsAre(challenge, prefix, target, counter, k);
    }
    DigestVals(m, w);
    TargetVals(target);
    PowNonceBytes(prefix, counter);
    assert challenge + ToBe(PowNonce(prefix, counter), 32) == m;
  }
}
