/**
 mine_keccak of keccak_kernel.cl, the kernel with a 64-bit nonce, statement by statement: its own
 permutation, block and comparison, proved to decide what mine_keccak_u256 decides under a zero prefix.
 */
module LegacyKernel {
  import opened Bits
  import opened KeccakWords
  import opened Contract
  import opened NonceSpace
  import opened GpuSearch

  const ZERO_PREFIX: NoncePrefix := seq(24, _ => 0)

  const LEGACY_RC: seq<nat> := [
    0x0000000000000001, 0x0000000000008082,
    0x800000000000808a, 0x8000000080008000,
    0x000000000000808b, 0x0000000080000001,
    0x8000000080008081, 0x8000000000008009,
    0x000000000000008a, 0x0000000000000088,
    0x0000000080008009, 0x000000008000000a,
    0x000000008000808b, 0x800000000000008b,
    0x8000000000008089, 0x8000000000008003,
    0x8000000000008002, 0x8000000000000080,
    0x000000000000800a, 0x800000008000000a,
    0x8000000080008081, 0x8000000000008080,
    0x0000000080000001, 0x8000000080008008]

  // ---------- keccak_f1600, one statement after the other ----------

  method ThetaLine0(s: array<Word>, D0: Word)
    requires s.Length == 25
    modifies s
    ensures forall i :: 0 <= i < 25 ==> s[i] == if i % 5 == 0 then XorW(old(s[i]), D0) else old(s[i])
  {
    hide XorW;
    s[0] := XorW(s[0], D0); s[5] := XorW(s[5], D0); s[10] := XorW(s[10], D0);
    s[15] := XorW(s[15], D0); s[20] := XorW(s[20], D0);
  }

  method ThetaLine1(s: array<Word>, D1: Word)
    requires s.Length == 25
    modifies s
    ensures forall i :: 0 <= i < 25 ==> s[i] == if i % 5 == 1 then XorW(old(s[i]), D1) else old(s[i])
  {
    hide XorW;
    s[1] := XorW(s[1], D1); s[6] := XorW(s[6], D1); s[11] := XorW(s[11], D1);
    s[16] := XorW(s[16], D1); s[21] := XorW(s[21], D1);
  }

  method ThetaLine2(s: array<Word>, D2: Word)
    requires s.Length == 25
    modifies s
    ensures forall i :: 0 <= i < 25 ==> s[i] == if i % 5 == 2 then XorW(old(s[i]), D2) else old(s[i])
  {
    hide XorW;
    s[2] := XorW(s[2], D2); s[7] := XorW(s[7], D2); s[12] := XorW(s[12], D2);
    s[17] := XorW(s[17], D2); s[22] := XorW(s[22], D2);
  }

  method ThetaLine3(s: array<Word>, D3: Word)
    requires s.Length == 25
    modifies s
    ensures forall i :: 0 <= i < 25 ==> s[i] == if i % 5 == 3 then XorW(old(s[i]), D3) else old(s[i])
  {
    hide XorW;
    s[3] := XorW(s[3], D3); s[8] := XorW(s[8], D3); s[13] := XorW(s[13], D3);
    s[18] := XorW(s[18], D3); s[23] := XorW(s[23], D3);
  }

  method ThetaLine4(s: array<Word>, D4: Word)
    requires s.Length == 25
    modifies s
    ensures forall i :: 0 <= i < 25 ==> s[i] == if i % 5 == 4 then XorW(old(s[i]), D4) else old(s[i])
  {
    hide XorW;
    s[4] := XorW(s[4], D4); s[9] := XorW(s[9], D4); s[14] := XorW(s[14], D4);
    s[19] := XorW(s[19], D4); s[24] := XorW(s[24], D4);
  }

  method ThetaLines(s: array<Word>, D0: Word, D1: Word, D2: Word, D3: Word, D4: Word)
    requires s.Length == 25
    modifies s
    ensures forall i :: 0 <= i < 25 ==> s[i] == XorW(old(s[i]), [D0, D1, D2, D3, D4][i % 5])
  {
    hide XorW;
    ThetaLine0(s, D0);
    ThetaLine1(s, D1);
    ThetaLine2(s, D2);
    ThetaLine3(s, D3);
    ThetaLine4(s, D4);
  }

  method Theta(s: array<Word>)
    requires s.Length == 25
    modifies s
    ensures s[..] == ThetaWords(old(s[..]))
  {
    hide XorW, Rol, ThetaWords, Sum5;
    ghost var was := s[..];
    var C0 := Sum5(s[0], s[5], s[10], s[15], s[20]);
    var C1 := Sum5(s[1], s[6], s[11], s[16], s[21]);
    var C2 := Sum5(s[2], s[7], s[12], s[17], s[22]);
    var C3 := Sum5(s[3], s[8], s[13], s[18], s[23]);
    var C4 := Sum5(s[4], s[9], s[14], s[19], s[24]);
    var D0 := XorW(C4, Rol(C1, 1));
    var D1 := XorW(C0, Rol(C2, 1));
    var D2 := XorW(C1, Rol(C3, 1));
    var D3 := XorW(C2, Rol(C4, 1));
    var D4 := XorW(C3, Rol(C0, 1));
    assert D0 == Effect(was, 0) && D1 == Effect(was, 1) && D2 == Effect(was, 2);
    assert D3 == Effect(was, 3) && D4 == Effect(was, 4);
    ThetaLines(s, D0, D1, D2, D3, D4);
    assert forall i :: 0 <= i < 25 ==> [D0, D1, D2, D3, D4][i % 5] == Effect(was, i % 5);
    hide Effect;
    forall i | 0 <= i < 25
      ensures s[i] == ThetaWords(was)[i]
    {
      ThetaShape(was, i);
    }
  }

  method ChiLine0(s: array<Word>, B00: Word, B1: Word, B2: Word, B3: Word, B4: Word)
    requires s.Length == 25
    modifies s
    ensures s[..] == ChiRow(B00, B1, B2, B3, B4) + old(s[5..])
  {
    hide ChiW;
    s[0] := ChiW(B00, B1, B2);
    s[1] := ChiW(B1, B2, B3);
    s[2] := ChiW(B2, B3, B4);
    s[3] := ChiW(B3, B4, B00);
    s[4] := ChiW(B4, B00, B1);
  }

  method ChiLine1(s: array<Word>, B5: Word, B6: Word, B7: Word, B8: Word, B9: Word)
    requires s.Length == 25
    modifies s
    ensures s[..] == old(s[..5]) + ChiRow(B5, B6, B7, B8, B9) + old(s[10..])
  {
    hide ChiW;
    s[5] := ChiW(B5, B6, B7);
    s[6] := ChiW(B6, B7, B8);
    s[7] := ChiW(B7, B8, B9);
    s[8] := ChiW(B8, B9, B5);
    s[9] := ChiW(B9, B5, B6);
  }

  method ChiLine2(s: array<Word>, B10: Word, B11: Word, B12: Word, B13: Word, B14: Word)
    requires s.Length == 25
    modifies s
    ensures s[..] == old(s[..10]) + ChiRow(B10, B11, B12, B13, B14) + old(s[15..])
  {
    hide ChiW;
    s[10] := ChiW(B10, B11, B12);
    s[11] := ChiW(B11, B12, B13);
    s[12] := ChiW(B12, B13, B14);
    s[13] := ChiW(B13, B14, B10);
    s[14] := ChiW(B14, B10, B11);
  }

  method ChiLine3(s: array<Word>, B15: Word, B16: Word, B17: Word, B18: Word, B19: Word)
    requires s.Length == 25
    modifies s
    ensures s[..] == old(s[..15]) + ChiRow(B15, B16, B17, B18, B19) + old(s[20..])
  {
    hide ChiW;
    s[15] := ChiW(B15, B16, B17);
    s[16] := ChiW(B16, B17, B18);
    s[17] := ChiW(B17, B18, B19);
    s[18] := ChiW(B18, B19, B15);
    s[19] := ChiW(B19, B15, B16);
  }

  method ChiLine4(s: array<Word>, B20: Word, B21: Word, B22: Word, B23: Word, B24: Word)
    requires s.Length == 25
    modifies s
    ensures s[..] == old(s[..20]) + ChiRow(B20, B21, B22, B23, B24)
  {
    hide ChiW;
    s[20] := ChiW(B20, B21, B22);
    s[21] := ChiW(B21, B22, B23);
    s[22] := ChiW(B22, B23, B24);
    s[23] := ChiW(B23, B24, B20);
    s[24] := ChiW(B24, B20, B21);
  }

  method RhoPiChi(s: array<Word>)
    requires s.Length == 25
    modifies s
    ensures s[..] == ChiWords(RhoPiWords(old(s[..])))
  {
    hide ChiRow, Rol;
    ghost var was := s[..];
    var B00 := s[0];
    var B10 := Rol(s[1], 1);
    var B20 := Rol(s[2], 62);
    var B5 := Rol(s[3], 28);
    var B15 := Rol(s[4], 27);
    var B16 := Rol(s[5], 36);
    var B1 := Rol(s[6], 44);
    var B11 := Rol(s[7], 6);
    var B21 := Rol(s[8], 55);
    var B6 := Rol(s[9], 20);
    var B7 := Rol(s[10], 3);
    var B17 := Rol(s[11], 10);
    var B2 := Rol(s[12], 43);
    var B12 := Rol(s[13], 25);
    var B22 := Rol(s[14], 39);
    var B23 := Rol(s[15], 41);
    var B8 := Rol(s[16], 45);
    var B18 := Rol(s[17], 15);
    var B3 := Rol(s[18], 21);
    var B13 := Rol(s[19], 8);
    var B14 := Rol(s[20], 18);
    var B24 := Rol(s[21], 2);
    var B9 := Rol(s[22], 61);
    var B19 := Rol(s[23], 56);
    var B4 := Rol(s[24], 14);
    assert [B00, B1, B2, B3, B4, B5, B6, B7, B8, B9, B10, B11, B12,
            B13, B14, B15, B16, B17, B18, B19, B20, B21, B22, B23, B24] == RhoPiWords(was);
    ChiLine0(s, B00, B1, B2, B3, B4);
    ChiLine1(s, B5, B6, B7, B8, B9);
    ChiLine2(s, B10, B11, B12, B13, B14);
    ChiLine3(s, B15, B16, B17, B18, B19);
    ChiLine4(s, B20, B21, B22, B23, B24);
  }

  method KeccakF1600(s: array<Word>)
    requires s.Length == 25
    modifies s
    ensures s[..] == PermuteWords(old(s[..]), 24)
  {
    hide XorW, ThetaWords, RhoPiWords, ChiWords, OfNat;
    for r := 0 to 24
      invariant s[..] == PermuteWords(old(s[..]), r)
    {
      Theta(s);
      RhoPiChi(s);
      s[0] := XorW(s[0], OfNat(LEGACY_RC[r], 64));
      SameConstants(r);
    }
  }

  lemma SameConstants(r: nat)
    requires r < 24
    ensures LEGACY_RC[r] == RC[r]
  {
    assert LEGACY_RC == RC;
  }

  // ---------- The work-item ----------

  /** Lanes 0 to 7: the challenge, 24 zero bytes and the nonce. */
  method FillLanes(s: array<Word>, c: seq<Word>, nonce: Word)
    requires s.Length == 25 && |c| == 4
    modifies s
    ensures s[..8] == c + [Zero(), Zero(), Zero(), BSwap(nonce)]
  {
    hide BSwap, Zero;
    s[0] := c[0];
    s[1] := c[1];
    s[2] := c[2];
    s[3] := c[3];
    s[4] := Zero();
    s[5] := Zero();
    s[6] := Zero();
    s[7] := BSwap(nonce);
  }

  /** Lanes 8 to 16: the padding of the rate. */
  method FillPad(s: array<Word>)
    requires s.Length == 25
    modifies s
    ensures s[..8] == old(s[..8])
    ensures forall i :: 8 <= i < 17 ==> s[i] == PadAt(i)
  {
    hide OfNat, Zero;
    s[8] := OfNat(0x0000_0000_0000_0001, 64);
    s[9] := Zero();
    s[10] := Zero();
    s[11] := Zero();
    s[12] := Zero();
    s[13] := Zero();
    s[14] := Zero();
    s[15] := Zero();
    s[16] := OfNat(0x8000_0000_0000_0000, 64);
  }

  /** Lanes 17 to 24: the capacity. */
  method FillCapacity(s: array<Word>)
    requires s.Length == 25
    modifies s
    ensures s[..17] == old(s[..17])
    ensures forall i :: 17 <= i < 25 ==> s[i] == PadAt(i)
  {
    hide Zero;
    s[17] := Zero(); s[18] := Zero(); s[19] := Zero(); s[20] := Zero();
    s[21] := Zero(); s[22] := Zero(); s[23] := Zero(); s[24] := Zero();
  }

  method Fill(s: array<Word>, c: seq<Word>, nonce: Word)
    requires s.Length == 25 && |c| == 4
    modifies s
    ensures s[..] == BlockWords(MessageWords(Args(c, [Zero(), Zero(), Zero()], c), nonce))
  {
    hide BSwap, Zero, PadAt;
    FillLanes(s, c, nonce);
    FillPad(s);
    ghost var rate := s[..17];
    assert rate[..8] == s[..8];
    FillCapacity(s);
    assert forall i :: 8 <= i < 17 ==> s[i] == rate[i] == PadAt(i);
    assert s[..8] == rate[..8];
  }

  /** The comparison: a pre-filter on the top word, then nested. */
  method Compare(s: array<Word>, d: seq<Word>) returns (below: bool)
    requires s.Length == 25 && |d| == 4
    ensures below <==> Limbs(SwappedVals(s[..])) < Limbs(Vals(d))
  {
    hide BSwap, Val;
    var h0 := BSwap(s[0]);
    SameVals(s, d);
    if Val(h0) > Val(d[0]) {
      return false;
    }
    if h0 == d[0] {
      var h1 := BSwap(s[1]);
      if Val(h1) > Val(d[1]) {
        return false;
      }
      if h1 == d[1] {
        var h2 := BSwap(s[2]);
        if Val(h2) > Val(d[2]) {
          return false;
        }
        if h2 == d[2] {
          var h3 := BSwap(s[3]);
          if Val(h3) >= Val(d[3]) {
            return false;
          }
        }
      }
    }
    return true;
  }

  lemma SameVals(s: array<Word>, d: seq<Word>)
    requires s.Length == 25 && |d| == 4
    ensures forall i :: 0 <= i < 4 ==> (BSwap(s[i]) == d[i]) == (Val(BSwap(s[i])) == Val(d[i]))
    ensures forall i :: 0 <= i < 4 ==> Val(BSwap(s[i])) < TWO64 && Val(d[i]) < TWO64
  {
    hide BSwap, Val;
    forall i | 0 <= i < 4
      ensures (BSwap(s[i]) == d[i]) == (Val(BSwap(s[i])) == Val(d[i]))
      ensures Val(BSwap(s[i])) < TWO64 && Val(d[i]) < TWO64
    {
      SameVal(BSwap(s[i]), d[i]);
      SameVal(d[i], BSwap(s[i]));
    }
  }

  /** One work-item of mine_keccak up to its compare-and-swap. */
  method RunLegacyItem(c: seq<Word>, d: seq<Word>, nonceBase: Word, globalId: Word)
    returns (reachesCas: bool, nonce: Word)
    requires |c| == 4 && |d| == 4
    ensures nonce == AddW(nonceBase, globalId)
    ensures reachesCas == ItemHits(Args(c, [Zero(), Zero(), Zero()], d), nonce)
  {
    hide BlockWords, Zero, AddW, PermuteWords, Limbs, SwappedVals, Vals;
    nonce := AddW(nonceBase, globalId);
    var s := new Word[25];
    Fill(s, c, nonce);
    KeccakF1600(s);
    reachesCas := Compare(s, d);
  }

  lemma ZeroPrefixLanes()
    ensures SplitPrefixLanes(ZERO_PREFIX) == [Zero(), Zero(), Zero()]
  {
    hide OfNat;
    var b: seq<Byte> := [0, 0, 0, 0, 0, 0, 0, 0];
    assert ZERO_PREFIX[0..8] == b && ZERO_PREFIX[8..16] == b && ZERO_PREFIX[16..24] == b;
    forall z | 0 <= z < 64
      ensures WordLe(b)[z] == Zero()[z]
    {
      PadWord(b, z);
      PadByte(z % 8);
    }
    assert WordLe(b) == Zero();
  }

  lemma ZeroPrefixNonce(counter: U64)
    ensures PowNonce(ZERO_PREFIX, counter) == counter
  {
    hide FromBe, ToBe, Pow2;
    Pow2Table();
    FromBeAppend(ZERO_PREFIX, ToBe(counter, 8));
    FromBeToBe(counter, 8);
    FromBeZeros(24);
  }

  lemma {:induction false} FromBeZeros(n: nat)
    ensures FromBe(seq(n, _ => 0)) == 0
  {
    if n > 0 {
      FromBeZeros(n - 1);
      assert seq<Byte>(n, _ => 0)[..n - 1] == seq(n - 1, _ => 0);
    }
  }

  /**
   Both kernels decide alike: what the 64-bit kernel decides for a nonce is what the 256-bit kernel
   decides for that counter under the zero prefix, and both are the contract's rule for the nonce
   itself, read as a uint256.
   */
  lemma KernelsAgree(challenge: B256, target: U256, nonce: U64)
    ensures Args(SplitChallengeLe(challenge), [Zero(), Zero(), Zero()], SplitU256Be(target))
         == HostArgs(challenge, ZERO_PREFIX, target)
    ensures ItemHits(HostArgs(challenge, ZERO_PREFIX, target), OfNat(nonce, 64))
        <==> ProofIsValid(challenge, nonce, target)
  {
    hide ItemHits, ProofIsValid, OfNat, SplitU256Be, SplitChallengeLe, SplitPrefixLanes, PowNonce;
    ZeroPrefixLanes();
    ZeroPrefixNonce(nonce);
    HitIsProof(challenge, ZERO_PREFIX, target, nonce);
  }

  /**
   The two kernels side by side, on the arguments that the host gives each: the same counter and the same
   decision, which is the contract's rule for that counter.
   */
  method BothKernels(challenge: B256, target: U256, base: Word, globalId: Word)
    returns (old64: bool, new256: bool, nonce: Word, counter: Word)
    ensures nonce == counter && old64 == new256
    ensures Val(nonce) < TWO64 && (old64 <==> ProofIsValid(challenge, Val(nonce), target))
  {
    hide ItemHits, ProofIsValid, OfNat, Val, SplitU256Be, SplitChallengeLe, AddW;
    var a := HostArgs(challenge, ZERO_PREFIX, target);
    assert a.c == SplitChallengeLe(challenge) && a.d == SplitU256Be(target);
    old64, nonce := RunLegacyItem(a.c, a.d, base, globalId);
    new256, counter := GpuSearch.RunItem(a, base, globalId);
    ValBound(nonce);
    Pow2Table();
    OfNatVal(nonce);
    KernelsAgree(challenge, target, Val(nonce));
  }
}
