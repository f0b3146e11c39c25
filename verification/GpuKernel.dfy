/** The Keccak permutation of gpu/kernel.cl, in place on the array of 25 words. */
module GpuKernel {
  import opened Bits
  import opened KeccakWords

  /** s[x] ^= d; s[x + 5] ^= d; ... */
  method XorColumn(s: array<Word>, x: nat, d: Word)
    requires s.Length == 25 && x < 5
    modifies s
    ensures forall i :: 0 <= i < 25 ==> s[i] == if i % 5 == x then XorW(old(s[i]), d) else old(s[i])
  {
    hide XorW;
    s[x] := XorW(s[x], d);
    s[x + 5] := XorW(s[x + 5], d);
    s[x + 10] := XorW(s[x + 10], d);
    s[x + 15] := XorW(s[x + 15], d);
    s[x + 20] := XorW(s[x + 20], d);
  }

  method ChiRowInPlace(s: array<Word>, y: nat, b0: Word, b1: Word, b2: Word, b3: Word, b4: Word)
    requires s.Length == 25 && y <= 20
    modifies s
    ensures s[..] == old(s[..y]) + ChiRow(b0, b1, b2, b3, b4) + old(s[y + 5..])
  {
    hide ChiW;
    s[y] := ChiW(b0, b1, b2);
    s[y + 1] := ChiW(b1, b2, b3);
    s[y + 2] := ChiW(b2, b3, b4);
    s[y + 3] := ChiW(b3, b4, b0);
    s[y + 4] := ChiW(b4, b0, b1);
  }

  method XorColumns(s: array<Word>, d0: Word, d1: Word, d2: Word, d3: Word, d4: Word)
    requires s.Length == 25
    modifies s
    ensures forall i :: 0 <= i < 25 ==> s[i] == XorW(old(s[i]), [d0, d1, d2, d3, d4][i % 5])
  {
    hide XorW;
    XorColumn(s, 0, d0);
    XorColumn(s, 1, d1);
    XorColumn(s, 2, d2);
    XorColumn(s, 3, d3);
    XorColumn(s, 4, d4);
  }

  method ThetaInPlace(s: array<Word>)
    requires s.Length == 25
    modifies s
    ensures s[..] == ThetaWords(old(s[..]))
  {
    hide XorW, Rol, Sum5, ThetaWords;
    ghost var was := s[..];
    var C0 := Sum5(s[0], s[5], s[10], s[15], s[20]);
    var C1 := Sum5(s[1], s[6], s[11], s[16], s[21]);
    var C2 := Sum5(s[2], s[7], s[12], s[17], s[22]);
    var C3 := Sum5(s[3], s[8], s[13], s[18], s[23]);
    var C4 := Sum5(s[4], s[9], s[14], s[19], s[24]);
    var D0 := XorW(C4, Rol(C1, 1));
    var D1 := XorW(C0, Rol(C2, 1));
    var D2 := XorW(C1, Rol(C3, 1));
    var D3 := XorW(C2, Rol(C4, 1));
    var D4 := XorW(C3, Rol(C0, 1));
    assert D0 == Effect(was, 0) && D1 == Effect(was, 1) && D2 == Effect(was, 2) && D3 == Effect(was, 3)
        && D4 == Effect(was, 4);
    XorColumns(s, D0, D1, D2, D3, D4);
    assert forall i :: 0 <= i < 25 ==> [D0, D1, D2, D3, D4][i % 5] == Effect(was, i % 5);
    hide Effect;
    forall i | 0 <= i < 25
      ensures s[i] == ThetaWords(was)[i]
    {
      ThetaShape(was, i);
    }
  }

  method RhoPiChiInPlace(s: array<Word>)
    requires s.Length == 25
    modifies s
    ensures s[..] == ChiWords(RhoPiWords(old(s[..])))
  {
    hide ChiRow, Rol;
    ghost var was := s[..];
    var B00, B10, B20, B5, B15 := s[0], Rol(s[1], 1), Rol(s[2], 62), Rol(s[3], 28), Rol(s[4], 27);
    var B16, B1, B11, B21, B6 := Rol(s[5], 36), Rol(s[6], 44), Rol(s[7], 6), Rol(s[8], 55), Rol(s[9], 20);
    var B7, B17, B2, B12, B22 := Rol(s[10], 3), Rol(s[11], 10), Rol(s[12], 43), Rol(s[13], 25), Rol(s[14], 39);
    var B23, B8, B18, B3, B13 := Rol(s[15], 41), Rol(s[16], 45), Rol(s[17], 15), Rol(s[18], 21), Rol(s[19], 8);
    var B14, B24, B9, B19, B4 := Rol(s[20], 18), Rol(s[21], 2), Rol(s[22], 61), Rol(s[23], 56), Rol(s[24], 14);
    ghost var b := [B00, B1, B2, B3, B4, B5, B6, B7, B8, B9, B10, B11, B12, B13, B14, B15, B16, B17, B18, B19, B20,
        B21, B22, B23, B24];
    assert b == RhoPiWords(was);
    ChiRowInPlace(s, 0, B00, B1, B2, B3, B4);
    ChiRowInPlace(s, 5, B5, B6, B7, B8, B9);
    ChiRowInPlace(s, 10, B10, B11, B12, B13, B14);
    ChiRowInPlace(s, 15, B15, B16, B17, B18, B19);
    ChiRowInPlace(s, 20, B20, B21, B22, B23, B24);
  }

  /** keccak_f1600 of kernel.cl: 24 rounds on the array, in place. */
  method KeccakF1600(s: array<Word>)
    requires s.Length == 25
    modifies s
    ensures s[..] == PermuteWords(old(s[..]), 24)
  {
    hide XorW, ThetaWords, RhoPiWords, ChiWords, OfNat;
    for r := 0 to 24
      invariant s[..] == PermuteWords(old(s[..]), r)
    {
      ThetaInPlace(s);
      RhoPiChiInPlace(s);
      s[0] := XorW(s[0], OfNat(RC[r], 64));
    }
  }
}
