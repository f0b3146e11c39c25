/**
 keccak_f1600 of the OpenCL kernels, on 64-bit words, and the proof that it is the permutation of
 FIPS 202: word 5y + x holds lane (x, y), and bit z of the word is A[x, y, z].
 */
module KeccakWords {
  import opened Bits
  import opened Fips202
  import opened KeccakTables

  const RC: seq<nat> := [
    0x0000000000000001, 0x0000000000008082, 0x800000000000808a, 0x8000000080008000,
    0x000000000000808b, 0x0000000080000001, 0x8000000080008081, 0x8000000000008009,
    0x000000000000008a, 0x0000000000000088, 0x0000000080008009, 0x000000008000000a,
    0x000000008000808b, 0x800000000000008b, 0x8000000000008089, 0x8000000000008003,
    0x8000000000008002, 0x8000000000000080, 0x000000000000800a, 0x800000008000000a,
    0x8000000080008081, 0x8000000000008080, 0x0000000080000001, 0x8000000080008008]

  // ---------- One round, as the kernel unrolls it ----------

  function Sum5(a: Word, b: Word, c: Word, d: Word, e: Word): Word {
    XorW(XorW(XorW(XorW(a, b), c), d), e)
  }

  /** a ^ (~b & c), one word of chi. */
  function ChiW(a: Word, b: Word, c: Word): Word {
    XorW(a, AndW(NotW(b), c))
  }

  function ThetaWords(s: seq<Word>): (t: seq<Word>)
    requires |s| == 25
    ensures |t| == 25
  {
    var C0 := Sum5(s[0], s[5], s[10], s[15], s[20]);
    var C1 := Sum5(s[1], s[6], s[11], s[16], s[21]);
    var C2 := Sum5(s[2], s[7], s[12], s[17], s[22]);
    var C3 := Sum5(s[3], s[8], s[13], s[18], s[23]);
    var C4 := Sum5(s[4], s[9], s[14], s[19], s[24]);
    var D0 := XorW(C4, Rol(C1, 1));
    var D1 := XorW(C0, Rol(C2, 1));
    var D2 := XorW(C1, Rol(C3, 1));
    var D3 := XorW(C2, Rol(C4, 1));
    var D4 := XorW(C3, Rol(C0, 1));
    [XorW(s[0], D0), XorW(s[1], D1), XorW(s[2], D2), XorW(s[3], D3), XorW(s[4], D4),
     XorW(s[5], D0), XorW(s[6], D1), XorW(s[7], D2), XorW(s[8], D3), XorW(s[9], D4),
     XorW(s[10], D0), XorW(s[11], D1), XorW(s[12], D2), XorW(s[13], D3), XorW(s[14], D4),
     XorW(s[15], D0), XorW(s[16], D1), XorW(s[17], D2), XorW(s[18], D3), XorW(s[19], D4),
     XorW(s[20], D0), XorW(s[21], D1), XorW(s[22], D2), XorW(s[23], D3), XorW(s[24], D4)]
  }

  /** Rho and pi fused: every word is rotated on its way to its new place. */
  function RhoPiWords(s: seq<Word>): (b: seq<Word>)
    requires |s| == 25
    ensures |b| == 25
  {
    [s[0], Rol(s[6], 44), Rol(s[12], 43), Rol(s[18], 21), Rol(s[24], 14),
     Rol(s[3], 28), Rol(s[9], 20), Rol(s[10], 3), Rol(s[16], 45), Rol(s[22], 61),
     Rol(s[1], 1), Rol(s[7], 6), Rol(s[13], 25), Rol(s[19], 8), Rol(s[20], 18),
     Rol(s[4], 27), Rol(s[5], 36), Rol(s[11], 10), Rol(s[17], 15), Rol(s[23], 56),
     Rol(s[2], 62), Rol(s[8], 55), Rol(s[14], 39), Rol(s[15], 41), Rol(s[21], 2)]
  }

  /** One row of chi. */
  function ChiRow(b0: Word, b1: Word, b2: Word, b3: Word, b4: Word): (row: seq<Word>)
    ensures |row| == 5
  {
    [ChiW(b0, b1, b2), ChiW(b1, b2, b3), ChiW(b2, b3, b4), ChiW(b3, b4, b0), ChiW(b4, b0, b1)]
  }

  function ChiWords(b: seq<Word>): (t: seq<Word>)
    requires |b| == 25
    ensures |t| == 25
  {
    ChiRow(b[0], b[1], b[2], b[3], b[4])
    + ChiRow(b[5], b[6], b[7], b[8], b[9])
    + ChiRow(b[10], b[11], b[12], b[13], b[14])
    + ChiRow(b[15], b[16], b[17], b[18], b[19])
    + ChiRow(b[20], b[21], b[22], b[23], b[24])
  }

  function IotaWords(s: seq<Word>, r: nat): (t: seq<Word>)
    requires |s| == 25 && r < 24
    ensures |t| == 25
  {
    s[0 := XorW(s[0], OfNat(RC[r], 64))]
  }

  function RoundWords(s: seq<Word>, r: nat): (t: seq<Word>)
    requires |s| == 25 && r < 24
    ensures |t| == 25
  {
    IotaWords(ChiWords(RhoPiWords(ThetaWords(s))), r)
  }

  function PermuteWords(s: seq<Word>, rounds: nat): (t: seq<Word>)
    requires |s| == 25 && rounds <= 24
    ensures |t| == 25
  {
    if rounds == 0 then s else RoundWords(PermuteWords(s, rounds - 1), rounds - 1)
  }

  // ---------- Every step is the standard's step ----------

  ghost predicate Holds(s: seq<Word>, A: State)
    requires |s| == 25
  {
    forall i, z :: 0 <= i < 25 && 0 <= z < 64 ==> s[i][z] == A(i % 5, i / 5, z)
  }

  function Column(s: seq<Word>, x: int): Word
    requires |s| == 25 && 0 <= x < 5
  {
    Sum5(s[x], s[x + 5], s[x + 10], s[x + 15], s[x + 20])
  }

  lemma ColumnBit(s: seq<Word>, A: State, x: int, z: int)
    requires |s| == 25 && Holds(s, A) && 0 <= x < 5 && 0 <= z < 64
    ensures Column(s, x)[z] == ColumnParity(A, x, z)
  {
  }

  /** What theta adds to every word of column x. */
  function Effect(s: seq<Word>, x: int): Word
    requires |s| == 25 && 0 <= x < 5
  {
    XorW(Column(s, (x - 1) % 5), Rol(Column(s, (x + 1) % 5), 1))
  }

  lemma ThetaShape(s: seq<Word>, i: nat)
    requires |s| == 25 && i < 25
    ensures ThetaWords(s)[i] == XorW(s[i], Effect(s, i % 5))
  {
    hide XorW, Sum5, Rol;
  }

  lemma ThetaHolds(s: seq<Word>, A: State)
    requires |s| == 25 && Holds(s, A)
    ensures Holds(ThetaWords(s), Theta(A))
  {
    hide ThetaWords, Column, ColumnParity, Rol;
    forall i, z | 0 <= i < 25 && 0 <= z < 64
      ensures ThetaWords(s)[i][z] == Theta(A)(i % 5, i / 5, z)
    {
      var x := i % 5;
      ThetaShape(s, i);
      RolBit(Column(s, (x + 1) % 5), 1, z);
      ColumnBit(s, A, (x - 1) % 5, z);
      ColumnBit(s, A, (x + 1) % 5, (z - 1) % 64);
    }
  }

  /** Where the fused step takes word i from: lane (x + 3y, x). */
  const SOURCE: seq<int> := [0, 6, 12, 18, 24, 3, 9, 10, 16, 22, 1, 7, 13, 19, 20, 4, 5, 11, 17, 23, 2, 8, 14, 15, 21]

  lemma SourceTable(i: nat, x: nat, y: nat)
    requires x < 5 && y < 5 && i == 5 * y + x
    ensures SOURCE[i] == (x + 3 * y) % 5 + 5 * x
  {
  }

  lemma LaneOf(j: int, u: int, v: int)
    requires 0 <= u < 5 && 0 <= v < 5 && j == u + 5 * v
    ensures 0 <= j < 25 && j % 5 == u && j / 5 == v
  {
  }

  lemma SourceLane(i: nat)
    requires i < 25
    ensures 0 <= SOURCE[i] < 25
    ensures SOURCE[i] % 5 == (i % 5 + 3 * (i / 5)) % 5 && SOURCE[i] / 5 == i % 5
  {
    var j, u, v := SOURCE[i], (i % 5 + 3 * (i / 5)) % 5, i % 5;
    assert j == u + 5 * v by { SourceTable(i, i % 5, i / 5); }
    LaneOf(j, u, v);
  }

  /** Word i of the fused step is its source word, rotated by the offset of the source lane. */
  lemma RhoPiShape(s: seq<Word>, i: nat, j: nat)
    requires |s| == 25 && 0 < i < 25 && j < 25 && j == SOURCE[i]
    ensures 0 <= OFFSETS[j] < 64 && RhoPiWords(s)[i] == Rol(s[j], OFFSETS[j])
  {
    hide Rol;
  }

  lemma RhoPiHolds(s: seq<Word>, A: State)
    requires |s| == 25 && Holds(s, A)
    ensures Holds(RhoPiWords(s), Pi(Rho(A)))
  {
    hide RhoPiWords, Rol, Offset, StepAt;
    forall i, z | 0 <= i < 25 && 0 <= z < 64
      ensures RhoPiWords(s)[i][z] == Pi(Rho(A))(i % 5, i / 5, z)
    {
      if i > 0 {
        var j := SOURCE[i];
        SourceLane(i);
        RhoPiShape(s, i, j);
        OffsetAt(j);
        OffsetMod(z, Offset(j % 5, j / 5), OFFSETS[j]);
        RolBit(s[j], OFFSETS[j], z);
      } else {
        RhoPiFirst(s, A, z);
      }
    }
  }

  lemma OffsetMod(z: int, offset: int, c: int)
    requires offset % 64 == c
    ensures (z - offset) % 64 == (z - c) % 64
  {
  }

  lemma RhoPiFirst(s: seq<Word>, A: State, z: nat)
    requires |s| == 25 && Holds(s, A) && z < 64
    ensures RhoPiWords(s)[0][z] == Pi(Rho(A))(0, 0, z)
  {
    hide Rol, StepAt;
  }

  /** The words one and two places further along the row of word i. */
  const NEXT1: seq<int> := [1, 2, 3, 4, 0, 6, 7, 8, 9, 5, 11, 12, 13, 14, 10, 16, 17, 18, 19, 15, 21, 22, 23, 24, 20]
  const NEXT2: seq<int> := [2, 3, 4, 0, 1, 7, 8, 9, 5, 6, 12, 13, 14, 10, 11, 17, 18, 19, 15, 16, 22, 23, 24, 20, 21]

  lemma RowTable1(i: nat, x: nat, y: nat)
    requires x < 5 && y < 5 && i == 5 * y + x
    ensures NEXT1[i] == (x + 1) % 5 + 5 * y
  {
  }

  lemma RowTable2(i: nat, x: nat, y: nat)
    requires x < 5 && y < 5 && i == 5 * y + x
    ensures NEXT2[i] == (x + 2) % 5 + 5 * y
  {
  }

  lemma RowLanes(i: nat)
    requires i < 25
    ensures 0 <= NEXT1[i] < 25 && NEXT1[i] % 5 == (i % 5 + 1) % 5 && NEXT1[i] / 5 == i / 5
    ensures 0 <= NEXT2[i] < 25 && NEXT2[i] % 5 == (i % 5 + 2) % 5 && NEXT2[i] / 5 == i / 5
  {
    var j, k, x, y := NEXT1[i], NEXT2[i], i % 5, i / 5;
    assert j == (x + 1) % 5 + 5 * y by { RowTable1(i, x, y); }
    assert k == (x + 2) % 5 + 5 * y by { RowTable2(i, x, y); }
    LaneOf(j, (x + 1) % 5, y);
    LaneOf(k, (x + 2) % 5, y);
  }

  lemma ChiShape(b: seq<Word>, i: nat)
    requires |b| == 25 && i < 25
    ensures 0 <= NEXT1[i] < 25 && 0 <= NEXT2[i] < 25
    ensures ChiWords(b)[i] == ChiW(b[i], b[NEXT1[i]], b[NEXT2[i]])
  {
    hide ChiW;
  }

  lemma ChiWBit(a: Word, b: Word, c: Word, z: nat)
    requires z < 64
    ensures ChiW(a, b, c)[z] == Xor(a[z], !b[z] && c[z])
  {
  }

  lemma ChiHolds(b: seq<Word>, A: State)
    requires |b| == 25 && Holds(b, A)
    ensures Holds(ChiWords(b), Chi(A))
  {
    hide ChiWords, ChiW;
    forall i, z | 0 <= i < 25 && 0 <= z < 64
      ensures ChiWords(b)[i][z] == Chi(A)(i % 5, i / 5, z)
    {
      RowLanes(i);
      ChiShape(b, i);
      ChiWBit(b[i], b[NEXT1[i]], b[NEXT2[i]], z);
    }
  }

  lemma ConstantTable1(r: nat)
    requires 0 <= r < 6
    ensures RC[r] == ConstantFrom(REGISTERS[r])
  {
    assert r == 0 || r == 1 || r == 2 || r == 3 || r == 4 || r == 5;
  }

  lemma ConstantTable2(r: nat)
    requires 6 <= r < 12
    ensures RC[r] == ConstantFrom(REGISTERS[r])
  {
    assert r == 6 || r == 7 || r == 8 || r == 9 || r == 10 || r == 11;
  }

  lemma ConstantTable3(r: nat)
    requires 12 <= r < 18
    ensures RC[r] == ConstantFrom(REGISTERS[r])
  {
    assert r == 12 || r == 13 || r == 14 || r == 15 || r == 16 || r == 17;
  }

  lemma ConstantTable4(r: nat)
    requires 18 <= r < 24
    ensures RC[r] == ConstantFrom(REGISTERS[r])
  {
    assert r == 18 || r == 19 || r == 20 || r == 21 || r == 22 || r == 23;
  }

  lemma ConstantTable(r: nat)
    requires r < 24
    ensures RC[r] == ConstantFrom(REGISTERS[r])
  {
    hide ConstantFrom;
    if r < 6 {
      ConstantTable1(r);
    } else if r < 12 {
      ConstantTable2(r);
    } else if r < 18 {
      ConstantTable3(r);
    } else {
      ConstantTable4(r);
    }
  }

  /** Every bit of the 24 numbers written in the kernel is the one that the LFSR prescribes. */
  lemma WrittenConstant(r: nat, z: nat)
    requires r < 24 && z < 64
    ensures OfNat(RC[r], 64)[z] == RoundConstant(r, z)
  {
    hide RoundConstant, Constant, ConstantFrom, OfNat;
    ConstantTable(r);
    ConstantIs(r);
    ConstantOk(r);
  }

  lemma IotaHolds(s: seq<Word>, A: State, r: nat)
    requires |s| == 25 && Holds(s, A) && r < 24
    ensures Holds(IotaWords(s, r), Iota(A, r))
  {
    hide RoundConstant, OfNat;
    forall i, z | 0 <= i < 25 && 0 <= z < 64
      ensures IotaWords(s, r)[i][z] == Iota(A, r)(i % 5, i / 5, z)
    {
      WrittenConstant(r, z);
      assert i % 5 == 0 && i / 5 == 0 ==> i == 0;
    }
  }

  lemma RoundHolds(s: seq<Word>, A: State, r: nat)
    requires |s| == 25 && Holds(s, A) && r < 24
    ensures Holds(RoundWords(s, r), Round(A, r))
  {
    hide Holds, ThetaWords, RhoPiWords, ChiWords, IotaWords;
    ThetaHolds(s, A);
    RhoPiHolds(ThetaWords(s), Theta(A));
    ChiHolds(RhoPiWords(ThetaWords(s)), Pi(Rho(Theta(A))));
    IotaHolds(ChiWords(RhoPiWords(ThetaWords(s))), Chi(Pi(Rho(Theta(A)))), r);
  }

  /**
   The unrolled permutation is KECCAK-p[1600, 24]: for every input state, bit z of word 5y + x
   of the result is A[x, y, z] of the standard's result.
   */
  lemma {:induction false} PermuteHolds(s: seq<Word>, A: State, rounds: nat)
    requires |s| == 25 && Holds(s, A) && rounds <= 24
    ensures Holds(PermuteWords(s, rounds), Permute(A, rounds))
  {
    hide Holds, RoundWords, Round;
    if rounds > 0 {
      PermuteHolds(s, A, rounds - 1);
      RoundHolds(PermuteWords(s, rounds - 1), Permute(A, rounds - 1), rounds - 1);
    }
  }
}
