/**
 The recurrences of sections 3.2.2 and 3.2.5 of FIPS 202, run out: where the rho walk goes,
 which rotation every lane gets, and the register that yields each round constant.
 */
module KeccakTables {
  import opened Bits
  import opened Fips202

  /** The lanes visited by the 24 steps of the rho walk. */
  const WALK: seq<Coord> := [
    Coord(1, 0), Coord(0, 2), Coord(2, 1), Coord(1, 2), Coord(2, 3), Coord(3, 3),
    Coord(3, 0), Coord(0, 1), Coord(1, 3), Coord(3, 1), Coord(1, 4), Coord(4, 4),
    Coord(4, 0), Coord(0, 3), Coord(3, 4), Coord(4, 3), Coord(3, 2), Coord(2, 2),
    Coord(2, 0), Coord(0, 4), Coord(4, 2), Coord(2, 4), Coord(4, 1), Coord(1, 1)]

  /** The step that visits lane 5y + x; lane 0 is visited by none. */
  const STEP: seq<nat> := [24, 0, 18, 6, 12, 7, 23, 2, 9, 22, 1, 3, 17, 16, 20, 13, 8, 4, 5, 15, 19, 10, 21, 14, 11]

  /** The rotation of lane 5y + x, modulo the lane width. */
  const OFFSETS: seq<int> := [0, 1, 62, 28, 27, 36, 44, 6, 55, 20, 3, 10, 43, 25, 39, 41, 45, 15, 21, 8, 18, 2, 61,
      56, 14]

  /** The register of Algorithm 5 after 7 ir steps. */
  const REGISTERS: seq<bv8> := [
    0x01, 0x80, 0xd8, 0x1a, 0xdf, 0x09, 0x35, 0x4f, 0xca, 0x70, 0x41, 0xec,
    0xd5, 0xcd, 0x63, 0xab, 0xaa, 0x2a, 0xf2, 0xe8, 0x37, 0x3e, 0x0b, 0x44]

  // ---------- Rotations ----------

  lemma WalkNext(t: nat, x: nat, y: nat)
    requires t > 0 && Walk(t - 1) == Coord(x, y)
    ensures Walk(t) == Coord(y, (2 * x + 3 * y) % 5)
  {
  }

  lemma WalkTable()
    ensures forall t :: 0 <= t < 24 ==> Walk(t) == WALK[t]
  {
    WalkNext(1, 1, 0); WalkNext(2, 0, 2); WalkNext(3, 2, 1); WalkNext(4, 1, 2); WalkNext(5, 2, 3); WalkNext(6, 3, 3);
    WalkNext(7, 3, 0); WalkNext(8, 0, 1); WalkNext(9, 1, 3); WalkNext(10, 3, 1); WalkNext(11, 1, 4); WalkNext(12, 4, 4);
    WalkNext(13, 4, 0); WalkNext(14, 0, 3); WalkNext(15, 3, 4); WalkNext(16, 4, 3); WalkNext(17, 3, 2);
    WalkNext(18, 2, 2);
    WalkNext(19, 2, 0); WalkNext(20, 0, 4); WalkNext(21, 4, 2); WalkNext(22, 2, 4); WalkNext(23, 4, 1);
  }

  lemma WalkInverse(t: nat)
    requires t < 24
    ensures 0 <= WALK[t].x < 5 && 0 <= WALK[t].y < 5 && STEP[5 * WALK[t].y + WALK[t].x] == t
  {
  }

  lemma StepFound(x: int, y: int, t: nat, k: nat)
    requires t <= k < 24 && Walk(k) == Coord(x, y)
    requires forall u :: 0 <= u < k ==> Walk(u) != Coord(x, y)
    ensures StepAt(x, y, t) == k
    decreases k - t
  {
    if t < k {
      StepFound(x, y, t + 1, k);
    }
  }

  lemma StepIs(x: int, y: int, k: nat)
    requires k < 24 && WALK[k] == Coord(x, y)
    ensures StepAt(x, y, 0) == k
  {
    WalkTable();
    forall u | 0 <= u < k
      ensures Walk(u) != Coord(x, y)
    {
      WalkInverse(u);
      WalkInverse(k);
    }
    StepFound(x, y, 0, k);
  }

  lemma LaneStep(i: nat)
    requires 0 < i < 25
    ensures STEP[i] < 24 && WALK[STEP[i]] == Coord(i % 5, i / 5)
    ensures (STEP[i] + 1) * (STEP[i] + 2) / 2 % 64 == OFFSETS[i]
  {
    assert i == 1 || i == 2 || i == 3 || i == 4 || i == 5 || i == 6 || i == 7 || i == 8 || i == 9 || i == 10
        || i == 11 || i == 12 || i == 13 || i == 14 || i == 15 || i == 16 || i == 17 || i == 18 || i == 19
        || i == 20 || i == 21 || i == 22 || i == 23 || i == 24;
  }

  /** The table of 25 rotations is the one the rho walk prescribes. */
  lemma OffsetAt(i: nat)
    requires i < 25
    ensures Offset(i % 5, i / 5) % 64 == OFFSETS[i]
  {
    hide StepAt;
    if i != 0 {
      LaneStep(i);
      StepIs(i % 5, i / 5, STEP[i]);
    }
  }

  // ---------- Round constants ----------

  function Clock3(R: bv8): bv8 {
    Clock(Clock(Clock(R)))
  }

  function Clock7(R: bv8): bv8 {
    Clock(Clock3(Clock3(R)))
  }

  lemma Clocked(t: nat)
    ensures Lfsr(t + 1) == Clock(Lfsr(t)) && Lfsr(t + 2) == Clock(Lfsr(t + 1))
    ensures Lfsr(t + 3) == Clock3(Lfsr(t))
  {
  }

  lemma NextRegister1(ir: nat)
    requires 0 <= ir < 12
    ensures Clock7(REGISTERS[ir]) == REGISTERS[ir + 1]
  {
    assert ir == 0 || ir == 1 || ir == 2 || ir == 3 || ir == 4 || ir == 5 || ir == 6 || ir == 7 || ir == 8 || ir == 9
        || ir == 10 || ir == 11;
  }

  lemma NextRegister2(ir: nat)
    requires 12 <= ir < 23
    ensures Clock7(REGISTERS[ir]) == REGISTERS[ir + 1]
  {
    assert ir == 12 || ir == 13 || ir == 14 || ir == 15 || ir == 16 || ir == 17 || ir == 18 || ir == 19 || ir == 20
        || ir == 21 || ir == 22;
  }

  lemma NextRegister(ir: nat)
    requires ir < 23
    ensures Clock7(REGISTERS[ir]) == REGISTERS[ir + 1]
  {
    hide Clock7;
    if ir < 12 {
      NextRegister1(ir);
    } else {
      NextRegister2(ir);
    }
  }

  lemma RegisterStep(t: nat, R: bv8, S: bv8)
    requires Lfsr(t) == R && Clock7(R) == S
    ensures Lfsr(t + 7) == S
  {
    Clocked(t);
    Clocked(t + 3);
    Clocked(t + 6);
  }

  lemma FirstRegister()
    ensures Lfsr(0) == REGISTERS[0]
  {
  }

  lemma {:induction false} RegisterAt(ir: nat)
    requires ir < 24
    ensures Lfsr(7 * ir) == REGISTERS[ir]
  {
    hide Clock7, Clock, Clock3, Lfsr;
    if ir == 0 {
      FirstRegister();
    } else {
      RegisterAt(ir - 1);
      NextRegister(ir - 1);
      RegisterStep(7 * (ir - 1), REGISTERS[ir - 1], REGISTERS[ir]);
    }
  }

  function B(b: bool): nat {
    if b then 1 else 0
  }

  /** The number with bit 2^j - 1 set as b_j says. */
  function Assemble(b0: bool, b1: bool, b2: bool, b3: bool, b4: bool, b5: bool, b6: bool): nat {
    B(b0) + 0x2 * B(b1) + 0x8 * B(b2) + 0x80 * B(b3) + 0x8000 * B(b4) + 0x8000_0000 * B(b5)
    + 0x8000_0000_0000_0000 * B(b6)
  }

  function Constant(ir: nat): nat {
    Assemble(RoundBit(7 * ir), RoundBit(1 + 7 * ir), RoundBit(2 + 7 * ir), RoundBit(3 + 7 * ir),
             RoundBit(4 + 7 * ir), RoundBit(5 + 7 * ir), RoundBit(6 + 7 * ir))
  }

  function ConstantFrom(R: bv8): nat {
    var S, T := Clock3(R), Clock3(Clock3(R));
    Assemble(R & 1 == 1, Clock(R) & 1 == 1, Clock(Clock(R)) & 1 == 1,
             S & 1 == 1, Clock(S) & 1 == 1, Clock(Clock(S)) & 1 == 1, T & 1 == 1)
  }

  lemma Outputs(t: nat, R: bv8)
    requires Lfsr(t) == R && t + 6 < 255
    ensures RoundBit(t) == (R & 1 == 1) && RoundBit(1 + t) == (Clock(R) & 1 == 1)
    ensures RoundBit(2 + t) == (Clock(Clock(R)) & 1 == 1) && RoundBit(3 + t) == (Clock3(R) & 1 == 1)
    ensures RoundBit(4 + t) == (Clock(Clock3(R)) & 1 == 1) && RoundBit(5 + t) == (Clock(Clock(Clock3(R))) & 1 == 1)
    ensures RoundBit(6 + t) == (Clock3(Clock3(R)) & 1 == 1)
  {
    Clocked(t);
    Clocked(t + 3);
  }

  lemma ConstantIs(ir: nat)
    requires ir < 24
    ensures Constant(ir) == ConstantFrom(REGISTERS[ir])
  {
    var R := REGISTERS[ir];
    assert Lfsr(7 * ir) == R by { RegisterAt(ir); }
    Outputs(7 * ir, R);
  }

  lemma Val4(s: seq<bool>)
    requires |s| >= 4
    ensures Val(s) == B(s[0]) + 2 * B(s[1]) + 4 * B(s[2]) + 8 * B(s[3]) + 16 * Val(s[4..])
  {
    assert s[1..][1..] == s[2..] && s[2..][1..] == s[3..] && s[3..][1..] == s[4..];
    assert Val(s[2..]) == B(s[2]) + 2 * Val(s[3..]);
  }

  lemma ByteVal8(s: seq<bool>)
    requires |s| == 8
    ensures ByteVal(s) == B(s[0]) + 2 * B(s[1]) + 4 * B(s[2]) + 8 * B(s[3])
                          + 16 * B(s[4]) + 32 * B(s[5]) + 64 * B(s[6]) + 128 * B(s[7])
  {
    Val4(s);
    Val4(s[4..]);
    assert s[4..][4..] == [];
  }

  /** The bits of the number Constant(ir) are RC[z] of the standard. */
  function ConstantBits(ir: nat): (s: seq<bool>)
    ensures |s| == 64
  {
    seq(64, z requires 0 <= z < 64 => RoundConstant(ir, z))
  }

  lemma FromLe4(b: seq<Byte>)
    requires |b| >= 4
    ensures FromLe(b) == b[0] as int + 0x100 * (b[1] as int) + 0x1_0000 * (b[2] as int)
                         + 0x100_0000 * (b[3] as int) + 0x1_0000_0000 * FromLe(b[4..])
  {
    assert b[1..][1..] == b[2..] && b[2..][1..] == b[3..] && b[3..][1..] == b[4..];
    assert FromLe(b[2..]) == b[2] as int + 256 * FromLe(b[3..]);
  }

  lemma SetBits(ir: nat)
    ensures RoundConstant(ir, 0) == RoundBit(7 * ir) && RoundConstant(ir, 1) == RoundBit(1 + 7 * ir)
    ensures RoundConstant(ir, 3) == RoundBit(2 + 7 * ir) && RoundConstant(ir, 7) == RoundBit(3 + 7 * ir)
    ensures RoundConstant(ir, 15) == RoundBit(4 + 7 * ir) && RoundConstant(ir, 31) == RoundBit(5 + 7 * ir)
    ensures RoundConstant(ir, 63) == RoundBit(6 + 7 * ir)
    ensures !RoundConstant(ir, 23) && !RoundConstant(ir, 39) && !RoundConstant(ir, 47) && !RoundConstant(ir, 55)
  {
    hide RoundBit;
  }

  lemma FromLeEmpty()
    ensures FromLe([]) == 0
  {
  }

  lemma ConstantByte(ir: nat, k: nat)
    requires k < 8
    ensures BitBytes(ConstantBits(ir))[k]
            == if k == 0 then B(RoundConstant(ir, 0)) + 2 * B(RoundConstant(ir, 1)) + 8 * B(RoundConstant(ir, 3))
                              + 128 * B(RoundConstant(ir, 7))
               else 128 * B(RoundConstant(ir, 8 * k + 7))
  {
    hide RoundBit, Val;
    var s := ConstantBits(ir);
    ByteVal8(s[8 * k..8 * k + 8]);
  }

  lemma BytesValue(b: seq<Byte>, b0: nat, b1: nat, b3: nat, b7: nat)
    requires |b| == 8
    requires b[0] == b0 && b[1] == b1 && b[2] == 0 && b[3] == b3 && b[4] == 0 && b[5] == 0 && b[6] == 0 && b[7] == b7
    ensures FromLe(b) == b0 + 0x100 * b1 + 0x100_0000 * b3 + 0x100_0000_0000_0000 * b7
  {
    hide FromLe;
    var c := b[4..];
    assert c[4..] == [] && c[0] == b[4] && c[1] == b[5] && c[2] == b[6] && c[3] == b[7];
    FromLe4(b);
    FromLe4(c);
    FromLeEmpty();
  }

  lemma ZeroBytes(ir: nat)
    ensures var b := BitBytes(ConstantBits(ir)); b[2] == 0 && b[4] == 0 && b[5] == 0 && b[6] == 0
  {
    hide RoundBit, BitBytes, ConstantBits, RoundConstant;
    SetBits(ir);
    ConstantByte(ir, 2);
    ConstantByte(ir, 4);
    ConstantByte(ir, 5);
    ConstantByte(ir, 6);
  }

  lemma OtherBytes(ir: nat)
    ensures var b := BitBytes(ConstantBits(ir));
      && b[0] == B(RoundBit(7 * ir)) + 2 * B(RoundBit(1 + 7 * ir)) + 8 * B(RoundBit(2 + 7 * ir))
           + 128 * B(RoundBit(3 + 7 * ir))
      && b[1] == 128 * B(RoundBit(4 + 7 * ir)) && b[3] == 128 * B(RoundBit(5 + 7 * ir))
           && b[7] == 128 * B(RoundBit(6 + 7 * ir))
  {
    hide RoundBit, BitBytes, ConstantBits, RoundConstant;
    SetBits(ir);
    ConstantByte(ir, 0);
    ConstantByte(ir, 1);
    ConstantByte(ir, 3);
    ConstantByte(ir, 7);
  }

  lemma ConstantValue(ir: nat)
    ensures FromLe(BitBytes(ConstantBits(ir))) == Constant(ir)
  {
    hide RoundBit, BitBytes, ConstantBits, FromLe, B;
    var b := BitBytes(ConstantBits(ir));
    ZeroBytes(ir);
    OtherBytes(ir);
    BytesValue(b, b[0], b[1], b[3], b[7]);
  }

  lemma ConstantOk(ir: nat)
    ensures OfNat(Constant(ir), 64) == ConstantBits(ir)
  {
    ConstantValue(ir);
    FromLeBits(BitBytes(ConstantBits(ir)));
    ByteBitsOfBitBytes(ConstantBits(ir));
  }
}
