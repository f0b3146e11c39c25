/**
 The hash function the miner searches with, as FIPS 202 defines it: on bits.
 The function is KECCAK[512] on the raw message (no domain-separation suffix), cut to
 256 bits, which is what Ethereum calls keccak256.
 */
module Fips202 {
  import opened Bits

  /** A[x, y, z] of section 3.1.2, for 0 <= x, y < 5 and 0 <= z < 64. */
  type State = (int, int, int) -> bool

  const RATE := 1088
  const DIGEST := 256
  const ROUNDS := 24

  // ---------- Section 3.2: the step mappings ----------

  /** Section 3.2.1, step 1: the parity of a column. */
  function ColumnParity(A: State, x: int, z: int): bool {
    Xor(Xor(Xor(Xor(A(x, 0, z), A(x, 1, z)), A(x, 2, z)), A(x, 3, z)), A(x, 4, z))
  }

  /** Section 3.2.1, step 2. */
  function ThetaEffect(A: State, x: int, z: int): bool {
    Xor(ColumnParity(A, (x - 1) % 5, z), ColumnParity(A, (x + 1) % 5, (z - 1) % 64))
  }

  function ThetaBit(A: State, x: int, y: int, z: int): bool {
    Xor(A(x, y, z), ThetaEffect(A, x, z))
  }

  function Theta(A: State): State {
    (x, y, z) => ThetaBit(A, x, y, z)
  }

  datatype Coord = Coord(x: int, y: int)

  /** The lane that step t of section 3.2.2 rotates: (1, 0), then (x, y) becomes (y, 2x + 3y mod 5). */
  function Walk(t: nat): Coord {
    if t == 0 then Coord(1, 0) else var p := Walk(t - 1); Coord(p.y, (2 * p.x + 3 * p.y) % 5)
  }

  /** The first step not before t that rotates lane (x, y); 24 when there is none. */
  function StepAt(x: int, y: int, t: nat): nat
    requires t <= 24
    decreases 24 - t
  {
    if t == 24 || Walk(t) == Coord(x, y) then t else StepAt(x, y, t + 1)
  }

  /** The rotation amount of a lane, (t+1)(t+2)/2 for the step t that visits it; lane (0, 0) stays. */
  function Offset(x: int, y: int): int {
    if x == 0 && y == 0 then 0 else var t := StepAt(x, y, 0); (t + 1) * (t + 2) / 2
  }

  function RhoBit(A: State, x: int, y: int, z: int): bool {
    A(x, y, (z - Offset(x, y)) % 64)
  }

  function Rho(A: State): State {
    (x, y, z) => RhoBit(A, x, y, z)
  }

  /** Section 3.2.3 */
  function PiBit(A: State, x: int, y: int, z: int): bool {
    A((x + 3 * y) % 5, x, z)
  }

  function Pi(A: State): State {
    (x, y, z) => PiBit(A, x, y, z)
  }

  /** Section 3.2.4 */
  function ChiBit(A: State, x: int, y: int, z: int): bool {
    Xor(A(x, y, z), !A((x + 1) % 5, y, z) && A((x + 2) % 5, y, z))
  }

  function Chi(A: State): State {
    (x, y, z) => ChiBit(A, x, y, z)
  }

  /**
   Steps 3a to 3f of Algorithm 5, section 3.2.5; R[i] is bit i. Prepending a zero moves every bit
   up by one; the bit that arrives at R[8] is folded into R[0], R[4], R[5] and R[6], then dropped.
   */
  function Clock(R: bv8): bv8 {
    var S := (R as bv9) << 1;
    ((if S & 0x100 != 0 then S ^ 0x71 else S) & 0xff) as bv8
  }

  function Lfsr(t: nat): bv8 {
    if t == 0 then 1 else Clock(Lfsr(t - 1))
  }

  /** rc(t) */
  function RoundBit(t: nat): bool {
    Lfsr(t % 255) & 1 == 1
  }

  /** RC[z] for round index ir: bit 2^j - 1 is rc(j + 7 ir) for 0 <= j <= 6, every other bit is zero. */
  function RoundConstant(ir: nat, z: int): bool {
    if z == 0 then RoundBit(7 * ir)
    else if z == 1 then RoundBit(1 + 7 * ir)
    else if z == 3 then RoundBit(2 + 7 * ir)
    else if z == 7 then RoundBit(3 + 7 * ir)
    else if z == 15 then RoundBit(4 + 7 * ir)
    else if z == 31 then RoundBit(5 + 7 * ir)
    else if z == 63 then RoundBit(6 + 7 * ir)
    else false
  }

  function IotaBit(A: State, ir: nat, x: int, y: int, z: int): bool {
    if x == 0 && y == 0 then Xor(A(x, y, z), RoundConstant(ir, z)) else A(x, y, z)
  }

  function Iota(A: State, ir: nat): State {
    (x, y, z) => IotaBit(A, ir, x, y, z)
  }

  // ---------- Section 3.3: KECCAK-p[1600, 24] ----------

  function Round(A: State, ir: nat): State {
    Iota(Chi(Pi(Rho(Theta(A)))), ir)
  }

  function Permute(A: State, rounds: nat): State {
    if rounds == 0 then A else Round(Permute(A, rounds - 1), rounds - 1)
  }

  // ---------- Section 3.1: strings and states ----------

  function StringBit(S: seq<bool>, x: int, y: int, z: int): bool
    requires |S| == 1600
  {
    0 <= x < 5 && 0 <= y < 5 && 0 <= z < 64 && S[64 * (5 * y + x) + z]
  }

  function StateOf(S: seq<bool>): State
    requires |S| == 1600
  {
    (x, y, z) => StringBit(S, x, y, z)
  }

  function StringOf(A: State): (S: seq<bool>)
    ensures |S| == 1600
  {
    seq(1600, k requires 0 <= k < 1600 => A(k / 64 % 5, k / 320, k % 64))
  }

  function KeccakF(S: seq<bool>): (T: seq<bool>)
    requires |S| == 1600
    ensures |T| == 1600
  {
    StringOf(Permute(StateOf(S), ROUNDS))
  }

  // ---------- Sections 4 and 5: the sponge, pad10*1 and KECCAK[512] ----------

  function ZeroBits(n: nat): (s: seq<bool>)
    ensures |s| == n
  {
    seq(n, _ => false)
  }

  /** pad10*1(r, m): a one, the fewest zeros, a one, so that the rate divides the padded length. */
  function Pad(m: int): (p: seq<bool>)
    requires m >= 0
    ensures (m + |p|) % RATE == 0
  {
    [true] + ZeroBits((-m - 2) % RATE) + [true]
  }

  function XorBlock(S: seq<bool>, P: seq<bool>): (T: seq<bool>)
    requires |S| == 1600 && |P| == RATE
    ensures |T| == 1600
  {
    seq(1600, k requires 0 <= k < 1600 => Xor(S[k], k < RATE && P[k]))
  }

  /** Step 6 of Algorithm 8: fold the blocks of the padded message into the state, first block first. */
  function Absorb(S: seq<bool>, P: seq<bool>): (T: seq<bool>)
    requires |S| == 1600 && |P| % RATE == 0
    ensures |T| == 1600
    decreases |P|
  {
    if |P| == 0 then S else Absorb(KeccakF(XorBlock(S, P[..RATE])), P[RATE..])
  }

  /** KECCAK[512](N, 256): the digest is shorter than the rate, so one squeeze is enough. */
  function Keccak512(N: seq<bool>): (Z: seq<bool>)
    ensures |Z| == DIGEST
  {
    Absorb(ZeroBits(1600), N + Pad(|N|))[..DIGEST]
  }

  // ---------- Byte messages ----------

  function Keccak256(message: seq<Byte>): (digest: seq<Byte>)
    ensures |digest| == 32
  {
    BitBytes(Keccak512(ByteBits(message)))
  }
}
