/** The structured 256-bit nonce space and its allocator (nonce_space.rs). */
module NonceSpace {
  import opened Bits
  import opened Fips202
  import opened Text

  type NoncePrefix = b: seq<Byte> | |b| == 24 witness seq(24, _ => 0)

  const TWO16 := 0x1_0000
  const TWO32 := 0x1_0000_0000
  const TWO48 := 0x1_0000_0000_0000

  /** The fields of a NonceAllocator. */
  datatype Fields = Fields(version: nat, minerHash32: nat, bootRandom48: nat, workerDevice32: nat, epochHash64: U64,
      nextCounter: U64)

  ghost predicate InRange(f: Fields) {
    f.version < TWO16 && f.minerHash32 < TWO32 && f.bootRandom48 < TWO48 && f.workerDevice32 < TWO32
  }

  datatype NonceBatch = NonceBatch(prefix: NoncePrefix, baseCounter64: U64, batchSize: nat)

  function PrefixOf(f: Fields): NoncePrefix {
    ToBe(f.version, 2) + ToBe(f.minerHash32, 4) + ToBe(f.bootRandom48, 8)[2..8]
    + ToBe(f.workerDevice32, 4) + ToBe(f.epochHash64, 8)
  }

  function PowNonce(prefix: NoncePrefix, counter: U64): U256 {
    FromBeBound(prefix + ToBe(counter, 8));
    Pow2Is256();
    FromBe(prefix + ToBe(counter, 8))
  }

  function EpochChallengeHash64(epoch: U64, challenge: B256): U64 {
    var digest := Keccak256(ToBe(epoch, 8) + challenge);
    FromBeBound(digest[0..8]);
    Pow2Table();
    FromBe(digest[0..8])
  }

  /**
   What the hash is taken of: the first eight bytes of the digest of epoch and challenge, in an encoding in which
   no two pairs of them coincide.
   */
  lemma EpochHashOf(epoch: U64, challenge: B256, epoch': U64, challenge': B256)
    ensures ToBe(EpochChallengeHash64(epoch, challenge), 8) == Keccak256(ToBe(epoch, 8) + challenge)[..8]
    ensures ToBe(epoch, 8) + challenge == ToBe(epoch', 8) + challenge' ==> epoch == epoch' && challenge == challenge'
  {
    hide Keccak256, ToBe, FromBe;
    var first := Keccak256(ToBe(epoch, 8) + challenge)[..8];
    ToBeFromBe(first);
    var a, b := ToBe(epoch, 8) + challenge, ToBe(epoch', 8) + challenge';
    if a == b {
      assert a[..8] == ToBe(epoch, 8) && b[..8] == ToBe(epoch', 8) && a[8..] == challenge && b[8..] == challenge';
      Pow2Table();
      FromBeToBe(epoch, 8);
      FromBeToBe(epoch', 8);
    }
  }

  // ---------- What the operations leave ----------

  function Allocated(f: Fields, batchSize: nat): Fields {
    f.(nextCounter := (f.nextCounter + batchSize) % TWO64)
  }

  function BatchOf(f: Fields, batchSize: nat): NonceBatch {
    NonceBatch(PrefixOf(f), f.nextCounter, batchSize)
  }

  function Rebound(f: Fields, epochHash64: U64): Fields {
    if epochHash64 != f.epochHash64 then f.(epochHash64 := epochHash64, nextCounter := 0) else f
  }

  /** The i-th nonce of a batch, as its receiver assembles it (NonceBatch::pow_nonce). */
  function BatchNonce(batch: NonceBatch, i: nat): U256 {
    PowNonce(batch.prefix, (batch.baseCounter64 + i) % TWO64)
  }

  class NonceAllocator {
    var fields: Fields

    constructor WithParts(version: nat, minerHash32: nat, bootRandom48: nat, workerDevice32: nat, epoch: U64,
        challenge: B256)
      requires version < TWO16 && minerHash32 < TWO32 && workerDevice32 < TWO32
      ensures fields == Fields(version, minerHash32, bootRandom48 % TWO48, workerDevice32,
          EpochChallengeHash64(epoch, challenge), 0)
      ensures InRange(fields)
    {
      fields := Fields(version, minerHash32, bootRandom48 % TWO48, workerDevice32,
          EpochChallengeHash64(epoch, challenge), 0);
    }

    constructor FromFields(f: Fields)
      ensures fields == f
    {
      fields := f;
    }

    method NextBatch(batchSize: nat) returns (batch: NonceBatch)
      modifies this
      ensures fields == Allocated(old(fields), batchSize) && batch == BatchOf(old(fields), batchSize)
      ensures batch.prefix == PrefixOf(old(fields)) && batch.batchSize == batchSize
      ensures batch.baseCounter64 == old(fields).nextCounter
      ensures fields.nextCounter == (batch.baseCounter64 + batchSize) % TWO64
    {
      var baseCounter64 := fields.nextCounter;
      fields := fields.(nextCounter := (fields.nextCounter + batchSize) % TWO64);
      batch := NonceBatch(PrefixOf(fields), baseCounter64, batchSize);
    }

    /** Whether a rebind to this epoch and challenge would do anything. */
    method EpochChanged(epoch: U64, challenge: B256) returns (changed: bool)
      ensures changed <==> Rebound(fields, EpochChallengeHash64(epoch, challenge)) != fields
    {
      changed := fields.epochHash64 != EpochChallengeHash64(epoch, challenge);
    }

    method RebindEpoch(epoch: U64, challenge: B256)
      modifies this
      ensures fields == Rebound(old(fields), EpochChallengeHash64(epoch, challenge))
    {
      var newHash := EpochChallengeHash64(epoch, challenge);
      if newHash != fields.epochHash64 {
        fields := fields.(epochHash64 := newHash);
        fields := fields.(nextCounter := 0);
      }
    }
  }

  // ---------- The layout of a nonce ----------

  lemma WidthOf(n: nat, width: nat, bound: nat)
    requires n < bound && bound == Pow2(8 * width)
    ensures FromBe(ToBe(n, width)) == n
  {
    FromBeToBe(n, width);
  }

  lemma Widths()
    ensures Pow2(16) == TWO16 && Pow2(32) == TWO32 && Pow2(48) == TWO48
  {
    hide Pow2;
    Pow2Table();
    Pow2Add(8, 8);
    Pow2Add(16, 16);
    Pow2Add(32, 16);
  }

  /** A 48-bit number has no bits in the two high bytes of its eight. */
  lemma Boot48(n: nat)
    requires n < TWO48
    ensures ToBe(n, 8)[2..8] == ToBe(n, 6)
  {
    hide FromBe, ToBe, Pow2;
    Widths();
    WidthOf(n, 6, TWO48);
    var b := ToBe(n, 6);
    var z: seq<Byte> := [0, 0];
    ZeroTop(b);
    ToBeFromBe(z + b);
  }

  lemma ZeroTop(b: seq<Byte>)
    ensures FromBe([0, 0] + b) == FromBe(b)
  {
    FromBeAppend([0, 0], b);
    assert FromBe([0, 0]) == 0 by {
      assert [0, 0][..1] == [0];
      assert FromBe([0]) == 0;
    }
  }

  /** Every field can be read back from its place in the prefix. */
  lemma PrefixFields(f: Fields)
    requires InRange(f)
    ensures var p := PrefixOf(f);
      && FromBe(p[0..2]) == f.version && FromBe(p[2..6]) == f.minerHash32 && FromBe(p[6..12]) == f.bootRandom48
      && FromBe(p[12..16]) == f.workerDevice32 && FromBe(p[16..24]) == f.epochHash64
  {
    hide FromBe, ToBe, Pow2;
    var p := PrefixOf(f);
    Widths();
    Pow2Table();
    Boot48(f.bootRandom48);
    assert p[0..2] == ToBe(f.version, 2) && p[2..6] == ToBe(f.minerHash32, 4) && p[6..12] == ToBe(f.bootRandom48, 6);
    assert p[12..16] == ToBe(f.workerDevice32, 4) && p[16..24] == ToBe(f.epochHash64, 8);
    WidthOf(f.version, 2, TWO16);
    WidthOf(f.minerHash32, 4, TWO32);
    WidthOf(f.bootRandom48, 6, TWO48);
    WidthOf(f.workerDevice32, 4, TWO32);
    WidthOf(f.epochHash64, 8, TWO64);
  }

  /** The nonce is prefix << 64 | counter. */
  lemma PowNonceShift(prefix: NoncePrefix, counter: U64)
    ensures PowNonce(prefix, counter) == FromBe(prefix) * TWO64 + counter
  {
    hide FromBe, ToBe, Pow2;
    Pow2Table();
    FromBeAppend(prefix, ToBe(counter, 8));
    WidthOf(counter, 8, TWO64);
  }

  lemma DigitsTell(a: nat, c: U64, b: nat, d: U64)
    requires a * TWO64 + c == b * TWO64 + d
    ensures a == b && c == d
  {
    assert (a - b) * TWO64 == d - c;
  }

  /** Distinct prefix and counter pairs are distinct nonces. */
  lemma PowNonceInjective(p: NoncePrefix, c: U64, q: NoncePrefix, d: U64)
    requires PowNonce(p, c) == PowNonce(q, d)
    ensures p == q && c == d
  {
    hide FromBe, ToBe, PowNonce;
    PowNonceShift(p, c);
    PowNonceShift(q, d);
    DigitsTell(FromBe(p), c, FromBe(q), d);
    ToBeFromBe(p);
    ToBeFromBe(q);
  }

  /** The documented bit layout: five fields and the counter, from bit 240 down to bit 0. */
  lemma PowNonceLayout(f: Fields, counter: U64)
    requires InRange(f)
    ensures PowNonce(PrefixOf(f), counter)
         == ((((f.version * TWO32 + f.minerHash32) * TWO48 + f.bootRandom48) * TWO32 + f.workerDevice32) * TWO64
             + f.epochHash64) * TWO64 + counter
  {
    hide FromBe, PrefixOf, Pow2;
    var p := PrefixOf(f);
    PowNonceShift(p, counter);
    PrefixFields(f);
    Widths();
    Pow2Table();
    FromBeAppend(p[0..2], p[2..6]);
    FromBeAppend(p[0..6], p[6..12]);
    FromBeAppend(p[0..12], p[12..16]);
    FromBeAppend(p[0..16], p[16..24]);
    assert p[0..6] == p[0..2] + p[2..6] && p[0..12] == p[0..6] + p[6..12];
    assert p[0..16] == p[0..12] + p[12..16] && p == p[0..16] + p[16..24];
  }

  // ---------- The prefix as text ----------

  function PrefixHex(prefix: NoncePrefix): string {
    Marked(prefix)
  }

  function ParsePrefixHex(raw: string): (r: Option<NoncePrefix>) {
    match ReadMarked(raw)
    case None => None
    case Some(bytes) => if |bytes| != 24 then None else Some(bytes)
  }

  /** A worker reads back the prefix the coordinator wrote. */
  lemma PrefixHexRoundTrip(prefix: NoncePrefix)
    ensures ParsePrefixHex(PrefixHex(prefix)) == Some(prefix)
  {
    MarkedRoundTrip(prefix);
  }
}
