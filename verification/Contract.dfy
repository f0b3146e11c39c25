/** The proof-of-work rule of the HASH token (contract.rs), as the CPU side evaluates it. */
module Contract {
  import opened Bits
  import opened Fips202
  import opened Text

  function HashNonce(challenge: B256, powNonce: U256): B256 {
    Keccak256(challenge + ToBe(powNonce, 32))
  }

  predicate HashBelowTarget(hash: B256, target: U256) {
    FromBe(hash) < target
  }

  predicate ProofIsValid(challenge: B256, powNonce: U256, target: U256) {
    FromBe(HashNonce(challenge, powNonce)) < target
  }

  // ---------- The call that submits a proof ----------

  /** The four-byte selector of mine(uint256). */
  function Selector(): (s: seq<Byte>)
    ensures |s| == 4
  {
    Keccak256(Ascii("mine(uint256)"))[..4]
  }

  /** The bytes of a text, for its characters below 256. */
  function Ascii(s: string): (b: seq<Byte>)
    ensures |b| == |s|
  {
    seq(|s|, i requires 0 <= i < |s| => s[i] as int % 256)
  }

  function MineCalldata(powNonce: U256): (b: seq<Byte>)
    ensures |b| == 36
  {
    Selector() + ToBe(powNonce, 32)
  }

  /** The bytes are a call of mine(uint256), named by its text byte by byte, with that argument. */
  predicate CallsMine(calldata: seq<Byte>, argument: nat) {
    && |calldata| == 36
    && calldata[..4] == Keccak256([109, 105, 110, 101, 40, 117, 105, 110, 116, 50, 53, 54, 41])[..4]
    && FromBe(calldata[4..]) == argument
  }

  lemma SignatureBytes()
    ensures Ascii("mine(uint256)") == [109, 105, 110, 101, 40, 117, 105, 110, 116, 50, 53, 54, 41]
  {
  }

  /** The first four bytes select mine(uint256); the 32 behind them are the nonce as a big-endian number. */
  lemma MineCalldataIs(powNonce: U256)
    ensures CallsMine(MineCalldata(powNonce), powNonce)
  {
    hide Keccak256, ToBe, FromBe, Ascii;
    SignatureBytes();
    Pow2Is256();
    var b := MineCalldata(powNonce);
    assert b[..4] == Selector() && b[4..] == ToBe(powNonce, 32);
    FromBeToBe(powNonce, 32);
  }

  /** The calldata names its nonce. */
  lemma MineCalldataInjective(p: U256, q: U256)
    requires MineCalldata(p) == MineCalldata(q)
    ensures p == q
  {
    hide MineCalldata;
    MineCalldataIs(p);
    MineCalldataIs(q);
  }

  // ---------- Work and solutions ----------

  datatype WorkState = WorkState(epoch: U64, challenge: B256, target: U256, effectiveTarget: U256, blocksLeft: nat,
      blockNumber: nat)

  datatype Solution = Solution(epoch: U64, challenge: B256, nonce: U256, hash: B256)

  /** The configured divisor is at least one. */
  function EffectiveTarget(target: U256, divisor: nat): (e: U256)
    ensures e <= target
  {
    var d := if divisor < 1 then 1 else divisor;
    Quotient(target, d);
    target / d
  }

  lemma Quotient(n: nat, d: nat)
    requires d > 0
    ensures 0 <= n / d <= n
  {
    var q, r := n / d, n % d;
    assert n == q * d + r && 0 <= r < d;
    MultipleSign(q, d);
  }

  lemma MultipleSign(q: int, d: nat)
    requires d > 0
    ensures q >= 0 ==> q * d >= q
    ensures q < 0 ==> q * d + d <= 0
  {
  }

  datatype Verdict = Accepted | StaleEpoch | StaleChallenge | HashMismatch | AboveEffectiveTarget | AboveTarget

  /** validate_solution: the checks in their order. */
  function ValidateSolution(sol: Solution, state: WorkState): Verdict {
    if sol.epoch != state.epoch then StaleEpoch
    else if sol.challenge != state.challenge then StaleChallenge
    else if HashNonce(sol.challenge, sol.nonce) != sol.hash then HashMismatch
    else if !HashBelowTarget(sol.hash, state.effectiveTarget) then AboveEffectiveTarget
    else if !HashBelowTarget(sol.hash, state.target) then AboveTarget
    else Accepted
  }

  /**
   What acceptance means: the solution is for the state's epoch and challenge, reports its true hash,
   and is a proof for the effective target. The last check never decides.
   */
  lemma AcceptedExactly(sol: Solution, state: WorkState, divisor: nat)
    requires state.effectiveTarget == EffectiveTarget(state.target, divisor)
    ensures ValidateSolution(sol, state) == Accepted <==>
            && sol.epoch == state.epoch && sol.challenge == state.challenge
            && sol.hash == HashNonce(state.challenge, sol.nonce)
            && ProofIsValid(state.challenge, sol.nonce, state.effectiveTarget)
    ensures ValidateSolution(sol, state) != AboveTarget
    ensures ValidateSolution(sol, state) == Accepted ==> ProofIsValid(state.challenge, sol.nonce, state.target)
  {
    hide HashNonce, EffectiveTarget;
    assert state.effectiveTarget <= state.target by {
      var e := EffectiveTarget(state.target, divisor);
    }
  }

  /** Which check speaks: the first that fails, in the order epoch, challenge, hash, effective target, target. */
  lemma VerdictExactly(sol: Solution, state: WorkState)
    ensures var v := ValidateSolution(sol, state);
      var hash := HashNonce(sol.challenge, sol.nonce);
      && (sol.epoch != state.epoch <==> v == StaleEpoch)
      && (sol.epoch == state.epoch && sol.challenge != state.challenge <==> v == StaleChallenge)
      && (v in {HashMismatch, AboveEffectiveTarget, AboveTarget, Accepted} ==>
            && (v == HashMismatch <==> sol.hash != hash)
            && (v == AboveEffectiveTarget <==> sol.hash == hash && state.effectiveTarget <= FromBe(hash))
            && (v == AboveTarget <==>
                  sol.hash == hash && state.target <= FromBe(hash) < state.effectiveTarget))
  {
    hide HashNonce;
  }

  // ---------- Before signing ----------

  datatype Guard = Turned(verdict: Verdict) | Unanswered | Moved | Passed

  /** submit_solution up to do_submit: validation first, then the challenge is asked for once more. */
  function SubmitGuard(sol: Solution, state: WorkState, recheck: Option<B256>): Guard {
    var verdict := ValidateSolution(sol, state);
    if verdict != Accepted then Turned(verdict)
    else if recheck == None then Unanswered
    else if recheck.value != sol.challenge then Moved
    else Passed
  }

  /** What gets past the guards, what is counted as stale there, and that no answer stops it. */
  lemma GuardExactly(sol: Solution, state: WorkState, recheck: Option<B256>)
    ensures SubmitGuard(sol, state, recheck) == Passed <==>
              && sol.epoch == state.epoch && sol.challenge == state.challenge
              && sol.hash == HashNonce(state.challenge, sol.nonce)
              && ProofIsValid(state.challenge, sol.nonce, state.effectiveTarget)
              && ProofIsValid(state.challenge, sol.nonce, state.target)
              && recheck == Some(state.challenge)
    ensures SubmitGuard(sol, state, recheck) == Moved <==>
              && SubmitGuard(sol, state, Some(sol.challenge)) == Passed
              && recheck.Some? && recheck != Some(state.challenge)
  {
    hide HashNonce;
  }
}
