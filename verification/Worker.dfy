/** The worker's search of one range (worker.rs): on the CPU, and how the GPU's search differs. */
module Worker {
  import opened Bits
  import opened Contract
  import opened NonceSpace
  import opened Text
  import opened GpuMiner
  import opened WorkRanges

  const CPU_LIMIT := 2_000_000

  function Min(a: nat, b: nat): nat {
    if a < b then a else b
  }

  function CpuBatch(batchHint: nat, gpuBatch: nat): nat {
    Min(Min(batchHint, gpuBatch), CPU_LIMIT)
  }

  /** The search a worker makes of a range it was handed. */
  function TaskOf(h: Handout, challenge: B256, target: U256): Task {
    Task(challenge, PrefixOf(h.f), target, h.f.nextCounter)
  }

  /**
   The CPU loop returns the first proof of the range it was handed, with its hash, after that many
   attempts; and it makes no attempt beyond the range.
   */
  method SearchBatch(h: Handout, challenge: B256, target: U256, batchHint: nat, gpuBatch: nat)
    returns (found: Option<(U256, B256)>, attempts: nat)
    ensures attempts <= batchHint && attempts <= gpuBatch && attempts <= 2_000_000
    ensures found == None ==> attempts == batchHint || attempts == gpuBatch || attempts == 2_000_000
    ensures found == None ==> Clear(TaskOf(h, challenge, target), 0, attempts)
    ensures found.Some? ==>
              && attempts > 0 && Clear(TaskOf(h, challenge, target), 0, attempts - 1)
              && found.value.0 == NonceOf(h, attempts - 1)
              && found.value.1 == HashNonce(challenge, found.value.0)
              && ProofIsValid(challenge, found.value.0, target)
  {
    hide PowNonce, HashNonce;
    ghost var task := TaskOf(h, challenge, target);
    var prefix := PrefixOf(h.f);
    var batch := CpuBatch(batchHint, gpuBatch);
    attempts := 0;
    for i := 0 to batch
      invariant attempts == i && Clear(task, 0, i)
    {
      var n := PowNonce(prefix, (h.f.nextCounter + i) % TWO64);
      attempts := attempts + 1;
      var hash := HashNonce(challenge, n);
      if HashBelowTarget(hash, target) {
        return Some((n, hash)), attempts;
      }
    }
    return None, attempts;
  }

  // ---------- The GPU search of the same range ----------

  /** The nonce belongs to the range. */
  ghost predicate InHanded(h: Handout, batch: nat, nonce: U256) {
    exists i :: 0 <= i < batch && nonce == NonceOf(h, i)
  }

  /** What the GPU tries beyond its range is what the same binding is handed next. */
  lemma GpuLeavesRange(h: Handout, challenge: B256, target: U256, batch: nat, i: nat)
    ensures NonceAt(TaskOf(h, challenge, target), batch + i)
         == NonceOf(Handout(h.worker, Allocated(h.f, batch)), i)
  {
    hide PowNonce, PrefixOf;
    SamePrefix(h.f, Allocated(h.f, batch));
    WrapAdd(h.f.nextCounter + batch, i);
  }

  /** The first nonce past the range is not in it. */
  lemma FirstBeyond(h: Handout, challenge: B256, target: U256, batch: nat)
    requires batch < TWO64
    ensures !InHanded(h, batch, NonceAt(TaskOf(h, challenge, target), batch))
  {
    hide PowNonce, PrefixOf;
    var start := h.f.nextCounter;
    forall i | 0 <= i < batch
      ensures NonceAt(TaskOf(h, challenge, target), batch) != NonceOf(h, i)
    {
      if NonceAt(TaskOf(h, challenge, target), batch) == NonceOf(h, i) {
        PowNonceInjective(PrefixOf(h.f), (start + batch) % TWO64, PrefixOf(h.f), (start + i) % TWO64);
        assert false;
      }
    }
  }

  /**
   The nonces of a search stay in the range it was handed exactly if it is no longer than the range.
   The GPU search has no such bound.
   */
  lemma GpuStaysExactly(h: Handout, challenge: B256, target: U256, batch: nat, total: nat)
    requires batch < TWO64
    ensures (forall k :: 0 <= k < total ==> InHanded(h, batch, NonceAt(TaskOf(h, challenge, target), k)))
        <==> total <= batch
  {
    hide PowNonce, PrefixOf;
    FirstBeyond(h, challenge, target, batch);
    forall k | 0 <= k < batch
      ensures InHanded(h, batch, NonceAt(TaskOf(h, challenge, target), k))
    {
      assert NonceAt(TaskOf(h, challenge, target), k) == NonceOf(h, k);
    }
  }

  /** With a batch size that starts at the handed length, as by default, the bound is one dispatch. */
  lemma OneDispatchFits(miner: Config, batch: nat, env: seq<Turn>, lens: seq<nat>)
    requires miner.localSize > 0 && |lens| <= |env| && batch > 0
    requires TunedRun(miner, batch, env, lens) && Checked(env, lens)
    ensures Total(lens) <= batch <==> |lens| <= 1
  {
    if |lens| > 0 {
      assert Sum(lens, 1) == Sum(lens, 0) + lens[0] == batch;
      SumGrows(lens, 1, |lens|);
      if |lens| > 1 {
        assert Sum(lens, 2) == batch + lens[1];
        SumGrows(lens, 2, |lens|);
      }
    }
  }

  lemma {:induction false} SumGrows(lens: seq<nat>, m: nat, n: nat)
    requires m <= n <= |lens|
    ensures Sum(lens, m) <= Sum(lens, n)
  {
    if m < n {
      SumGrows(lens, m, n - 1);
    }
  }

  /**
   It happens: two quiet turns on a target that nothing meets, and the search has left the range that
   the miner's own batch size was handed as.
   */
  method Overrun(miner: GpuMiner, h: Handout, challenge: B256, attempts: Counter) returns (lens: seq<nat>)
    requires miner.Valid()
    modifies attempts, miner`batchSize
    ensures |lens| == 2 && Total(lens) > old(miner.batchSize)
    ensures old(miner.batchSize) < TWO64 ==>
              !InHanded(h, old(miner.batchSize), NonceAt(TaskOf(h, challenge, 0), old(miner.batchSize)))
  {
    ghost var batch := miner.batchSize;
    var quiet := Turn(false, false, [], false, None);
    var task := TaskOf(h, challenge, 0);
    var outcome: MineOutcome;
    outcome, lens := miner.MineUntil(task, attempts, [quiet, quiet]);
    OneDispatchFits(miner.config, batch, [quiet, quiet], lens);
    if batch < TWO64 {
      FirstBeyond(h, challenge, 0, batch);
    }
  }
}
