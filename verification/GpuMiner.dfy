/** The GPU search loop (gpu/mod.rs): dispatch after dispatch, with a self-tuning batch size. */
module GpuMiner {
  import opened Bits
  import opened Contract
  import opened NonceSpace
  import opened Dispatch
  import opened Text

  /** u64::wrapping_add, for any number of wraps. */
  function WrappingAdd(a: U64, n: nat): U64 {
    (a + n) % TWO64
  }

  /** An AtomicU64. */
  class Counter {
    var n: U64

    constructor ()
      ensures n == 0
    {
      n := 0;
    }

    method FetchAdd(k: nat)
      modifies this
      ensures n == WrappingAdd(old(n), k)
    {
      n := WrappingAdd(n, k);
    }
  }

  /**
   What one turn of the search loop meets from outside: the stop flag and the epoch token as the
   loop reads them, the order in which the device runs the items, the stop flag after the dispatch,
   and the dispatch time relative to the target, if it could be measured.
   */
  datatype Turn = Turn(stopBefore: bool, tokenMoved: bool, schedule: seq<nat>, stopAfter: bool, ratio: Option<real>)

  datatype MineOutcome =
    | Found(nonce: U256, lastCounter: U64)
    | Aborted(lastCounter: U64)
    | Running(nextCounter: U64)

  /** What is searched, from which counter on. */
  datatype Task = Task(challenge: B256, prefix: NoncePrefix, target: U256, start: U64)

  /** The nonce at distance k from the start of a search, the counter wrapping at 2^64. */
  function NonceAt(task: Task, k: nat): U256 {
    PowNonce(task.prefix, (task.start + k) % TWO64)
  }

  predicate ProvesAt(task: Task, k: nat) {
    ProofIsValid(task.challenge, NonceAt(task, k), task.target)
  }

  /** No counter at a distance in [lo, hi) is a proof. */
  ghost predicate Clear(task: Task, lo: nat, hi: nat) {
    forall k :: lo <= k < hi ==> !ProvesAt(task, k)
  }

  lemma WrapAdd(a: nat, d: nat)
    ensures (a % TWO64 + d) % TWO64 == (a + d) % TWO64
  {
  }

  lemma AddTwice(a: U64, m: nat, n: nat)
    ensures WrappingAdd(WrappingAdd(a, m), n) == WrappingAdd(a, m + n)
    ensures WrappingAdd(a, 0) == a
  {
    WrapAdd(a + m, n);
  }

  /** The nonce is a proof at a distance in [lo, hi). */
  ghost predicate FoundIn(task: Task, lo: nat, hi: nat, nonce: U256) {
    exists k :: lo <= k < hi && ProvesAt(task, k) && nonce == NonceAt(task, k)
  }

  /** The same search, begun d counters later. */
  function From(task: Task, d: nat): Task {
    task.(start := WrappingAdd(task.start, d))
  }

  lemma ShiftFound(task: Task, d: nat, n: nat, nonce: U256)
    requires FoundIn(From(task, d), 0, n, nonce)
    ensures FoundIn(task, d, d + n, nonce)
  {
    hide ProvesAt, NonceAt;
    var k :| 0 <= k < n && ProvesAt(From(task, d), k) && nonce == NonceAt(From(task, d), k);
    ShiftAt(task, d, k);
    assert ProvesAt(task, d + k) && nonce == NonceAt(task, d + k);
  }

  lemma ShiftAt(task: Task, d: nat, k: nat)
    ensures NonceAt(From(task, d), k) == NonceAt(task, d + k)
    ensures ProvesAt(From(task, d), k) == ProvesAt(task, d + k)
  {
    hide PowNonce, ProofIsValid;
    WrapAdd(task.start + d, k);
  }

  lemma ShiftClear(task: Task, d: nat, n: nat)
    requires Clear(From(task, d), 0, n)
    ensures Clear(task, d, d + n)
  {
    hide ProvesAt, NonceAt;
    forall k | d <= k < d + n
      ensures !ProvesAt(task, k)
    {
      ShiftAt(task, d, k - d);
      assert !ProvesAt(From(task, d), k - d);
    }
  }

  /** The total length of the first m dispatches. */
  function Sum(lens: seq<nat>, m: nat): nat
    requires m <= |lens|
  {
    if m == 0 then 0 else Sum(lens, m - 1) + lens[m - 1]
  }

  function Total(lens: seq<nat>): nat {
    Sum(lens, |lens|)
  }

  lemma {:induction false} SumExtends(lens: seq<nat>, n: nat, m: nat)
    requires m <= |lens|
    ensures Sum(lens + [n], m) == Sum(lens, m)
  {
    if m > 0 {
      SumExtends(lens, n, m - 1);
    }
  }

  lemma TotalExtends(lens: seq<nat>, n: nat)
    ensures Total(lens + [n]) == Total(lens) + n
  {
    SumExtends(lens, n, |lens|);
  }

  /** Every dispatch was made after both checks passed, and was not empty. */
  ghost predicate Checked(env: seq<Turn>, lens: seq<nat>)
    requires |lens| <= |env|
  {
    forall m :: 0 <= m < |lens| ==> !env[m].stopBefore && !env[m].tokenMoved && lens[m] > 0
  }

  lemma CheckedExtends(env: seq<Turn>, lens: seq<nat>, n: nat)
    requires |lens| < |env| && Checked(env, lens)
    requires n > 0 && !env[|lens|].stopBefore && !env[|lens|].tokenMoved
    ensures Checked(env, lens + [n])
  {
  }

  /** Among the first `count` dispatches, those not followed by the stop flag had no proof. */
  ghost predicate Clean(task: Task, env: seq<Turn>, lens: seq<nat>, count: nat)
    requires count <= |lens| <= |env|
  {
    forall m :: 0 <= m < count && !env[m].stopAfter ==> Clear(task, Sum(lens, m), Sum(lens, m + 1))
  }

  lemma CleanExtends(task: Task, env: seq<Turn>, lens: seq<nat>, n: nat)
    requires |lens| < |env| && Clean(task, env, lens, |lens|)
    ensures Clean(task, env, lens + [n], |lens|)
    ensures (env[|lens|].stopAfter || Clear(task, Total(lens), Total(lens) + n)) ==>
        Clean(task, env, lens + [n], |lens| + 1)
  {
    hide Clear;
    var all := lens + [n];
    forall m | 0 <= m <= |lens|
      ensures Sum(all, m) == Sum(lens, m)
    {
      SumExtends(lens, n, m);
    }
    TotalExtends(lens, n);
  }

  /** A search whose stop flag never rose has cleared one unbroken stretch of counters. */
  lemma {:induction false} CleanIsClear(task: Task, env: seq<Turn>, lens: seq<nat>, count: nat)
    requires count <= |lens| <= |env| && Clean(task, env, lens, count)
    requires forall m :: 0 <= m < count ==> !env[m].stopAfter
    ensures Clear(task, 0, Sum(lens, count))
  {
    hide ProvesAt;
    if count > 0 {
      CleanIsClear(task, env, lens, count - 1);
      assert Clear(task, Sum(lens, count - 1), Sum(lens, count));
    }
  }

  const MIN_BATCH := 0x1_0000
  const MAX_BATCH := 0x4000_0000

  /** What adjust_batch leaves: a multiple of the local size that the clamp bounds. */
  ghost predicate Tuned(batch: nat, localSize: nat)
    requires localSize > 0
  {
    && batch > 0 && batch % localSize == 0
    && (localSize <= 65_536 ==> 65_536 - localSize < batch <= 1_073_741_824)
  }

  lemma RoundDown(n: nat, ls: nat)
    requires ls > 0
    ensures n - ls < n / ls * ls <= n
  {
    assert n == n / ls * ls + n % ls;
  }

  function Clamp(n: int, lo: int, hi: int): int {
    if n < lo then lo else if n > hi then hi else n
  }

  function ClampRatio(ratio: real): real {
    if ratio < 0.5 then 0.5 else if ratio > 1.5 then 1.5 else ratio
  }

  /** The batch size scaled by the clamped ratio, before it is clamped and rounded itself. */
  function Scaled(batch: nat, ratio: real): int {
    (batch as real * ClampRatio(ratio)).Floor
  }

  /** The batch size after a dispatch whose time missed its target by the given ratio. */
  function NextBatch(batch: nat, ratio: real, localSize: nat): nat
    requires localSize > 0
  {
    var kept: nat := Clamp(Scaled(batch, ratio), MIN_BATCH, MAX_BATCH);
    (if kept / localSize < 1 then 1 else kept / localSize) * localSize
  }

  lemma RatioRange(ratio: real)
    ensures 0.5 <= ClampRatio(ratio) <= 1.5
  {
  }

  lemma FloorAtLeast(x: real, b: int)
    requires b as real <= 2.0 * x
    ensures b <= 2 * x.Floor + 1
  {
  }

  lemma FloorAtMost(x: real, b: int)
    requires 2.0 * x <= 3.0 * b as real
    ensures 2 * x.Floor <= 3 * b
  {
  }

  lemma ScaleReal(b: real, c: real, x: real)
    requires b >= 0.0 && 0.5 <= c <= 1.5 && x == b * c
    ensures b <= 2.0 * x && 2.0 * x <= 3.0 * b
  {
    assert b * (c - 0.5) >= 0.0;
    assert b * (1.5 - c) >= 0.0;
  }

  lemma ScaleBounds(batch: nat, ratio: real)
    ensures batch <= 2 * Scaled(batch, ratio) + 1
    ensures 2 * Scaled(batch, ratio) <= 3 * batch
  {
    hide ClampRatio;
    RatioRange(ratio);
    var b, c := batch as real, ClampRatio(ratio);
    var x := b * c;
    ScaleReal(b, c, x);
    FloorAtLeast(x, batch);
    FloorAtMost(x, batch);
  }

  lemma FloorUp(x: real, n: int)
    requires n as real <= x
    ensures n <= x.Floor
  {
  }

  lemma FloorDown(x: real, n: int)
    requires x <= n as real
    ensures x.Floor <= n
  {
  }

  lemma FloorHalves(n: int)
    ensures (0.5 * n as real).Floor == n / 2 && (1.5 * n as real).Floor == 3 * n / 2
  {
  }

  lemma Times(b: real, c: real, x: real)
    requires b >= 0.0 && x == b * c
    ensures c >= 1.0 ==> x >= b
    ensures c <= 1.0 ==> x <= b
  {
    assert b * (c - 1.0) == x - b;
    if c >= 1.0 {
      assert b * (c - 1.0) >= 0.0;
    } else {
      assert b * (1.0 - c) >= 0.0;
    }
  }

  lemma ClampedRatio(ratio: real)
    ensures ClampRatio(ratio) == if ratio <= 0.5 then 0.5 else if ratio >= 1.5 then 1.5 else ratio
  {
  }

  /**
   The ratio's direction: a dispatch that was faster than its target never shrinks the batch, a slower one never
   enlarges it; from half again on it is exactly one and a half times, down from a half exactly one half.
   */
  lemma ScaledFollows(batch: nat, ratio: real)
    ensures ratio >= 1.0 ==> Scaled(batch, ratio) >= batch
    ensures ratio <= 1.0 ==> Scaled(batch, ratio) <= batch
    ensures ratio >= 1.5 ==> Scaled(batch, ratio) == 3 * batch / 2
    ensures ratio <= 0.5 ==> Scaled(batch, ratio) == batch / 2
    ensures 0.5 <= ratio <= 1.5 ==> Scaled(batch, ratio) == (batch as real * ratio).Floor
  {
    ScaledDirection(batch, ratio);
    hide ClampRatio;
    ClampedRatio(ratio);
    if ratio >= 1.5 || ratio <= 0.5 {
      FloorHalves(batch);
      Commute(batch as real, ClampRatio(ratio));
    }
  }

  lemma Commute(b: real, c: real)
    ensures b * c == c * b
  {
  }

  lemma ScaledDirection(batch: nat, ratio: real)
    ensures ratio >= 1.0 ==> Scaled(batch, ratio) >= batch
    ensures ratio <= 1.0 ==> Scaled(batch, ratio) <= batch
  {
    hide ClampRatio;
    ClampedRatio(ratio);
    var b, c := batch as real, ClampRatio(ratio);
    var x := b * c;
    Times(b, c, x);
    if ratio >= 1.0 {
      FloorUp(x, batch);
    }
    if ratio <= 1.0 {
      FloorDown(x, batch);
    }
  }

  /**
   What the tuning does with it: the result is the largest multiple of the local size up to the scaled and
   clamped batch, or one local size if that is larger.
   */
  lemma NextBatchIs(batch: nat, ratio: real, localSize: nat)
    requires localSize > 0
    ensures var next, kept := NextBatch(batch, ratio, localSize), Clamp(Scaled(batch, ratio), 65_536, 1_073_741_824);
      next % localSize == 0 && (if kept < localSize then next == localSize else next <= kept < next + localSize)
  {
    hide Scaled;
    var kept: nat := Clamp(Scaled(batch, ratio), MIN_BATCH, MAX_BATCH);
    var units := if kept / localSize < 1 then 1 else kept / localSize;
    RoundDown(kept, localSize);
    DivModIs(units * localSize, localSize, units, 0);
    if kept >= localSize {
      SmallQuotient(kept, localSize);
    } else {
      DivModIs(kept, localSize, 0, kept);
    }
  }

  /** From a batch that the tuning left, a faster dispatch leads to no smaller one, a slower one to no larger one. */
  lemma NextBatchFollows(batch: nat, ratio: real, localSize: nat)
    requires 0 < localSize <= 65_536 && Tuned(batch, localSize)
    ensures ratio >= 1.0 ==> NextBatch(batch, ratio, localSize) >= batch
    ensures ratio <= 1.0 && 65_536 <= batch ==> NextBatch(batch, ratio, localSize) <= batch
  {
    hide Scaled, NextBatch;
    ScaledFollows(batch, ratio);
    NextBatchIs(batch, ratio, localSize);
    if ratio >= 1.0 {
      MultiplesApart(batch, NextBatch(batch, ratio, localSize), localSize);
    }
  }

  /** Between two multiples there is a whole one. */
  lemma MultiplesApart(m: nat, n: nat, ls: nat)
    requires ls > 0 && m % ls == 0 && n % ls == 0 && m < n + ls
    ensures m <= n
  {
    var q, k := m / ls, n / ls;
    assert m == q * ls && n == k * ls;
    ScaleUp(k - q, ls);
    assert (k - q) * ls == n - m;
  }

  /**
   Whatever the measured time, the new batch is a positive multiple of the local size; for local
   sizes up to 2^16 it stays above 2^16 less one local size and at most 2^30; and it is at most
   half again the old one, unless the lower clamp or the local size lifts it.
   */
  lemma NextBatchBounds(batch: nat, ratio: real, localSize: nat)
    requires localSize > 0
    ensures Tuned(NextBatch(batch, ratio, localSize), localSize)
    ensures var next := NextBatch(batch, ratio, localSize);
      next <= MIN_BATCH || next == localSize || 2 * next <= 3 * batch
  {
    hide Scaled;
    var kept: nat := Clamp(Scaled(batch, ratio), MIN_BATCH, MAX_BATCH);
    var units := if kept / localSize < 1 then 1 else kept / localSize;
    ScaleBounds(batch, ratio);
    RoundDown(kept, localSize);
    DivModIs(units * localSize, localSize, units, 0);
    ScaleUp(units, localSize);
    if kept >= localSize {
      SmallQuotient(kept, localSize);
    }
  }

  lemma SmallQuotient(n: nat, ls: nat)
    requires ls > 0 && n >= ls
    ensures n / ls >= 1
  {
    ScaleUp(1 - n / ls, ls);
    assert n == n / ls * ls + n % ls;
  }

  /** The batch size of the next dispatch. */
  function Tune(miner: Config, batch: nat, t: Turn): nat
    requires miner.localSize > 0
  {
    if miner.autoTune && t.ratio.Some? then NextBatch(batch, t.ratio.value, miner.localSize) else batch
  }

  lemma TuneIs(miner: Config, batch: nat, t: Turn)
    requires miner.localSize > 0
    ensures miner.autoTune && t.ratio.Some? ==>
              Tune(miner, batch, t) == NextBatch(batch, t.ratio.value, miner.localSize)
    ensures !(miner.autoTune && t.ratio.Some?) ==> Tune(miner, batch, t) == batch
  {
  }

  datatype Config = Config(autoTune: bool, localSize: nat)

  /** The dispatch lengths are the batch sizes, as tuned from one dispatch to the next. */
  ghost predicate TunedRun(miner: Config, first: nat, env: seq<Turn>, lens: seq<nat>)
    requires miner.localSize > 0 && |lens| <= |env|
  {
    && (|lens| > 0 ==> lens[0] == first)
    && forall m :: 0 < m < |lens| ==> lens[m] == Tune(miner, lens[m - 1], env[m - 1])
  }

  lemma TunedRunExtends(miner: Config, first: nat, env: seq<Turn>, lens: seq<nat>, n: nat)
    requires miner.localSize > 0 && |lens| < |env| && TunedRun(miner, first, env, lens)
    requires n == if |lens| == 0 then first else Tune(miner, lens[|lens| - 1], env[|lens| - 1])
    ensures TunedRun(miner, first, env, lens + [n])
  {
    hide Tune;
  }

  lemma EmptyRun(task: Task, miner: Config, first: nat, env: seq<Turn>)
    requires miner.localSize > 0
    ensures Total([]) == 0 && Checked(env, []) && Clean(task, env, [], 0) && TunedRun(miner, first, env, [])
  {
  }

  lemma TotalIs(lens: seq<nat>)
    ensures Total(lens) == Sum(lens, |lens|)
  {
  }

  /** What one more dispatch adds to the record of a search. */
  lemma TurnDone(task: Task, miner: Config, first: nat, env: seq<Turn>, done: seq<nat>, n: nat, result: Option<U256>)
    requires miner.localSize > 0 && |done| < |env| && n > 0
    requires Checked(env, done) && Clean(task, env, done, |done|) && TunedRun(miner, first, env, done)
    requires !env[|done|].stopBefore && !env[|done|].tokenMoved
    requires n == if |done| == 0 then first else Tune(miner, done[|done| - 1], env[|done| - 1])
    requires result == None && !env[|done|].stopAfter ==> Clear(From(task, Total(done)), 0, n)
    requires result.Some? ==> FoundIn(From(task, Total(done)), 0, n, result.value)
    ensures var all := done + [n];
      && Total(all) == Total(done) + n
      && Checked(env, all) && TunedRun(miner, first, env, all) && Clean(task, env, all, |done|)
      && (result == None ==> Clean(task, env, all, |all|))
      && (result.Some? ==> FoundIn(task, Sum(all, |done|), Total(all), result.value))
  {
    hide FoundIn, Clear, Clean, TunedRun, Checked, Total, Sum, Tune, From;
    TotalExtends(done, n);
    CheckedExtends(env, done, n);
    TunedRunExtends(miner, first, env, done, n);
    if result == None && !env[|done|].stopAfter {
      ShiftClear(task, Total(done), n);
    }
    CleanExtends(task, env, done, n);
    if result.Some? {
      ShiftFound(task, Total(done), n, result.value);
      SumExtends(done, n, |done|);
      TotalIs(done);
    }
  }

  function GlobalSize(dispatch: nat): nat {
    if dispatch < 1 then 1 else dispatch
  }

  class GpuMiner {
    var batchSize: nat
    const config: Config

    ghost predicate Valid()
      reads this
    {
      batchSize > 0 && config.localSize > 0
    }

    constructor (batch: nat, autoTune: bool, localSize: nat)
      ensures Valid() && batchSize == if batch < 65_536 then 65_536 else batch
      ensures config == Config(autoTune, if localSize < 1 then 1 else localSize)
    {
      this.batchSize := if batch < MIN_BATCH then MIN_BATCH else batch;
      this.config := Config(autoTune, if localSize < 1 then 1 else localSize);
    }

    /** The ratio of target time to elapsed time is any number; the method clamps it. */
    method AdjustBatch(ratio: real)
      requires Valid()
      modifies this`batchSize
      ensures Valid() && batchSize == NextBatch(old(batchSize), ratio, config.localSize)
    {
      hide ClampRatio;
      var ls := config.localSize;
      var next := (batchSize as real * ClampRatio(ratio)).Floor;
      batchSize := Clamp(next, MIN_BATCH, MAX_BATCH);
      // Keep a multiple of the local size.
      var units := if batchSize / ls < 1 then 1 else batchSize / ls;
      ScaleUp(units, ls);
      batchSize := units * ls;
    }

    /**
     One dispatch. With the stop flag unset it returns a nonce exactly when some counter of the
     dispatch is a proof: the CPU re-check never discards what the device reports.
     */
    method DispatchOnce(task: Task, dispatch: nat, schedule: seq<nat>, stop: bool, attempts: Counter)
      returns (r: Option<U256>)
      modifies attempts
      ensures attempts.n == WrappingAdd(old(attempts.n), dispatch)
      ensures r.Some? ==> !stop
      ensures r == None && !stop ==> Clear(task, 0, GlobalSize(dispatch))
      ensures r.Some? ==> FoundIn(task, 0, GlobalSize(dispatch), r.value)
    {
      hide ProofIsValid, PowNonce, Run;
      var job := Job(task.challenge, task.prefix, task.target, task.start, GlobalSize(dispatch));
      var dev := Run(job, schedule + Tail(job.size));
      TailFinishes(job, schedule, job.size);
      Outcome(job, schedule + Tail(job.size));
      assert forall i: nat :: i < job.size ==> Proves(job, i) == ProvesAt(task, i);
      attempts.FetchAdd(dispatch);
      if stop {
        return None;
      }
      if dev.flag != 0 {
        var nonce := PowNonce(task.prefix, dev.foundCounter);
        ghost var k :| 0 <= k < job.size && Proves(job, k) && dev.foundCounter == CounterOf(job, k);
        assert ProvesAt(task, k) && nonce == NonceAt(task, k);
        if ProofIsValid(task.challenge, nonce, task.target) {
          return Some(nonce);
        }
      }
      return None;
    }

    /**
     The search. The dispatches cover consecutive stretches of counters, without gap or overlap,
     whatever lengths the tuning gives them; each starts only after both checks passed.
     */
    method MineUntil(task: Task, attempts: Counter, env: seq<Turn>) returns (outcome: MineOutcome, lens: seq<nat>)
      requires Valid()
      modifies attempts, this`batchSize
      ensures Valid() && |lens| <= |env|
      ensures attempts.n == WrappingAdd(old(attempts.n), Total(lens))
      ensures Checked(env, lens) && TunedRun(config, old(batchSize), env, lens)
      ensures match outcome
        case Found(nonce, last) =>
          && |lens| > 0 && last == WrappingAdd(task.start, Total(lens))
          && !env[|lens| - 1].stopAfter
          && Clean(task, env, lens, |lens| - 1)
          && FoundIn(task, Sum(lens, |lens| - 1), Total(lens), nonce)
        case Aborted(last) =>
          && last == WrappingAdd(task.start, Total(lens))
          && |lens| < |env| && (env[|lens|].stopBefore || env[|lens|].tokenMoved)
          && Clean(task, env, lens, |lens|)
        case Running(next) =>
          next == WrappingAdd(task.start, Total(lens)) && |lens| == |env| && Clean(task, env, lens, |lens|)
    {
      hide FoundIn, NextBatch, Clear, Clean, TunedRun, Checked, Total, Sum, Tune, WrappingAdd;
      var counter := task.start;
      lens := [];
      EmptyRun(task, config, batchSize, env);
      AddTwice(task.start, 0, 0);
      AddTwice(attempts.n, 0, 0);
      for turn := 0 to |env|
        invariant Valid() && |lens| == turn
        invariant counter == WrappingAdd(task.start, Total(lens))
        invariant attempts.n == WrappingAdd(old(attempts.n), Total(lens))
        invariant Checked(env, lens) && Clean(task, env, lens, |lens|)
        invariant TunedRun(config, old(batchSize), env, lens)
        invariant batchSize == if turn == 0 then old(batchSize) else Tune(config, lens[turn - 1], env[turn - 1])
      {
        var t := env[turn];
        if t.stopBefore {
          return Aborted(counter), lens;
        }
        if t.tokenMoved {
          return Aborted(counter), lens;
        }
        var dispatch := batchSize;
        var result := DispatchOnce(task.(start := counter), dispatch, t.schedule, t.stopAfter, attempts);
        TurnDone(task, config, old(batchSize), env, lens, dispatch, result);
        AddTwice(task.start, Total(lens), dispatch);
        AddTwice(old(attempts.n), Total(lens), dispatch);
        lens := lens + [dispatch];
        counter := WrappingAdd(counter, dispatch);
        if result.Some? {
          return Found(result.value, counter), lens;
        }
        TuneIs(config, batchSize, t);
        if config.autoTune && t.ratio.Some? {
          AdjustBatch(t.ratio.value);
        }
      }
      outcome := Running(counter);
    }
  }
}
