/**
 What is broadcast under an account nonce: one call, always a valid proof, at fees that follow the replacement
 rule.
 */
module TxCalls {
  import opened Bits
  import opened Contract
  import opened Gas
  import opened Text
  import opened Db
  import opened TxNonceManager
  import opened TxMachine
  import TxSafety

  // ---------- What each piece of state must satisfy ----------

  ghost predicate Sound(cfg: Config, p: Proof) {
    && ValidateSolution(p.sol, p.state) == Accepted
    && p.state.effectiveTarget == EffectiveTarget(p.state.target, cfg.divisor)
  }

  /** The plan is that of some base fee and estimate, with the late bump where few blocks are left. */
  ghost predicate PlannedAt(cfg: Config, plan: GasPlan, blocksLeft: nat) {
    && (cfg.fees.gasLimitOverride == None ==> MIN_GAS_LIMIT <= cfg.fees.gasLimitCap)
    && exists baseFee, estimate :: plan == LateBump(cfg.fees, PlanGas(cfg.fees, baseFee, estimate), baseFee, blocksLeft)
  }

  ghost predicate Planned(cfg: Config, plan: GasPlan) {
    plan.maxFee >= cfg.fees.cap && (cfg.fees.priority <= cfg.fees.cap ==> Signable(plan))
  }

  ghost predicate CallOk(cfg: Config, c: Call) {
    Sound(cfg, c.proof) && PlannedAt(cfg, c.plan, c.proof.state.blocksLeft)
  }

  /** The plan is the first one after some number of replacements. */
  ghost predicate Follows(cfg: Config, first: GasPlan, plan: GasPlan) {
    exists k: nat :: plan == Bumped(first, cfg.fees.bumpPercent, cfg.fees.cap, k)
  }

  ghost predicate TxOk(cfg: Config, origin: map<nat, Call>, tx: Tx) {
    && tx.nonce in origin
    && tx.calldata == MineCalldata(origin[tx.nonce].proof.sol.nonce)
    && Follows(cfg, origin[tx.nonce].plan, tx.plan)
  }

  ghost predicate RecOk(cfg: Config, origin: map<nat, Call>, rec: TxRecord) {
    && rec.txNonce in origin
    && rec.calldata == Marked(MineCalldata(origin[rec.txNonce].proof.sol.nonce))
    && Follows(cfg, origin[rec.txNonce].plan, rec.plan)
  }

  ghost predicate TaskOk(cfg: Config, origin: map<nat, Call>, t: Task) {
    match t
    case Checked(p) => Sound(cfg, p)
    case Priced(p, plan) => CallOk(cfg, Call(p, plan))
    case Signed(tx) => TxOk(cfg, origin, tx)
    case Sending(tx) => TxOk(cfg, origin, tx)
  }

  /** The columns that are written once: the solution, and the block of the state it was validated against. */
  ghost predicate Records(p: Proof, row: Row) {
    && row.powNonce == ToDecimal(p.sol.nonce) && row.challenge == Marked(p.sol.challenge)
    && row.epoch == p.sol.epoch && row.createdAtBlock == p.state.blockNumber
  }

  ghost predicate RowOk(cfg: Config, origin: map<nat, Call>, n: nat, row: Row) {
    n in origin && RecOk(cfg, origin, ReadRow(n, row)) && Records(origin[n].proof, row)
  }

  ghost predicate RowsOk(cfg: Config, origin: map<nat, Call>, db: Tables) {
    forall n :: n in db.txs ==> RowOk(cfg, origin, n, db.txs[n])
  }

  ghost predicate QueueOk(cfg: Config, origin: map<nat, Call>, q: seq<TxRecord>) {
    forall i :: 0 <= i < |q| ==> RecOk(cfg, origin, q[i])
  }

  ghost predicate ReplacerOk(cfg: Config, origin: map<nat, Call>, r: Replacer) {
    match r
    case PIdle => true
    case PWorking(block, q) => QueueOk(cfg, origin, q)
    case PSending(block, n, plan, q) => QueueOk(cfg, origin, q) && n in origin && Follows(cfg, origin[n].plan, plan)
    case PFeeWritten(block, n, q) => QueueOk(cfg, origin, q)
  }

  ghost predicate TasksOk(cfg: Config, origin: map<nat, Call>, tasks: map<nat, Task>) {
    forall t :: t in tasks ==> TaskOk(cfg, origin, tasks[t])
  }

  ghost predicate BroadcastsOk(cfg: Config, origin: map<nat, Call>, txs: seq<Tx>) {
    forall i :: 0 <= i < |txs| ==> TxOk(cfg, origin, txs[i])
  }

  ghost predicate OriginOk(cfg: Config, origin: map<nat, Call>) {
    forall n :: n in origin ==> CallOk(cfg, origin[n])
  }

  ghost predicate CallInv(cfg: Config, s: State) {
    && OriginOk(cfg, s.hist.origin)
    && RowsOk(cfg, s.hist.origin, s.db)
    && BroadcastsOk(cfg, s.hist.origin, s.hist.broadcasts)
    && (s.mem.Some? ==>
          TasksOk(cfg, s.hist.origin, s.mem.value.tasks) && ReplacerOk(cfg, s.hist.origin, s.mem.value.replacer))
  }

  // ---------- How updates keep it ----------

  lemma FollowsBump(cfg: Config, first: GasPlan, plan: GasPlan)
    requires Follows(cfg, first, plan)
    ensures Follows(cfg, first, Bump(plan, cfg.fees.bumpPercent, cfg.fees.cap))
  {
    var k: nat :| plan == Bumped(first, cfg.fees.bumpPercent, cfg.fees.cap, k);
    assert Bump(plan, cfg.fees.bumpPercent, cfg.fees.cap) == Bumped(first, cfg.fees.bumpPercent, cfg.fees.cap, k + 1);
  }

  lemma FollowsItself(cfg: Config, plan: GasPlan)
    ensures Follows(cfg, plan, plan)
  {
    assert plan == Bumped(plan, cfg.fees.bumpPercent, cfg.fees.cap, 0);
  }

  lemma PlannedOk(cfg: Config, baseFee: Option<U128>, scaledEstimate: nat, blocksLeft: nat)
    requires cfg.fees.gasLimitOverride == None ==> MIN_GAS_LIMIT <= cfg.fees.gasLimitCap
    ensures var plan := LateBump(cfg.fees, PlanGas(cfg.fees, baseFee, scaledEstimate), baseFee, blocksLeft);
      Planned(cfg, plan) && PlannedAt(cfg, plan, blocksLeft)
  {
    PlannedMaxFee(cfg.fees, baseFee, scaledEstimate, blocksLeft);
    FirstPlanSignable(cfg.fees, baseFee, scaledEstimate, blocksLeft);
  }

  lemma PlannedAtIsPlanned(cfg: Config, plan: GasPlan, blocksLeft: nat)
    requires PlannedAt(cfg, plan, blocksLeft)
    ensures Planned(cfg, plan)
  {
    hide LateBump, PlanGas, Planned;
    var baseFee, estimate :|
      plan == LateBump(cfg.fees, PlanGas(cfg.fees, baseFee, estimate), baseFee, blocksLeft);
    PlannedOk(cfg, baseFee, estimate, blocksLeft);
  }

  /** The rows after any update: neither hash nor status matters, and a fee must follow the rule. */
  lemma UpdatesKeepRows(cfg: Config, origin: map<nat, Call>, db: Tables, n: nat, hash: string, status: Status)
    requires RowsOk(cfg, origin, db)
    ensures RowsOk(cfg, origin, UpdateTxHash(db, n, hash))
    ensures RowsOk(cfg, origin, UpdateStatus(db, n, status))
  {
    hide Follows, MineCalldata, Marked, ReadFee;
  }

  lemma FeeKeepsRows(cfg: Config, origin: map<nat, Call>, db: Tables, n: nat, plan: GasPlan)
    requires RowsOk(cfg, origin, db) && n in origin && Follows(cfg, origin[n].plan, plan)
    ensures RowsOk(cfg, origin, UpdateFee(db, n, plan))
  {
    hide Follows, MineCalldata, Marked, ReadFee;
    if n in db.txs {
      FeeReadsBack(db, n, plan);
      assert RecOk(cfg, origin, ReadRow(n, db.txs[n]));
    }
  }

  /** Spending a new nonce leaves what holds for the others. */
  lemma OriginGrows(cfg: Config, origin: map<nat, Call>, n: nat, c: Call, s: State, m: Memory)
    requires n !in origin
    requires RowsOk(cfg, origin, s.db) && BroadcastsOk(cfg, origin, s.hist.broadcasts)
    requires TasksOk(cfg, origin, m.tasks) && ReplacerOk(cfg, origin, m.replacer)
    ensures RowsOk(cfg, origin[n := c], s.db) && BroadcastsOk(cfg, origin[n := c], s.hist.broadcasts)
    ensures TasksOk(cfg, origin[n := c], m.tasks) && ReplacerOk(cfg, origin[n := c], m.replacer)
  {
    hide Follows, MineCalldata, Marked, ReadRow, Sound, Planned;
  }

  // ---------- The steps ----------

  lemma TaskCalls(cfg: Config, s: State, e: Event)
    requires CallInv(cfg, s) && s.mem.Some?
    ensures CallInv(cfg, NextTask(cfg, s, s.mem.value, e))
  {
    hide TxOk, OriginOk, RowsOk, ReplacerOk, UpdateTxHash, UpdateStatus, ValidateSolution, EffectiveTarget, PlanGas,
        LateBump;
    var m := s.mem.value;
    match e
    case Price(t, baseFee, scaledEstimate) =>
      if t in m.tasks && m.tasks[t].Checked?
          && (cfg.fees.gasLimitOverride == None ==> MIN_GAS_LIMIT <= cfg.fees.gasLimitCap) {
        PlannedOk(cfg, baseFee, scaledEstimate, m.tasks[t].proof.state.blocksLeft);
      }
    case SendOk(t, hash, io) =>
      if t in m.tasks && m.tasks[t].Sending? {
        UpdatesKeepRows(cfg, s.hist.origin, s.db, m.tasks[t].tx.nonce, hash, Failed);
      }
    case SendErr(t, io) =>
      if t in m.tasks && m.tasks[t].Sending? {
        UpdatesKeepRows(cfg, s.hist.origin, s.db, m.tasks[t].tx.nonce, "", Failed);
      }
    case _ =>
  }

  lemma LockCalls(cfg: Config, s: State, e: Event)
    requires CallInv(cfg, s) && TxSafety.NonceInv(s) && s.mem.Some?
    ensures CallInv(cfg, NextLock(s, s.mem.value, e))
  {
    hide TxOk, OriginOk, ReplacerOk, RecOk, TaskOk, BroadcastsOk, StoreNextNonce, InsertTx, RowFor, MineCalldata;
    var m := s.mem.value;
    match e
    case Insert(io) =>
      if m.lock.Stored? && io {
        InsertCalls(cfg, s);
      }
    case StoreNext(io) => StoreKeepsRows(s.db, m.next);
    case _ =>
  }

  lemma StoreKeepsRows(db: Tables, n: nat)
    ensures StoreNextNonce(db, n).txs == db.txs
  {
  }

  /** The row and the transaction of a call just recorded. */
  lemma NewCallOk(cfg: Config, origin: map<nat, Call>, n: nat, c: Call)
    requires n in origin && origin[n] == c
    ensures RowOk(cfg, origin, n, RowFor(c.proof, c.plan))
    ensures TxOk(cfg, origin, Tx(n, c.plan, MineCalldata(c.proof.sol.nonce)))
  {
    hide Marked, MineCalldata, Follows, ReadFee, ToDecimal;
    FollowsItself(cfg, c.plan);
    var sol := c.proof.sol;
    RowReadsBack(n, MineCalldata(sol.nonce), sol.nonce, Marked(sol.challenge), sol.epoch, c.plan,
        c.proof.state.blockNumber);
  }

  lemma InsertCalls(cfg: Config, s: State)
    requires CallInv(cfg, s) && TxSafety.NonceInv(s) && s.mem.Some? && s.mem.value.lock.Stored?
    ensures CallInv(cfg, NextLock(s, s.mem.value, Insert(true)))
  {
    hide ReplacerOk, BroadcastsOk, RowOk, TxOk, MineCalldata, Follows, Sound, PlannedAt, RowFor, StoreNextNonce;
    var m := s.mem.value;
    var t, n := m.lock.task, m.lock.n;
    var c := Call(m.tasks[t].proof, m.tasks[t].plan);
    assert n !in s.hist.origin;
    assert TaskOk(cfg, s.hist.origin, m.tasks[t]);
    OriginGrows(cfg, s.hist.origin, n, c, s, m);
    NewCallOk(cfg, s.hist.origin[n := c], n, c);
  }

  lemma ReceiptCalls(cfg: Config, s: State, e: Event)
    requires CallInv(cfg, s) && s.mem.Some?
    ensures CallInv(cfg, NextReceipt(s, s.mem.value, e))
  {
    hide TasksOk, OriginOk, RowsOk, ReplacerOk, BroadcastsOk, UpdateStatus, IsPendingList;
    match e
    case ReceiptFound(success, io) =>
      var m := s.mem.value;
      if m.receipts.RWorking? && m.receipts.queue != [] {
        UpdatesKeepRows(cfg, s.hist.origin, s.db, m.receipts.queue[0].txNonce, "", if success then Success else Failed);
      }
    case _ =>
  }

  /** The list of pending rows is as good as the rows. */
  lemma ListOk(cfg: Config, origin: map<nat, Call>, db: Tables, l: seq<TxRecord>)
    requires RowsOk(cfg, origin, db) && IsPendingList(db, l)
    ensures QueueOk(cfg, origin, l)
  {
    hide RecOk, ReadRow;
  }

  /** What a replacement signs is the row's call at the next plan. */
  lemma ReplacementOk(cfg: Config, origin: map<nat, Call>, rec: TxRecord)
    requires RecOk(cfg, origin, rec)
    ensures ReadMarked(rec.calldata).Some?
    ensures TxOk(cfg, origin,
        Tx(rec.txNonce, Bump(rec.plan, cfg.fees.bumpPercent, cfg.fees.cap), ReadMarked(rec.calldata).value))
  {
    FollowsBump(cfg, origin[rec.txNonce].plan, rec.plan);
    MarkedRoundTrip(MineCalldata(origin[rec.txNonce].proof.sol.nonce));
  }

  lemma ReplaceCalls(cfg: Config, s: State, e: Event)
    requires CallInv(cfg, s) && s.mem.Some?
    ensures CallInv(cfg, NextReplace(cfg, s, s.mem.value, e))
  {
    hide TasksOk, OriginOk, RowsOk, RecOk, Follows, UpdateStatus, UpdateFee, UpdateTxHash, IsPendingList, Bump,
        ReadMarked, MineCalldata;
    var m := s.mem.value;
    var r := m.replacer;
    match e
    case ReplaceList(block, l) =>
      if IsPendingList(s.db, l) {
        ListOk(cfg, s.hist.origin, s.db, l);
      }
    case ReplaceNext =>
      if r.PWorking? && r.queue != [] {
        ReplacementOk(cfg, s.hist.origin, r.queue[0]);
      }
    case ReplaceFee(io) =>
      if r.PSending? {
        FeeKeepsRows(cfg, s.hist.origin, s.db, r.n, r.plan);
      }
    case ReplaceHash(hash, io) =>
      if r.PFeeWritten? {
        UpdatesKeepRows(cfg, s.hist.origin, s.db, r.n, hash, Failed);
      }
    case ReplaceErr(tooLow, io) =>
      if r.PSending? {
        UpdatesKeepRows(cfg, s.hist.origin, s.db, r.n, "", Replaced);
      }
    case _ =>
  }

  lemma ProcessCalls(cfg: Config, s: State, e: Event)
    requires CallInv(cfg, s)
    ensures CallInv(cfg, NextProcess(s, e))
  {
    hide RecOk, OriginOk, BroadcastsOk, FirstNonce;
  }

  lemma NextCalls(cfg: Config, s: State, e: Event)
    requires CallInv(cfg, s) && TxSafety.NonceInv(s)
    ensures CallInv(cfg, Next(cfg, s, e))
  {
    hide CallInv, NextTask, NextLock, NextReceipt, NextReplace, NextProcess;
    ProcessCalls(cfg, s, e);
    if s.mem.Some? {
      TaskCalls(cfg, s, e);
      LockCalls(cfg, s, e);
      ReceiptCalls(cfg, s, e);
      ReplaceCalls(cfg, s, e);
    }
  }

  lemma {:induction false} RunCalls(cfg: Config, events: seq<Event>)
    ensures CallInv(cfg, Run(cfg, events))
  {
    hide Next;
    if |events| > 0 {
      RunCalls(cfg, events[..|events| - 1]);
      TxSafety.RunNonces(cfg, events[..|events| - 1]);
      NextCalls(cfg, Run(cfg, events[..|events| - 1]), events[|events| - 1]);
    }
  }

  // ---------- The main results ----------

  /**
   Every transaction ever broadcast, first send or replacement, before or after any restart, carries
   mine(p) for the solution p its account nonce was spent on; p is a proof for the effective target,
   hence for the contract's own.
   */
  lemma EveryBroadcastIsAProof(cfg: Config, events: seq<Event>, i: nat)
    requires i < |Run(cfg, events).hist.broadcasts|
    ensures var s := Run(cfg, events); var tx := s.hist.broadcasts[i];
      && tx.nonce in s.hist.origin
      && var p := s.hist.origin[tx.nonce].proof;
      && tx.calldata == MineCalldata(p.sol.nonce) && CallsMine(tx.calldata, p.sol.nonce)
      && p.state.effectiveTarget == p.state.target / (if cfg.divisor < 1 then 1 else cfg.divisor)
      && p.sol.challenge == p.state.challenge && p.sol.epoch == p.state.epoch
      && ProofIsValid(p.state.challenge, p.sol.nonce, p.state.effectiveTarget)
      && ProofIsValid(p.state.challenge, p.sol.nonce, p.state.target)
  {
    hide Run, Follows, RowsOk, TasksOk, ReplacerOk, MineCalldata, HashNonce, PlannedAt, CallsMine;
    RunCalls(cfg, events);
    var s := Run(cfg, events);
    assert TxOk(cfg, s.hist.origin, s.hist.broadcasts[i]);
    var p := s.hist.origin[s.hist.broadcasts[i].nonce].proof;
    AcceptedExactly(p.sol, p.state, cfg.divisor);
    MineCalldataIs(p.sol.nonce);
  }

  /**
   Every row, however often it was updated, records the solution its nonce was spent on and the block, epoch and
   challenge of the state that this was validated against; its calldata calls mine with that solution.
   */
  lemma EveryRowRecords(cfg: Config, events: seq<Event>, n: nat)
    requires n in Run(cfg, events).db.txs
    ensures var s := Run(cfg, events);
      && n in s.hist.origin
      && var p, row := s.hist.origin[n].proof, s.db.txs[n];
      && Records(p, row) && ParseUint(row.powNonce, TWO256 - 1) == Some(p.sol.nonce)
      && p.sol.challenge == p.state.challenge && p.sol.epoch == p.state.epoch
      && ReadMarked(row.calldata).Some? && CallsMine(ReadMarked(row.calldata).value, p.sol.nonce)
  {
    hide Run, Follows, TasksOk, ReplacerOk, MineCalldata, HashNonce, PlannedAt, CallsMine, Marked, ToDecimal, ParseUint;
    RunCalls(cfg, events);
    var s := Run(cfg, events);
    assert RecOk(cfg, s.hist.origin, ReadRow(n, s.db.txs[n]));
    var p := s.hist.origin[n].proof;
    AcceptedExactly(p.sol, p.state, cfg.divisor);
    MineCalldataIs(p.sol.nonce);
    MarkedRoundTrip(MineCalldata(p.sol.nonce));
    DecimalRoundTrip(p.sol.nonce, TWO256 - 1);
  }

  /** Nothing is broadcast that is not written ahead: its row is there, and it still holds the call. */
  lemma WrittenAhead(cfg: Config, events: seq<Event>, i: nat)
    requires i < |Run(cfg, events).hist.broadcasts|
    ensures var s := Run(cfg, events); var tx := s.hist.broadcasts[i];
      && tx.nonce in s.db.txs && tx.nonce < TxSafety.Persisted(s.db)
      && ReadMarked(s.db.txs[tx.nonce].calldata) == Some(tx.calldata)
  {
    hide Run, Follows, TasksOk, ReplacerOk, MineCalldata, Sound, Planned;
    RunCalls(cfg, events);
    TxSafety.RunNonces(cfg, events);
    var s := Run(cfg, events);
    var tx := s.hist.broadcasts[i];
    assert TxOk(cfg, s.hist.origin, tx);
    assert RecOk(cfg, s.hist.origin, ReadRow(tx.nonce, s.db.txs[tx.nonce]));
    MarkedRoundTrip(tx.calldata);
  }

  /** Two broadcasts under one account nonce are the same call. */
  lemma OneCallPerNonce(cfg: Config, events: seq<Event>, i: nat, j: nat)
    requires var b := Run(cfg, events).hist.broadcasts; i < |b| && j < |b| && b[i].nonce == b[j].nonce
    ensures var b := Run(cfg, events).hist.broadcasts; b[i].calldata == b[j].calldata
  {
    hide Run, Follows, RowsOk, TasksOk, ReplacerOk, MineCalldata, Sound, Planned;
    RunCalls(cfg, events);
    var s := Run(cfg, events);
    assert TxOk(cfg, s.hist.origin, s.hist.broadcasts[i]);
    assert TxOk(cfg, s.hist.origin, s.hist.broadcasts[j]);
  }

  /**
   Every broadcast pays the first plan after some number k of replacements, whatever went through the
   database between them. It is signable when the configured priority is within the cap. For k >= 1
   below the top of u128 its fee limit is the cap, or the priority where that is larger.
   */
  lemma EveryBroadcastFee(cfg: Config, events: seq<Event>, i: nat) returns (k: nat)
    requires i < |Run(cfg, events).hist.broadcasts|
    ensures var s := Run(cfg, events); var tx := s.hist.broadcasts[i];
      && tx.nonce in s.hist.origin
      && var first := s.hist.origin[tx.nonce].plan;
      && PlannedAt(cfg, first, s.hist.origin[tx.nonce].proof.state.blocksLeft)
      && tx.plan == Bumped(first, cfg.fees.bumpPercent, cfg.fees.cap, k)
      && (cfg.fees.priority <= cfg.fees.cap ==> Signable(tx.plan))
      && (k >= 1 ==> Signable(tx.plan))
      && (k >= 1 && Unsaturated(first, cfg.fees.bumpPercent, cfg.fees.cap, k) ==>
            tx.plan.maxFee == Max(cfg.fees.cap, tx.plan.priority))
  {
    hide Run, RowsOk, TasksOk, ReplacerOk, MineCalldata, Sound, Unsaturated, Bump;
    RunCalls(cfg, events);
    var s := Run(cfg, events);
    var tx := s.hist.broadcasts[i];
    assert TxOk(cfg, s.hist.origin, tx);
    var first := s.hist.origin[tx.nonce].plan;
    PlannedAtIsPlanned(cfg, first, s.hist.origin[tx.nonce].proof.state.blocksLeft);
    hide PlannedAt;
    k :| tx.plan == Bumped(first, cfg.fees.bumpPercent, cfg.fees.cap, k);
    if k >= 1 {
      ReplacementSignable(Bumped(first, cfg.fees.bumpPercent, cfg.fees.cap, k - 1), cfg.fees.bumpPercent, cfg.fees.cap);
      if Unsaturated(first, cfg.fees.bumpPercent, cfg.fees.cap, k) {
        ReplacedMaxFee(first, cfg.fees.bumpPercent, cfg.fees.cap, k);
      }
    }
  }
}
