/**
 The submitter's own code (submitter.rs), uninterrupted: do_submit and one pass of each loop, with
 what the chain answers as parameters; and that each is a run of the transaction machine.
 */
module Submitter {
  import opened Bits
  import opened Contract
  import opened Gas
  import opened Text
  import opened Db
  import opened TxNonceManager
  import opened TxMachine
  import TxSafety
  import TxCalls
  import TxFinality

  ghost function RunFrom(cfg: Config, s: State, events: seq<Event>): State
    decreases |events|
  {
    if |events| == 0 then s else RunFrom(cfg, Next(cfg, s, events[0]), events[1..])
  }

  lemma {:induction false} RunContinues(cfg: Config, before: seq<Event>, events: seq<Event>)
    ensures Run(cfg, before + events) == RunFrom(cfg, Run(cfg, before), events)
    decreases |events|
  {
    hide Next;
    if |events| == 0 {
      assert before + events == before;
    } else {
      var one := before + [events[0]];
      assert one[..|one| - 1] == before;
      RunContinues(cfg, one, events[1..]);
      assert one + events[1..] == before + events;
    }
  }

  // ---------- The receipt pass ----------

  /** The answer for one transaction: no receipt or an error, or a receipt; and whether its status write works. */
  datatype Receipt = Missing | Found(success: bool, io: bool)

  predicate Counts(tx: TxRecord, a: Receipt) {
    tx.rawTxHash != "" && a.Found?
  }

  function Outcome(success: bool): Status {
    if success then Success else Failed
  }

  function AfterReceipt(db: Tables, tx: TxRecord, a: Receipt): Tables {
    if Counts(tx, a) && a.io then UpdateStatus(db, tx.txNonce, Outcome(a.success)) else db
  }

  function AfterReceipts(db: Tables, txs: seq<TxRecord>, answers: seq<Receipt>): Tables
    requires |txs| == |answers|
    decreases |txs|
  {
    if |txs| == 0 then db else AfterReceipts(AfterReceipt(db, txs[0], answers[0]), txs[1..], answers[1..])
  }

  /** The nonces counted with the given outcome, in order. */
  function CountedAs(txs: seq<TxRecord>, answers: seq<Receipt>, success: bool): (ns: seq<nat>)
    requires |txs| == |answers|
  {
    if |txs| == 0 then []
    else
      (if Counts(txs[0], answers[0]) && answers[0].success == success then [txs[0].txNonce] else [])
      + CountedAs(txs[1..], answers[1..], success)
  }

  function ReceiptEvents(txs: seq<TxRecord>, answers: seq<Receipt>): seq<Event>
    requires |txs| == |answers|
  {
    if |txs| == 0 then []
    else
      (if Counts(txs[0], answers[0]) then [ReceiptFound(answers[0].success, answers[0].io), ReceiptCount]
          else [ReceiptSkip])
      + ReceiptEvents(txs[1..], answers[1..])
  }

  lemma FoundThenCount(cfg: Config, s: State, success: bool, io: bool)
    requires s.mem.Some? && s.mem.value.receipts.RWorking? && s.mem.value.receipts.queue != []
    requires s.mem.value.receipts.queue[0].rawTxHash != ""
    ensures var m := s.mem.value; var n := m.receipts.queue[0].txNonce;
      var s' := Next(cfg, Next(cfg, s, ReceiptFound(success, io)), ReceiptCount);
      && s'.db == (if io then UpdateStatus(s.db, n, Outcome(success)) else s.db)
      && s'.mem == Some(m.(receipts := RWorking(m.receipts.queue[1..])))
      && s'.hist.counted == s.hist.counted + [n] && s'.hist.broadcasts == s.hist.broadcasts
  {
    hide NextTask, NextLock, NextReplace, UpdateStatus;
  }

  lemma Skip(cfg: Config, s: State)
    requires s.mem.Some? && s.mem.value.receipts.RWorking? && s.mem.value.receipts.queue != []
    ensures var m := s.mem.value;
      Next(cfg, s, ReceiptSkip) == s.(mem := Some(m.(receipts := RWorking(m.receipts.queue[1..]))))
  {
    hide NextTask, NextLock, NextReplace;
  }

  /** The pass over a snapshot is a run of the machine: the same tables, the same nonces counted. */
  lemma {:induction false} ReceiptPassRuns(cfg: Config, s: State, txs: seq<TxRecord>, answers: seq<Receipt>)
    requires |txs| == |answers| && s.mem.Some? && s.mem.value.receipts == RWorking(txs)
    ensures var s' := RunFrom(cfg, s, ReceiptEvents(txs, answers));
      && s'.db == AfterReceipts(s.db, txs, answers)
      && s'.mem == Some(s.mem.value.(receipts := RWorking([])))
      && |s'.hist.counted| == |s.hist.counted| + |CountedAs(txs, answers, true)| + |CountedAs(txs, answers, false)|
      && s'.hist.broadcasts == s.hist.broadcasts
    decreases |txs|
  {
    hide Next, UpdateStatus;
    if |txs| > 0 {
      var rest := ReceiptEvents(txs[1..], answers[1..]);
      if Counts(txs[0], answers[0]) {
        var e := ReceiptFound(answers[0].success, answers[0].io);
        FoundThenCount(cfg, s, answers[0].success, answers[0].io);
        var s' := Next(cfg, Next(cfg, s, e), ReceiptCount);
        assert ([e, ReceiptCount] + rest)[1..] == [ReceiptCount] + rest;
        assert ([ReceiptCount] + rest)[1..] == rest;
        ReceiptPassRuns(cfg, s', txs[1..], answers[1..]);
      } else {
        Skip(cfg, s);
        assert ([ReceiptSkip] + rest)[1..] == rest;
        ReceiptPassRuns(cfg, Next(cfg, s, ReceiptSkip), txs[1..], answers[1..]);
      }
    }
  }

  // ---------- The replacement pass ----------

  /** What happens to a replacement: it cannot be signed, or is sent and taken, or refused. */
  datatype Sent = Unsigned | Taken(hash: string, ioFee: bool, ioHash: bool) | Refused(tooLow: bool, io: bool)

  function NewPlan(cfg: Config, tx: TxRecord): GasPlan {
    Bump(tx.plan, cfg.fees.bumpPercent, cfg.fees.cap)
  }

  /** The transaction is old enough, its fee moves, and its calldata can be read. */
  predicate Due(cfg: Config, block: nat, tx: TxRecord) {
    && (if block < tx.createdAtBlock then 0 else block - tx.createdAtBlock) >= cfg.replaceAfterBlocks
    && !(NewPlan(cfg, tx).maxFee == tx.plan.maxFee && NewPlan(cfg, tx).priority == tx.plan.priority)
    && ReadMarked(tx.calldata).Some?
  }

  /**
   Which rows are sent again: those whose fee moves, whose calldata can be read, and which are at least
   replaceAfterBlocks old; a block number behind the row's counts as age zero.
   */
  lemma DueExactly(cfg: Config, block: nat, tx: TxRecord)
    ensures Due(cfg, block, tx) <==>
              && (cfg.replaceAfterBlocks == 0 || tx.createdAtBlock + cfg.replaceAfterBlocks <= block)
              && Bump(tx.plan, cfg.fees.bumpPercent, cfg.fees.cap) != tx.plan
              && ReadMarked(tx.calldata).Some?
  {
    hide ReadMarked;
  }

  function AfterSend(cfg: Config, db: Tables, tx: TxRecord, a: Sent): Tables {
    match a
    case Unsigned => db
    case Taken(hash, ioFee, ioHash) =>
      var fee := if ioFee then UpdateFee(db, tx.txNonce, NewPlan(cfg, tx)) else db;
      if ioHash then UpdateTxHash(fee, tx.txNonce, hash) else fee
    case Refused(tooLow, io) => if tooLow && io then UpdateStatus(db, tx.txNonce, Replaced) else db
  }

  function AfterItem(cfg: Config, db: Tables, block: nat, tx: TxRecord, a: Sent): Tables {
    if Due(cfg, block, tx) then AfterSend(cfg, db, tx, a) else db
  }

  function AfterReplacements(cfg: Config, db: Tables, block: nat, txs: seq<TxRecord>, answers: seq<Sent>): Tables
    requires |txs| == |answers|
    decreases |txs|
  {
    if |txs| == 0 then db
    else AfterReplacements(cfg, AfterItem(cfg, db, block, txs[0], answers[0]), block, txs[1..], answers[1..])
  }

  /** The replacements broadcast, in order. */
  function Replacements(cfg: Config, block: nat, txs: seq<TxRecord>, answers: seq<Sent>): seq<Tx>
    requires |txs| == |answers|
  {
    if |txs| == 0 then []
    else
      (if Due(cfg, block, txs[0]) && !answers[0].Unsigned?
       then [Tx(txs[0].txNonce, NewPlan(cfg, txs[0]), ReadMarked(txs[0].calldata).value)] else [])
      + Replacements(cfg, block, txs[1..], answers[1..])
  }

  /** Whatever a pass sends is a due row of its list, at the bumped plan; so nothing too young is sent again. */
  lemma {:induction false} SentAreDue(cfg: Config, block: nat, txs: seq<TxRecord>, answers: seq<Sent>, sent: Tx)
    requires |txs| == |answers| && sent in Replacements(cfg, block, txs, answers)
    ensures exists i :: 0 <= i < |txs| && sent.nonce == txs[i].txNonce && Due(cfg, block, txs[i])
                        && sent.plan == Bump(txs[i].plan, cfg.fees.bumpPercent, cfg.fees.cap)
                        && Some(sent.calldata) == ReadMarked(txs[i].calldata)
    decreases |txs|
  {
    hide ReadMarked, Bump;
    if |txs| > 0 && sent !in Replacements(cfg, block, txs[1..], answers[1..]) {
      assert Due(cfg, block, txs[0]) && sent.nonce == txs[0].txNonce;
    } else if |txs| > 0 {
      hide Due;
      SentAreDue(cfg, block, txs[1..], answers[1..], sent);
      var i :| 0 <= i < |txs[1..]| && sent.nonce == txs[1..][i].txNonce && Due(cfg, block, txs[1..][i])
               && sent.plan == Bump(txs[1..][i].plan, cfg.fees.bumpPercent, cfg.fees.cap)
               && Some(sent.calldata) == ReadMarked(txs[1..][i].calldata);
      assert txs[i + 1] == txs[1..][i];
    }
  }

  /** The nonces whose replacements the nodes took, in order. */
  function TakenNonces(cfg: Config, block: nat, txs: seq<TxRecord>, answers: seq<Sent>): seq<nat>
    requires |txs| == |answers|
    decreases |txs|
  {
    if |txs| == 0 then []
    else
      (if Due(cfg, block, txs[0]) && answers[0].Taken? then [txs[0].txNonce] else [])
      + TakenNonces(cfg, block, txs[1..], answers[1..])
  }

  lemma {:induction false} NoneTaken(cfg: Config, block: nat, txs: seq<TxRecord>, answers: seq<Sent>, n: nat)
    requires |txs| == |answers| && !TxFinality.Has(txs, n)
    ensures n !in TakenNonces(cfg, block, txs, answers)
    decreases |txs|
  {
    hide Due;
    if |txs| > 0 {
      assert forall i :: 0 <= i < |txs[1..]| ==> txs[1..][i] == txs[i + 1];
      NoneTaken(cfg, block, txs[1..], answers[1..], n);
    }
  }

  /** Some row listed for n is due, and the nodes took its replacement. */
  ghost predicate TakenFor(cfg: Config, block: nat, txs: seq<TxRecord>, answers: seq<Sent>, n: nat)
    requires |txs| == |answers|
  {
    exists i :: 0 <= i < |txs| && txs[i].txNonce == n && Due(cfg, block, txs[i]) && answers[i].Taken?
  }

  lemma TakenForCons(cfg: Config, block: nat, txs: seq<TxRecord>, answers: seq<Sent>, n: nat)
    requires |txs| == |answers| && |txs| > 0
    ensures TakenFor(cfg, block, txs, answers, n)
       <==> (txs[0].txNonce == n && Due(cfg, block, txs[0]) && answers[0].Taken?)
            || TakenFor(cfg, block, txs[1..], answers[1..], n)
  {
    hide Due;
    if TakenFor(cfg, block, txs[1..], answers[1..], n) {
      var i :| 0 <= i < |txs[1..]| && txs[1..][i].txNonce == n && Due(cfg, block, txs[1..][i])
               && answers[1..][i].Taken?;
      assert txs[i + 1] == txs[1..][i] && answers[i + 1] == answers[1..][i];
    }
    if i :| 1 <= i < |txs| && txs[i].txNonce == n && Due(cfg, block, txs[i]) && answers[i].Taken? {
      assert txs[1..][i - 1] == txs[i] && answers[1..][i - 1] == answers[i];
    }
  }

  /** What is counted as a replacement: once for each due transaction that the nodes took. */
  lemma {:induction false} TakenExactly(cfg: Config, block: nat, txs: seq<TxRecord>, answers: seq<Sent>, n: nat)
    requires |txs| == |answers| && TxFinality.Distinct(txs)
    ensures multiset(TakenNonces(cfg, block, txs, answers))[n] == if TakenFor(cfg, block, txs, answers, n) then 1 else 0
    decreases |txs|
  {
    if |txs| > 0 {
      hide Due, TakenFor, TxFinality.Distinct, TxFinality.Has;
      TxFinality.TailHas(txs);
      TakenForCons(cfg, block, txs, answers, n);
      TakenExactly(cfg, block, txs[1..], answers[1..], n);
      NoneTaken(cfg, block, txs[1..], answers[1..], txs[0].txNonce);
    }
  }

  function ItemEvents(cfg: Config, block: nat, tx: TxRecord, a: Sent): seq<Event> {
    if !Due(cfg, block, tx) then [ReplaceNext]
    else
      match a
      case Unsigned => [ReplaceSkip]
      case Taken(hash, ioFee, ioHash) => [ReplaceNext, ReplaceFee(ioFee), ReplaceHash(hash, ioHash)]
      case Refused(tooLow, io) => [ReplaceNext, ReplaceErr(tooLow, io)]
  }

  function ReplaceEvents(cfg: Config, block: nat, txs: seq<TxRecord>, answers: seq<Sent>): seq<Event>
    requires |txs| == |answers|
  {
    if |txs| == 0 then []
    else ItemEvents(cfg, block, txs[0], answers[0]) + ReplaceEvents(cfg, block, txs[1..], answers[1..])
  }

  lemma {:induction false} RunFromAppend(cfg: Config, s: State, a: seq<Event>, b: seq<Event>)
    ensures RunFrom(cfg, s, a + b) == RunFrom(cfg, RunFrom(cfg, s, a), b)
    decreases |a|
  {
    hide Next;
    if |a| == 0 {
      assert a + b == b;
    } else {
      assert (a + b)[0] == a[0] && (a + b)[1..] == a[1..] + b;
      RunFromAppend(cfg, Next(cfg, s, a[0]), a[1..], b);
    }
  }

  ghost predicate AtItem(s: State, block: nat, txs: seq<TxRecord>) {
    s.mem.Some? && s.mem.value.replacer == PWorking(block, txs)
  }

  /** What one item of the pass does to the machine. */
  ghost predicate ItemDone(cfg: Config, s: State, s': State, block: nat, txs: seq<TxRecord>, a: Sent)
    requires |txs| > 0 && s.mem.Some?
  {
    var due := Due(cfg, block, txs[0]);
    && s'.db == AfterItem(cfg, s.db, block, txs[0], a)
    && s'.mem == Some(s.mem.value.(replacer := PWorking(block, txs[1..])))
    && s'.hist.counted == s.hist.counted
    && s'.hist.broadcasts == s.hist.broadcasts
         + if due && !a.Unsigned?
           then [Tx(txs[0].txNonce, NewPlan(cfg, txs[0]), ReadMarked(txs[0].calldata).value)]
           else []
  }

  lemma ReplaceStep(cfg: Config, s: State, e: Event)
    requires s.mem.Some? && (e.ReplaceNext? || e.ReplaceSkip? || e.ReplaceFee? || e.ReplaceHash? || e.ReplaceErr?)
    ensures Next(cfg, s, e) == NextReplace(cfg, s, s.mem.value, e)
  {
    hide NextTask, NextLock, NextReceipt, NextReplace;
  }

  lemma RunFromOne(cfg: Config, s: State, e: Event)
    ensures RunFrom(cfg, s, [e]) == Next(cfg, s, e)
  {
    hide Next;
  }

  lemma RunFromCons(cfg: Config, s: State, e: Event, events: seq<Event>)
    ensures RunFrom(cfg, s, [e] + events) == RunFrom(cfg, Next(cfg, s, e), events)
  {
    hide Next;
    assert ([e] + events)[1..] == events;
  }

  lemma SendRuns(cfg: Config, s: State, block: nat, txs: seq<TxRecord>)
    requires |txs| > 0 && AtItem(s, block, txs) && Due(cfg, block, txs[0])
    ensures var m := s.mem.value; var n := txs[0].txNonce;
      Next(cfg, s, ReplaceNext)
      == s.(mem := Some(m.(replacer := PSending(block, n, NewPlan(cfg, txs[0]), txs[1..]))),
            hist := s.hist.(broadcasts :=
                s.hist.broadcasts + [Tx(n, NewPlan(cfg, txs[0]), ReadMarked(txs[0].calldata).value)]))
  {
    hide Next, Bump, ReadMarked, UpdateFee, UpdateStatus, UpdateTxHash, IsPendingList;
    ReplaceStep(cfg, s, ReplaceNext);
  }

  lemma TakenRuns(cfg: Config, s: State, block: nat, txs: seq<TxRecord>, a: Sent)
    requires |txs| > 0 && AtItem(s, block, txs) && Due(cfg, block, txs[0]) && a.Taken?
    ensures ItemDone(cfg, s, RunFrom(cfg, s, ItemEvents(cfg, block, txs[0], a)), block, txs, a)
  {
    hide Next, RunFrom, NewPlan, ReadMarked, UpdateFee, UpdateTxHash, UpdateStatus, Due;
    var fee, hash := ReplaceFee(a.ioFee), ReplaceHash(a.hash, a.ioHash);
    assert [ReplaceNext] + [fee, hash] == ItemEvents(cfg, block, txs[0], a);
    assert [fee] + [hash] == [fee, hash];
    SendRuns(cfg, s, block, txs);
    var s1 := Next(cfg, s, ReplaceNext);
    ReplaceStep(cfg, s1, fee);
    var s2 := Next(cfg, s1, fee);
    ReplaceStep(cfg, s2, hash);
    RunFromCons(cfg, s, ReplaceNext, [fee, hash]);
    RunFromCons(cfg, s1, fee, [hash]);
    RunFromOne(cfg, s2, hash);
  }

  lemma RefusedRuns(cfg: Config, s: State, block: nat, txs: seq<TxRecord>, a: Sent)
    requires |txs| > 0 && AtItem(s, block, txs) && Due(cfg, block, txs[0]) && a.Refused?
    ensures ItemDone(cfg, s, RunFrom(cfg, s, ItemEvents(cfg, block, txs[0], a)), block, txs, a)
  {
    hide Next, RunFrom, NewPlan, ReadMarked, UpdateFee, UpdateTxHash, UpdateStatus, Due;
    var err := ReplaceErr(a.tooLow, a.io);
    assert [ReplaceNext] + [err] == ItemEvents(cfg, block, txs[0], a);
    SendRuns(cfg, s, block, txs);
    var s1 := Next(cfg, s, ReplaceNext);
    ReplaceStep(cfg, s1, err);
    RunFromCons(cfg, s, ReplaceNext, [err]);
    RunFromOne(cfg, s1, err);
  }

  lemma ItemRuns(cfg: Config, s: State, block: nat, txs: seq<TxRecord>, a: Sent)
    requires |txs| > 0 && AtItem(s, block, txs)
    ensures ItemDone(cfg, s, RunFrom(cfg, s, ItemEvents(cfg, block, txs[0], a)), block, txs, a)
  {
    hide Next, RunFrom, Bump, ReadMarked, UpdateFee, UpdateTxHash, UpdateStatus;
    if !Due(cfg, block, txs[0]) || a.Unsigned? {
      var e := if Due(cfg, block, txs[0]) then ReplaceSkip else ReplaceNext;
      RunFromOne(cfg, s, e);
      ReplaceStep(cfg, s, e);
    } else if a.Taken? {
      TakenRuns(cfg, s, block, txs, a);
    } else {
      RefusedRuns(cfg, s, block, txs, a);
    }
  }

  /** The pass over a snapshot is a run of the machine: the same tables, the same transactions broadcast. */
  lemma {:induction false} ReplacePassRuns(cfg: Config, s: State, block: nat, txs: seq<TxRecord>, answers: seq<Sent>)
    requires |txs| == |answers| && AtItem(s, block, txs)
    ensures var s' := RunFrom(cfg, s, ReplaceEvents(cfg, block, txs, answers));
      && s'.db == AfterReplacements(cfg, s.db, block, txs, answers)
      && s'.mem == Some(s.mem.value.(replacer := PWorking(block, [])))
      && s'.hist.broadcasts == s.hist.broadcasts + Replacements(cfg, block, txs, answers)
      && s'.hist.counted == s.hist.counted
    decreases |txs|
  {
    hide Next, Due, AfterSend, ItemEvents, NewPlan, ReadMarked;
    if |txs| > 0 {
      var one := ItemEvents(cfg, block, txs[0], answers[0]);
      var s' := RunFrom(cfg, s, one);
      ItemRuns(cfg, s, block, txs, answers[0]);
      RunFromAppend(cfg, s, one, ReplaceEvents(cfg, block, txs[1..], answers[1..]));
      ReplacePassRuns(cfg, s', block, txs[1..], answers[1..]);
    }
  }

  // ---------- do_submit ----------

  datatype Broadcast = Lost(io: bool) | Landed(hash: string, io: bool)

  /** What do_submit meets: the simulation, the fee data, its two writes, the signer, and the nodes. */
  datatype Answers = Answers(simulated: bool, baseFee: Option<U128>, scaledEstimate: nat, ioStore: bool, ioInsert: bool,
                             signed: bool, sent: Broadcast)

  function PlanFor(cfg: Config, p: Proof, a: Answers): GasPlan
    requires cfg.fees.gasLimitOverride == None ==> MIN_GAS_LIMIT <= cfg.fees.gasLimitCap
  {
    LateBump(cfg.fees, PlanGas(cfg.fees, a.baseFee, a.scaledEstimate), a.baseFee, p.state.blocksLeft)
  }

  /** The row is in and the transaction goes out. */
  predicate Goes(a: Answers) {
    a.ioStore && a.ioInsert && a.signed
  }

  function AfterBroadcast(db: Tables, n: nat, b: Broadcast): Tables {
    match b
    case Lost(io) => if io then UpdateStatus(db, n, Failed) else db
    case Landed(hash, io) => if io then UpdateTxHash(db, n, hash) else db
  }

  /** The tables after a do_submit that got past its simulation. */
  function AfterSubmit(cfg: Config, db: Tables, n: nat, p: Proof, a: Answers): Tables
    requires cfg.fees.gasLimitOverride == None ==> MIN_GAS_LIMIT <= cfg.fees.gasLimitCap
  {
    var stored := Allocated(db, n, RowFor(p, PlanFor(cfg, p, a)), a.ioStore, a.ioInsert);
    if Goes(a) then AfterBroadcast(stored, n, a.sent) else stored
  }

  /** A task enters do_submit with an accepted solution. */
  function Enter(t: nat, p: Proof): Event {
    Submit(t, p.sol, p.state.epoch, p.state.challenge, p.state.target, p.state.blocksLeft, p.state.blockNumber)
  }

  /**
   The row that a do_submit leaves once it has sent, column by column, and nothing else in the table: the fees
   planned at the blocks left, the block of the state, the hash if the nodes took it and 'failed' if not.
   */
  lemma SubmittedRow(cfg: Config, db: Tables, n: nat, p: Proof, a: Answers)
    requires (cfg.fees.gasLimitOverride == None ==> MIN_GAS_LIMIT <= cfg.fees.gasLimitCap) && Goes(a)
    ensures var db' := AfterSubmit(cfg, db, n, p, a);
      && n in db'.txs && db'.txs == db.txs[n := db'.txs[n]]
      && var row := db'.txs[n];
      && row.rawTxHash == (if a.sent.Landed? && a.sent.io then a.sent.hash else "")
      && row.status == (if a.sent.Lost? && a.sent.io then Failed else Pending)
      && TxCalls.Records(p, row)
      && ReadPlan(row)
         == LateBump(cfg.fees, PlanGas(cfg.fees, a.baseFee, a.scaledEstimate), a.baseFee, p.state.blocksLeft)
      && ReadMarked(row.calldata).Some? && CallsMine(ReadMarked(row.calldata).value, p.sol.nonce)
    ensures n < U64_MAX ==> LoadNextNonce(AfterSubmit(cfg, db, n, p, a)) == Some(n + 1)
  {
    hide PlanGas, LateBump, ToDecimal, ParseUint, MineCalldata, CallsMine, Marked, ReadMarked;
    var plan := PlanFor(cfg, p, a);
    RowReadsBack(n, MineCalldata(p.sol.nonce), p.sol.nonce, Marked(p.sol.challenge), p.sol.epoch, plan,
        p.state.blockNumber);
    MineCalldataIs(p.sol.nonce);
    if n < U64_MAX {
      NextNonceReadsBack(db, n + 1);
    }
  }

  /** The events of a do_submit by task t, from its accepted solution on. */
  function SubmitEvents(t: nat, p: Proof, a: Answers): seq<Event> {
    [Enter(t, p), Price(t, a.baseFee, a.scaledEstimate)]
    + [Take(t), StoreNext(a.ioStore), Insert(a.ioInsert)]
    + (if Goes(a)
       then [Send(t), match a.sent case Lost(io) => SendErr(t, io) case Landed(hash, io) => SendOk(t, hash, io)]
       else [Cancel(t)])
  }

  lemma RunFromTwo(cfg: Config, s: State, e: Event, f: Event)
    ensures RunFrom(cfg, s, [e, f]) == Next(cfg, Next(cfg, s, e), f)
  {
    hide Next;
    assert [e, f] == [e] + [f];
    RunFromCons(cfg, s, e, [f]);
    RunFromOne(cfg, Next(cfg, s, e), f);
  }

  lemma RunFromThree(cfg: Config, s: State, e: Event, f: Event, g: Event)
    ensures RunFrom(cfg, s, [e, f, g]) == Next(cfg, Next(cfg, Next(cfg, s, e), f), g)
  {
    hide Next;
    assert [e, f, g] == [e] + [f, g];
    RunFromCons(cfg, s, e, [f, g]);
    RunFromTwo(cfg, Next(cfg, s, e), f, g);
  }

  lemma TaskStep(cfg: Config, s: State, e: Event)
    requires s.mem.Some? && (e.Submit? || e.Price? || e.Send? || e.SendOk? || e.SendErr? || e.Cancel?)
    ensures Next(cfg, s, e) == NextTask(cfg, s, s.mem.value, e)
  {
    hide NextTask, NextLock, NextReceipt, NextReplace;
  }

  lemma LockStep(cfg: Config, s: State, e: Event)
    requires s.mem.Some? && (e.Take? || e.StoreNext? || e.Insert?)
    ensures Next(cfg, s, e) == NextLock(s, s.mem.value, e)
  {
    hide NextTask, NextLock, NextReceipt, NextReplace;
  }

  /** A task that may enter do_submit with this solution. */
  ghost predicate CanSubmit(cfg: Config, s: State, t: nat, p: Proof) {
    && s.mem.Some? && s.mem.value.lock.Free? && t !in s.mem.value.tasks && s.mem.value.next < U64_MAX
    && ValidateSolution(p.sol, p.state) == Contract.Accepted
    && p.state.effectiveTarget == EffectiveTarget(p.state.target, cfg.divisor)
    && (cfg.fees.gasLimitOverride == None ==> MIN_GAS_LIMIT <= cfg.fees.gasLimitCap)
  }

  /** Submit and Price bring the task to the mutex. */
  lemma PricedRuns(cfg: Config, s: State, t: nat, p: Proof, a: Answers)
    requires CanSubmit(cfg, s, t, p)
    ensures var m := s.mem.value;
      RunFrom(cfg, s, [Enter(t, p), Price(t, a.baseFee, a.scaledEstimate)])
      == s.(mem := Some(m.(tasks := m.tasks[t := Priced(p, PlanFor(cfg, p, a))])))
  {
    hide Next, RunFrom, ValidateSolution, EffectiveTarget, PlanGas, LateBump;
    var st, m := p.state, s.mem.value;
    var submit := Enter(t, p);
    RunFromTwo(cfg, s, submit, Price(t, a.baseFee, a.scaledEstimate));
    TaskStep(cfg, s, submit);
    assert WorkState(st.epoch, st.challenge, st.target, EffectiveTarget(st.target, cfg.divisor), st.blocksLeft,
        st.blockNumber) == st;
    var s1 := Next(cfg, s, submit);
    TaskStep(cfg, s1, Price(t, a.baseFee, a.scaledEstimate));
    assert m.tasks[t := Checked(p)][t := Priced(p, PlanFor(cfg, p, a))] == m.tasks[t := Priced(p, PlanFor(cfg, p, a))];
  }

  lemma AllocateRuns(cfg: Config, s: State, t: nat, p: Proof, plan: GasPlan, ioStore: bool, ioInsert: bool)
    requires s.mem.Some? && s.mem.value.lock.Free? && s.mem.value.next < U64_MAX
    requires t in s.mem.value.tasks && s.mem.value.tasks[t] == Priced(p, plan)
    ensures var m := s.mem.value; var n := m.next; var done := ioStore && ioInsert;
      var s' := RunFrom(cfg, s, [Take(t), StoreNext(ioStore), Insert(ioInsert)]);
      && s'.db == Allocated(s.db, n, RowFor(p, plan), ioStore, ioInsert)
      && s'.mem == Some(m.(next := n + 1, tasks :=
           if done then m.tasks[t := Signed(Tx(n, plan, MineCalldata(p.sol.nonce)))] else m.tasks - {t}))
      && s'.hist.broadcasts == s.hist.broadcasts && s'.hist.counted == s.hist.counted
  {
    hide Next, RunFrom, ToDecimal, RowFor, MineCalldata;
    RunFromThree(cfg, s, Take(t), StoreNext(ioStore), Insert(ioInsert));
    LockStep(cfg, s, Take(t));
    var s1 := Next(cfg, s, Take(t));
    LockStep(cfg, s1, StoreNext(ioStore));
    var s2 := Next(cfg, s1, StoreNext(ioStore));
    LockStep(cfg, s2, Insert(ioInsert));
  }

  lemma SentRuns(cfg: Config, s: State, t: nat, tx: Tx, b: Broadcast)
    requires s.mem.Some? && t in s.mem.value.tasks && s.mem.value.tasks[t] == Signed(tx)
    ensures var m := s.mem.value;
      var last := match b case Lost(io) => SendErr(t, io) case Landed(hash, io) => SendOk(t, hash, io);
      var s' := RunFrom(cfg, s, [Send(t), last]);
      && s'.db == AfterBroadcast(s.db, tx.nonce, b)
      && s'.mem == Some(m.(tasks := m.tasks - {t}))
      && s'.hist.broadcasts == s.hist.broadcasts + [tx] && s'.hist.counted == s.hist.counted
  {
    hide Next, RunFrom, UpdateStatus, UpdateTxHash;
    var m := s.mem.value;
    var last := match b case Lost(io) => SendErr(t, io) case Landed(hash, io) => SendOk(t, hash, io);
    RunFromTwo(cfg, s, Send(t), last);
    TaskStep(cfg, s, Send(t));
    TaskStep(cfg, Next(cfg, s, Send(t)), last);
    assert m.tasks[t := Sending(tx)] - {t} == m.tasks - {t};
  }

  /**
   An uninterrupted do_submit is a run of the machine: the same tables, the next nonce spent, and one
   transaction broadcast if it gets that far.
   */
  lemma SubmitRuns(cfg: Config, s: State, t: nat, p: Proof, a: Answers)
    requires CanSubmit(cfg, s, t, p)
    ensures var m := s.mem.value; var s' := RunFrom(cfg, s, SubmitEvents(t, p, a));
      && s'.db == AfterSubmit(cfg, s.db, m.next, p, a)
      && s'.mem == Some(m.(next := m.next + 1))
      && s'.hist.counted == s.hist.counted
      && s'.hist.broadcasts == s.hist.broadcasts
           + if Goes(a) then [Tx(m.next, PlanFor(cfg, p, a), MineCalldata(p.sol.nonce))] else []
  {
    hide Next, RunFrom, PlanFor, RowFor, MineCalldata, Allocated, AfterBroadcast, ValidateSolution, EffectiveTarget;
    var m, plan := s.mem.value, PlanFor(cfg, p, a);
    var first := [Enter(t, p), Price(t, a.baseFee, a.scaledEstimate)];
    var second := [Take(t), StoreNext(a.ioStore), Insert(a.ioInsert)];
    var third := if Goes(a)
      then [Send(t), match a.sent case Lost(io) => SendErr(t, io) case Landed(hash, io) => SendOk(t, hash, io)]
      else [Cancel(t)];
    assert SubmitEvents(t, p, a) == first + second + third;
    RunFromAppend(cfg, s, first + second, third);
    RunFromAppend(cfg, s, first, second);
    PricedRuns(cfg, s, t, p, a);
    var s1 := RunFrom(cfg, s, first);
    AllocateRuns(cfg, s1, t, p, plan, a.ioStore, a.ioInsert);
    var s2 := RunFrom(cfg, s1, second);
    var tx := Tx(m.next, plan, MineCalldata(p.sol.nonce));
    if Goes(a) {
      SentRuns(cfg, s2, t, tx, a.sent);
    } else {
      RunFromOne(cfg, s2, Cancel(t));
      TaskStep(cfg, s2, Cancel(t));
    }
    RemovedTask(m.tasks, t, Priced(p, plan), Signed(tx));
  }

  lemma RemovedTask(tasks: map<nat, Task>, t: nat, a: Task, b: Task)
    requires t !in tasks
    ensures tasks[t := a] - {t} == tasks && tasks[t := a][t := b] - {t} == tasks
    ensures tasks[t := a] - {t} - {t} == tasks
  {
  }

  // ---------- What the three give in every run of the machine ----------

  /**
   A do_submit anywhere in a run continues the run. Its nonce is new: no row has it, and nothing was ever
   broadcast under it. If a transaction goes out, it carries the solution, which is a proof for the target.
   */
  lemma SubmitReached(cfg: Config, before: seq<Event>, t: nat, p: Proof, a: Answers)
    requires CanSubmit(cfg, Run(cfg, before), t, p)
    ensures var s := Run(cfg, before); var m := s.mem.value;
      var s' := Run(cfg, before + SubmitEvents(t, p, a));
      && s'.db == AfterSubmit(cfg, s.db, m.next, p, a)
      && s'.mem == Some(m.(next := m.next + 1)) && s'.hist.counted == s.hist.counted
      && s'.hist.broadcasts == s.hist.broadcasts
           + (if Goes(a) then [Tx(m.next, PlanFor(cfg, p, a), MineCalldata(p.sol.nonce))] else [])
    ensures var s := Run(cfg, before); var n := s.mem.value.next;
      n !in s.db.txs && forall i :: 0 <= i < |s.hist.broadcasts| ==> s.hist.broadcasts[i].nonce != n
    ensures CallsMine(MineCalldata(p.sol.nonce), p.sol.nonce)
    ensures ProofIsValid(p.state.challenge, p.sol.nonce, p.state.target)
  {
    hide Run, RunFrom, PlanFor, MineCalldata, CallsMine, ValidateSolution, ProofIsValid, SubmitEvents, AfterSubmit,
         Goes;
    MineCalldataIs(p.sol.nonce);
    var s := Run(cfg, before);
    RunContinues(cfg, before, SubmitEvents(t, p, a));
    SubmitRuns(cfg, s, t, p, a);
    TxSafety.NoncesSpentOnce(cfg, before);
    forall i | 0 <= i < |s.hist.broadcasts|
      ensures s.hist.broadcasts[i].nonce < TxSafety.Persisted(s.db)
    {
      TxCalls.WrittenAhead(cfg, before, i);
    }
    AcceptedExactly(p.sol, p.state, cfg.divisor);
  }

  /** The receipt loop is between two passes. */
  predicate ReceiptsRest(r: Receipts) {
    r == RIdle || r == RWorking([])
  }

  predicate ReplacerRests(r: Replacer) {
    r == PIdle || (r.PWorking? && r.queue == [])
  }

  function PassEvents(txs: seq<TxRecord>, answers: seq<Receipt>): seq<Event>
    requires |txs| == |answers|
  {
    [ReceiptList(txs)] + ReceiptEvents(txs, answers)
  }

  lemma ListedReceipts(cfg: Config, s: State, txs: seq<TxRecord>)
    requires s.mem.Some? && ReceiptsRest(s.mem.value.receipts) && IsPendingList(s.db, txs)
    ensures Next(cfg, s, ReceiptList(txs)) == s.(mem := Some(s.mem.value.(receipts := RWorking(txs))))
  {
    hide NextTask, NextLock, NextReplace, IsPendingList;
  }

  /** What one answer does to its row. */
  function RowRead(tx: TxRecord, a: Receipt, row: Row): Row {
    if tx.rawTxHash == "" || a.Missing? || !a.io then row else row.(status := if a.success then Success else Failed)
  }

  lemma ReadRowIs(db: Tables, tx: TxRecord, a: Receipt)
    requires tx.txNonce in db.txs
    ensures AfterReceipt(db, tx, a) == db.(txs := db.txs[tx.txNonce := RowRead(tx, a, db.txs[tx.txNonce])])
  {
    var n := tx.txNonce;
    assert db.txs[n := db.txs[n]] == db.txs;
  }

  /** What a pass leaves in the rows it listed: the outcome where a receipt was written, nothing else changed. */
  lemma {:induction false} ReceiptRows(db: Tables, txs: seq<TxRecord>, answers: seq<Receipt>)
    requires |txs| == |answers| && TxFinality.Distinct(txs)
    requires forall i :: 0 <= i < |txs| ==> txs[i].txNonce in db.txs
    ensures var db' := AfterReceipts(db, txs, answers);
      && db'.nextNonce == db.nextNonce && db'.txs.Keys == db.txs.Keys
      && (forall n :: n in db.txs && !TxFinality.Has(txs, n) ==> db'.txs[n] == db.txs[n])
      && (forall i :: 0 <= i < |txs| ==>
            db'.txs[txs[i].txNonce] == RowRead(txs[i], answers[i], db.txs[txs[i].txNonce]))
    decreases |txs|
  {
    hide AfterReceipt, RowRead;
    if |txs| > 0 {
      var n := txs[0].txNonce;
      var one := AfterReceipt(db, txs[0], answers[0]);
      ReadRowIs(db, txs[0], answers[0]);
      TxFinality.TailHas(txs);
      ReceiptRows(one, txs[1..], answers[1..]);
      assert TxFinality.Has(txs, n);
      forall i | 1 <= i < |txs|
        ensures txs[i] == txs[1..][i - 1] && answers[i] == answers[1..][i - 1]
      {
      }
      forall k | k in db.txs && !TxFinality.Has(txs, k)
        ensures !TxFinality.Has(txs[1..], k) && k != n
      {
      }
    }
  }

  /** Some transaction listed for n has a hash, and a receipt of that outcome. */
  ghost predicate ReceiptFor(txs: seq<TxRecord>, answers: seq<Receipt>, success: bool, n: nat)
    requires |txs| == |answers|
  {
    exists i :: 0 <= i < |txs| && txs[i].txNonce == n && txs[i].rawTxHash != ""
                && answers[i].Found? && answers[i].success == success
  }

  lemma ReceiptForCons(txs: seq<TxRecord>, answers: seq<Receipt>, success: bool, n: nat)
    requires |txs| == |answers| && |txs| > 0
    ensures ReceiptFor(txs, answers, success, n)
       <==> (txs[0].txNonce == n && txs[0].rawTxHash != "" && answers[0].Found? && answers[0].success == success)
            || ReceiptFor(txs[1..], answers[1..], success, n)
  {
    if ReceiptFor(txs[1..], answers[1..], success, n) {
      var i :| 0 <= i < |txs[1..]| && txs[1..][i].txNonce == n && txs[1..][i].rawTxHash != ""
               && answers[1..][i].Found? && answers[1..][i].success == success;
      assert txs[i + 1] == txs[1..][i] && answers[i + 1] == answers[1..][i];
    }
    if i :| 1 <= i < |txs| && txs[i].txNonce == n && txs[i].rawTxHash != ""
            && answers[i].Found? && answers[i].success == success {
      assert txs[1..][i - 1] == txs[i] && answers[1..][i - 1] == answers[i];
    }
  }

  /** What is counted as a success, or as a failure, of the transactions listed: those with such a receipt. */
  lemma {:induction false} CountedExactly(txs: seq<TxRecord>, answers: seq<Receipt>, success: bool, n: nat)
    requires |txs| == |answers| && TxFinality.Distinct(txs)
    ensures multiset(CountedAs(txs, answers, success))[n] == if ReceiptFor(txs, answers, success, n) then 1 else 0
    decreases |txs|
  {
    if |txs| > 0 {
      hide ReceiptFor, TxFinality.Distinct, TxFinality.Has;
      TxFinality.TailHas(txs);
      ReceiptForCons(txs, answers, success, n);
      CountedExactly(txs[1..], answers[1..], success, n);
      NotListed(txs[1..], answers[1..], success, txs[0].txNonce);
    }
  }

  lemma {:induction false} NotListed(txs: seq<TxRecord>, answers: seq<Receipt>, success: bool, n: nat)
    requires |txs| == |answers| && !TxFinality.Has(txs, n)
    ensures n !in CountedAs(txs, answers, success)
    decreases |txs|
  {
    if |txs| > 0 {
      assert forall i :: 0 <= i < |txs[1..]| ==> txs[1..][i] == txs[i + 1];
      NotListed(txs[1..], answers[1..], success, n);
    }
  }

  function TimesCounted(s: State, n: nat): nat {
    multiset(s.hist.counted)[n]
  }

  /**
   A receipt pass anywhere in a run continues the run. The nonces it counts and writes get their outcome, and
   are never counted again, whatever follows.
   */
  lemma ReceiptPassReached(cfg: Config, before: seq<Event>, txs: seq<TxRecord>, answers: seq<Receipt>, more: seq<Event>)
    requires |txs| == |answers|
    requires var s := Run(cfg, before);
      s.mem.Some? && ReceiptsRest(s.mem.value.receipts) && IsPendingList(s.db, txs)
    ensures var s := Run(cfg, before); var s' := Run(cfg, before + PassEvents(txs, answers));
      && s'.db == AfterReceipts(s.db, txs, answers)
      && s'.mem == Some(s.mem.value.(receipts := RWorking([]))) && s'.hist.broadcasts == s.hist.broadcasts
      && |s'.hist.counted| == |s.hist.counted| + |CountedAs(txs, answers, true)| + |CountedAs(txs, answers, false)|
    ensures var after := before + PassEvents(txs, answers);
      forall i :: 0 <= i < |txs| && Counts(txs[i], answers[i]) && answers[i].io ==>
        && txs[i].txNonce in Run(cfg, after).db.txs
        && Run(cfg, after).db.txs[txs[i].txNonce].status == (if answers[i].success then Success else Failed)
        && TimesCounted(Run(cfg, after + more), txs[i].txNonce) == TimesCounted(Run(cfg, after), txs[i].txNonce)
  {
    hide Run, RunFrom, Next, AfterReceipts, ReceiptEvents, CountedAs, IsPendingList;
    var s := Run(cfg, before);
    var after := before + PassEvents(txs, answers);
    RunContinues(cfg, before, PassEvents(txs, answers));
    RunFromCons(cfg, s, ReceiptList(txs), ReceiptEvents(txs, answers));
    ListedReceipts(cfg, s, txs);
    ReceiptPassRuns(cfg, Next(cfg, s, ReceiptList(txs)), txs, answers);
    PendingShape(s.db, txs);
    ReceiptRows(s.db, txs, answers);
    forall i | 0 <= i < |txs| && Counts(txs[i], answers[i]) && answers[i].io
      ensures txs[i].txNonce in Run(cfg, after).db.txs
      ensures Run(cfg, after).db.txs[txs[i].txNonce].status == if answers[i].success then Success else Failed
      ensures TimesCounted(Run(cfg, after + more), txs[i].txNonce) == TimesCounted(Run(cfg, after), txs[i].txNonce)
    {
      TxFinality.RunWritten(cfg, after);
      TxFinality.NeverCountedAgain(cfg, after, more, txs[i].txNonce);
    }
  }

  lemma PendingShape(db: Tables, txs: seq<TxRecord>)
    requires IsPendingList(db, txs)
    ensures TxFinality.Distinct(txs) && forall i :: 0 <= i < |txs| ==> txs[i].txNonce in db.txs
  {
    hide ReadRow;
  }

  /** What one item does to its row: the bumped fee, the new hash, or 'replaced', each where its write works. */
  function RowAfter(cfg: Config, block: nat, tx: TxRecord, a: Sent, row: Row): Row {
    if !Due(cfg, block, tx) then row
    else
      match a
      case Unsigned => row
      case Taken(hash, ioFee, ioHash) =>
        var plan := NewPlan(cfg, tx);
        var fee := if ioFee
          then row.(maxFee := ToDecimal(plan.maxFee), priority := ToDecimal(plan.priority), gasLimit := plan.gasLimit)
          else row;
        if ioHash then fee.(rawTxHash := hash) else fee
      case Refused(tooLow, io) => if tooLow && io then row.(status := Replaced) else row
  }

  lemma ItemRow(cfg: Config, db: Tables, block: nat, tx: TxRecord, a: Sent)
    requires tx.txNonce in db.txs
    ensures AfterItem(cfg, db, block, tx, a)
         == db.(txs := db.txs[tx.txNonce := RowAfter(cfg, block, tx, a, db.txs[tx.txNonce])])
  {
    hide Due, NewPlan, ToDecimal;
    var n := tx.txNonce;
    assert db.txs[n := db.txs[n]] == db.txs;
  }

  /**
   What a replacement pass leaves in the rows it listed: a due one that was sent has the bumped fee and the new
   hash, a due one that came too late is 'replaced', each where its write works; nothing else changes.
   */
  lemma {:induction false} ReplacementRows(cfg: Config, db: Tables, block: nat, txs: seq<TxRecord>, answers: seq<Sent>)
    requires |txs| == |answers| && TxFinality.Distinct(txs)
    requires forall i :: 0 <= i < |txs| ==> txs[i].txNonce in db.txs
    ensures var db' := AfterReplacements(cfg, db, block, txs, answers);
      && db'.nextNonce == db.nextNonce && db'.txs.Keys == db.txs.Keys
      && (forall n :: n in db.txs && !TxFinality.Has(txs, n) ==> db'.txs[n] == db.txs[n])
      && (forall i :: 0 <= i < |txs| ==>
            db'.txs[txs[i].txNonce] == RowAfter(cfg, block, txs[i], answers[i], db.txs[txs[i].txNonce]))
    decreases |txs|
  {
    hide RowAfter, AfterItem;
    if |txs| > 0 {
      var n := txs[0].txNonce;
      ItemRow(cfg, db, block, txs[0], answers[0]);
      TxFinality.TailHas(txs);
      ReplacementRows(cfg, AfterItem(cfg, db, block, txs[0], answers[0]), block, txs[1..], answers[1..]);
      assert TxFinality.Has(txs, n);
      forall i | 1 <= i < |txs|
        ensures txs[i] == txs[1..][i - 1] && answers[i] == answers[1..][i - 1]
      {
      }
      forall k | k in db.txs && !TxFinality.Has(txs, k)
        ensures !TxFinality.Has(txs[1..], k) && k != n
      {
      }
    }
  }

  lemma ListedReplacements(cfg: Config, s: State, block: nat, txs: seq<TxRecord>)
    requires s.mem.Some? && ReplacerRests(s.mem.value.replacer) && IsPendingList(s.db, txs)
    ensures Next(cfg, s, ReplaceList(block, txs)) == s.(mem := Some(s.mem.value.(replacer := PWorking(block, txs))))
  {
    hide NextTask, NextLock, NextReceipt, IsPendingList;
  }

  /**
   A replacement pass anywhere in a run continues the run. Each transaction it sends carries the solution that
   its account nonce was spent on, which is a proof for the target.
   */
  lemma ReplacePassReached(cfg: Config, before: seq<Event>, block: nat, txs: seq<TxRecord>, answers: seq<Sent>)
    requires |txs| == |answers|
    requires var s := Run(cfg, before);
      s.mem.Some? && ReplacerRests(s.mem.value.replacer) && IsPendingList(s.db, txs)
    ensures var s := Run(cfg, before);
      var s' := Run(cfg, before + ([ReplaceList(block, txs)] + ReplaceEvents(cfg, block, txs, answers)));
      && s'.db == AfterReplacements(cfg, s.db, block, txs, answers)
      && s'.mem == Some(s.mem.value.(replacer := PWorking(block, []))) && s'.hist.counted == s.hist.counted
      && s'.hist.broadcasts == s.hist.broadcasts + Replacements(cfg, block, txs, answers)
      && forall i :: 0 <= i < |Replacements(cfg, block, txs, answers)| ==>
           var tx := Replacements(cfg, block, txs, answers)[i];
           && tx.nonce in s'.hist.origin
           && var p := s'.hist.origin[tx.nonce].proof;
           CallsMine(tx.calldata, p.sol.nonce) && ProofIsValid(p.state.challenge, p.sol.nonce, p.state.target)
  {
    hide Run, RunFrom, Next, AfterReplacements, ReplaceEvents, Replacements, IsPendingList, MineCalldata, CallsMine,
         ProofIsValid;
    var s := Run(cfg, before);
    var events := ReplaceEvents(cfg, block, txs, answers);
    var after := before + ([ReplaceList(block, txs)] + events);
    RunContinues(cfg, before, [ReplaceList(block, txs)] + events);
    RunFromCons(cfg, s, ReplaceList(block, txs), events);
    ListedReplacements(cfg, s, block, txs);
    ReplacePassRuns(cfg, Next(cfg, s, ReplaceList(block, txs)), block, txs, answers);
    var sent := Replacements(cfg, block, txs, answers);
    forall i | 0 <= i < |sent|
      ensures var s' := Run(cfg, after);
        && sent[i].nonce in s'.hist.origin
        && var p := s'.hist.origin[sent[i].nonce].proof;
        CallsMine(sent[i].calldata, p.sol.nonce) && ProofIsValid(p.state.challenge, p.sol.nonce, p.state.target)
    {
      TxCalls.EveryBroadcastIsAProof(cfg, after, |s.hist.broadcasts| + i);
    }
  }

  /** The mutex is free, no submission is under way, and both loops are between passes. */
  predicate Resting(m: Memory) {
    m.lock.Free? && m.tasks == map[] && ReceiptsRest(m.receipts) && ReplacerRests(m.replacer)
  }

  class Submitter {
    const cfg: Config
    const skipSimulateAfterSuccess: bool
    const mgr: TxNonceManager
    var hadSuccess: bool
    var submittedTxs: nat
    var staleSolutions: nat
    var replacements: nat
    var confirmations: nat
    var failures: nat
    /** The run of the machine that this submitter has been, and what was counted before its process started. */
    ghost var trace: seq<Event>
    ghost const countedBefore: nat

    /** Database, next nonce and counters are where the run has left them, and no loop is in a pass. */
    ghost predicate Linked()
      reads this, mgr, mgr.db
    {
      var s := Run(cfg, trace);
      && s.db == mgr.db.tables
      && s.mem.Some? && Resting(s.mem.value) && s.mem.value.next == mgr.nextNonce
      && |s.hist.counted| == countedBefore + confirmations + failures
    }

    /** Over a manager just opened, by a run that ends with the start of this process. */
    constructor (cfg: Config, skipSimulateAfterSuccess: bool, mgr: TxNonceManager, ghost trace: seq<Event>)
      requires Run(cfg, trace).db == mgr.db.tables
      requires Run(cfg, trace).mem == Some(Memory(mgr.nextNonce, Free, map[], RIdle, PIdle))
      ensures this.cfg == cfg && this.skipSimulateAfterSuccess == skipSimulateAfterSuccess && this.mgr == mgr
      ensures Linked() && this.trace == trace && countedBefore == |Run(cfg, trace).hist.counted|
      ensures !hadSuccess && submittedTxs == 0 && staleSolutions == 0 && replacements == 0
      ensures confirmations == 0 && failures == 0
    {
      this.cfg, this.skipSimulateAfterSuccess, this.mgr := cfg, skipSimulateAfterSuccess, mgr;
      hadSuccess, submittedTxs, staleSolutions, replacements, confirmations, failures := false, 0, 0, 0, 0, 0;
      this.trace, this.countedBefore := trace, |Run(cfg, trace).hist.counted|;
    }

    /** submit_solution: the two guards, then do_submit. */
    method SubmitSolution(sol: Solution, state: WorkState, recheck: Option<B256>, a: Answers)
      returns (r: Option<nat>, ghost went: bool)
      requires Linked() && mgr.nextNonce < U64_MAX
      requires state.effectiveTarget == EffectiveTarget(state.target, cfg.divisor)
      requires cfg.fees.gasLimitOverride == None ==> MIN_GAS_LIMIT <= cfg.fees.gasLimitCap
      modifies this`hadSuccess, this`submittedTxs, this`staleSolutions, this`trace, mgr, mgr.db
      ensures Linked()
      ensures staleSolutions == old(staleSolutions) + if SubmitGuard(sol, state, recheck) == Moved then 1 else 0
      ensures went == (SubmitGuard(sol, state, recheck) == Passed
                       && ((skipSimulateAfterSuccess && old(hadSuccess)) || a.simulated))
      ensures r == if went && Goes(a) && a.sent.Landed? && a.sent.io then Some(old(mgr.nextNonce)) else None
      ensures hadSuccess == (old(hadSuccess) || r.Some?)
      ensures submittedTxs == old(submittedTxs) + if r.Some? then 1 else 0
      ensures mgr.nextNonce == old(mgr.nextNonce) + if went then 1 else 0
      ensures trace == old(trace) + if went then SubmitEvents(0, Proof(sol, state), a) else []
      ensures !went ==> r == None && mgr.db.tables == old(mgr.db.tables)
      ensures r.Some? ==> r.value == old(mgr.nextNonce) && r.value !in old(mgr.db.tables).txs
    {
      hide Run, EffectiveTarget, SubmitEvents, ValidateSolution, Goes;
      went := false;
      var verdict := ValidateSolution(sol, state);
      if verdict != Contract.Accepted || recheck == None {
        return None, went;
      }
      if recheck.value != sol.challenge {
        staleSolutions := staleSolutions + 1;
        return None, went;
      }
      r, went := Submit(Proof(sol, state), a);
    }

    /** do_submit of an accepted solution, with the run that it continues. */
    method Submit(p: Proof, a: Answers) returns (r: Option<nat>, ghost went: bool)
      requires Linked() && mgr.nextNonce < U64_MAX
      requires ValidateSolution(p.sol, p.state) == Contract.Accepted
      requires p.state.effectiveTarget == EffectiveTarget(p.state.target, cfg.divisor)
      requires cfg.fees.gasLimitOverride == None ==> MIN_GAS_LIMIT <= cfg.fees.gasLimitCap
      modifies this`hadSuccess, this`submittedTxs, this`trace, mgr, mgr.db
      ensures Linked()
      ensures went == ((skipSimulateAfterSuccess && old(hadSuccess)) || a.simulated)
      ensures r == if went && Goes(a) && a.sent.Landed? && a.sent.io then Some(old(mgr.nextNonce)) else None
      ensures hadSuccess == (old(hadSuccess) || r.Some?)
      ensures submittedTxs == old(submittedTxs) + if r.Some? then 1 else 0
      ensures mgr.nextNonce == old(mgr.nextNonce) + if went then 1 else 0
      ensures trace == old(trace) + if went then SubmitEvents(0, p, a) else []
      ensures !went ==> mgr.db.tables == old(mgr.db.tables)
      ensures old(mgr.nextNonce) !in old(mgr.db.tables).txs
    {
      hide Run, EffectiveTarget, SubmitEvents, AfterSubmit, PlanFor, MineCalldata, CallsMine, ValidateSolution,
           ProofIsValid, Goes;
      SubmitReached(cfg, trace, 0, p, a);
      went := (skipSimulateAfterSuccess && hadSuccess) || a.simulated;
      r := DoSubmit(p, a);
      if went {
        trace := trace + SubmitEvents(0, p, a);
      }
    }

    /** One turn of receipt_watcher_loop: it lists what is pending and goes through the list. */
    method ReceiptTurn(txs: seq<TxRecord>, answers: seq<Receipt>)
      requires Linked() && IsPendingList(mgr.db.tables, txs) && |txs| == |answers|
      modifies this`confirmations, this`failures, this`trace, mgr.db
      ensures Linked() && trace == old(trace) + PassEvents(txs, answers)
    {
      hide Run, AfterReceipts, CountedAs, PassEvents, IsPendingList;
      ReceiptPassReached(cfg, trace, txs, answers, []);
      ReceiptPass(txs, answers);
      trace := trace + PassEvents(txs, answers);
    }

    /** One turn of replacement_loop. */
    method ReplacementTurn(block: nat, txs: seq<TxRecord>, answers: seq<Sent>)
      requires Linked() && IsPendingList(mgr.db.tables, txs) && |txs| == |answers|
      modifies this`replacements, this`trace, mgr.db
      ensures Linked()
      ensures trace == old(trace) + ([ReplaceList(block, txs)] + ReplaceEvents(cfg, block, txs, answers))
    {
      hide Run, AfterReplacements, ReplaceEvents, Replacements, IsPendingList;
      ReplacePassReached(cfg, trace, block, txs, answers);
      ReplacementPass(block, txs, answers);
      trace := trace + ([ReplaceList(block, txs)] + ReplaceEvents(cfg, block, txs, answers));
    }

    /** Returns the account nonce where the source returns an accepted result. */
    method DoSubmit(p: Proof, a: Answers) returns (r: Option<nat>)
      requires mgr.nextNonce < U64_MAX
      requires cfg.fees.gasLimitOverride == None ==> MIN_GAS_LIMIT <= cfg.fees.gasLimitCap
      modifies this`hadSuccess, this`submittedTxs, mgr, mgr.db
      ensures var goes := (skipSimulateAfterSuccess && old(hadSuccess)) || a.simulated;
        && mgr.nextNonce == old(mgr.nextNonce) + (if goes then 1 else 0)
        && mgr.db.tables == (if goes then AfterSubmit(cfg, old(mgr.db.tables), old(mgr.nextNonce), p, a)
             else old(mgr.db.tables))
        && r == if goes && Goes(a) && a.sent.Landed? && a.sent.io then Some(old(mgr.nextNonce)) else None
      ensures hadSuccess == (old(hadSuccess) || r.Some?)
      ensures submittedTxs == old(submittedTxs) + if r.Some? then 1 else 0
    {
      hide PlanGas, LateBump, ToDecimal;
      var skip := skipSimulateAfterSuccess && hadSuccess;
      if !skip && !a.simulated {
        return None;
      }
      var plan := PlanFor(cfg, p, a);
      var n := mgr.Allocate(RowFor(p, plan), a.ioStore, a.ioInsert);
      if n == None || !a.signed {
        return None;
      }
      match a.sent {
        case Lost(io) =>
          var _ := mgr.db.SetStatus(n.value, Failed, io);
          return None;
        case Landed(hash, io) =>
          var stored := mgr.db.SetTxHash(n.value, hash, io);
          if !stored {
            return None;
          }
      }
      submittedTxs := submittedTxs + 1;
      hadSuccess := true;
      return n;
    }

    /** One pass of receipt_watcher_loop over the pending transactions it listed. */
    method ReceiptPass(txs: seq<TxRecord>, answers: seq<Receipt>)
      requires |txs| == |answers|
      modifies this`confirmations, this`failures, mgr.db
      ensures mgr.db.tables == AfterReceipts(old(mgr.db.tables), txs, answers)
      ensures confirmations == old(confirmations) + |CountedAs(txs, answers, true)|
      ensures failures == old(failures) + |CountedAs(txs, answers, false)|
    {
      for i := 0 to |txs|
        invariant AfterReceipts(mgr.db.tables, txs[i..], answers[i..]) == AfterReceipts(old(mgr.db.tables), txs,
            answers)
        invariant confirmations + |CountedAs(txs[i..], answers[i..], true)| == old(confirmations)
            + |CountedAs(txs, answers, true)|
        invariant failures + |CountedAs(txs[i..], answers[i..], false)| == old(failures)
            + |CountedAs(txs, answers, false)|
      {
        hide UpdateStatus;
        var tx := txs[i];
        assert txs[i..][1..] == txs[i + 1..] && answers[i..][1..] == answers[i + 1..];
        if tx.rawTxHash == "" {
          continue;
        }
        match answers[i] {
          case Missing =>
          case Found(success, io) =>
            var _ := mgr.db.SetStatus(tx.txNonce, Outcome(success), io);
            if success {
              confirmations := confirmations + 1;
            } else {
              failures := failures + 1;
            }
        }
      }
    }

    /** One pass of replacement_loop over the pending transactions it listed. */
    method ReplacementPass(block: nat, txs: seq<TxRecord>, answers: seq<Sent>)
      requires |txs| == |answers|
      modifies this`replacements, mgr.db
      ensures mgr.db.tables == AfterReplacements(cfg, old(mgr.db.tables), block, txs, answers)
      ensures replacements == old(replacements) + |TakenNonces(cfg, block, txs, answers)|
    {
      for i := 0 to |txs|
        invariant AfterReplacements(cfg, mgr.db.tables, block, txs[i..], answers[i..])
               == AfterReplacements(cfg, old(mgr.db.tables), block, txs, answers)
        invariant replacements + |TakenNonces(cfg, block, txs[i..], answers[i..])|
               == old(replacements) + |TakenNonces(cfg, block, txs, answers)|
      {
        hide UpdateStatus, UpdateFee, UpdateTxHash, Bump, ReadMarked;
        var tx := txs[i];
        assert txs[i..][1..] == txs[i + 1..] && answers[i..][1..] == answers[i + 1..];
        var age := if block < tx.createdAtBlock then 0 else block - tx.createdAtBlock;
        if age < cfg.replaceAfterBlocks {
          continue;
        }
        var plan := Bump(tx.plan, cfg.fees.bumpPercent, cfg.fees.cap);
        if plan.maxFee == tx.plan.maxFee && plan.priority == tx.plan.priority {
          continue;
        }
        if ReadMarked(tx.calldata) == None {
          continue;
        }
        match answers[i] {
          case Unsigned =>
          case Taken(hash, ioFee, ioHash) =>
            var _ := mgr.db.SetFee(tx.txNonce, plan, ioFee);
            var _ := mgr.db.SetTxHash(tx.txNonce, hash, ioHash);
            replacements := replacements + 1;
          case Refused(tooLow, io) =>
            if tooLow {
              var _ := mgr.db.SetStatus(tx.txNonce, Replaced, io);
            }
        }
      }
    }
  }

  /** The start of a process on a database that some run has left, after a crash or for the first time. */
  method Launch(cfg: Config, skipSimulateAfterSuccess: bool, db: Connection, pending: Option<nat>, latest: Option<nat>,
                ioLoad: bool, ioStore: bool, ghost before: seq<Event>)
    returns (r: Option<Submitter>)
    requires Run(cfg, before).db == db.tables && Run(cfg, before).mem == None
    requires FirstNonce(db.tables, pending, latest) <= U64_MAX
    modifies db
    ensures r.Some? <==> ioLoad && ioStore
    ensures r.Some? ==> fresh(r.value) && r.value.mgr.db == db && r.value.Linked()
    ensures r.Some? ==> r.value.trace == before + [Start(pending, latest, ioLoad, ioStore)]
  {
    hide Run, FirstNonce, ToDecimal, NextTask, NextLock, NextReceipt, NextReplace;
    var mgr := Open(db, pending, latest, ioLoad, ioStore);
    if mgr == None {
      return None;
    }
    ghost var start := [Start(pending, latest, ioLoad, ioStore)];
    RunContinues(cfg, before, start);
    RunFromOne(cfg, Run(cfg, before), start[0]);
    var submitter := new Submitter(cfg, skipSimulateAfterSuccess, mgr.value, before + start);
    return Some(submitter);
  }
}
