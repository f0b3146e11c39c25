/**
 Where finality stops: exactly which steps turn a success into something else, runs in which they do,
 and a run that counts one nonce twice.
 */
module TxOverwrites {
  import opened Contract
  import opened Gas
  import opened Text
  import opened Db
  import opened TxNonceManager
  import opened TxMachine
  import opened TxFinality
  import TxSafety

  ghost predicate Succeeded(db: Tables, n: nat) {
    n in db.txs && db.txs[n].status == Success
  }

  // ---------- The receipt loop never revisits a success ----------

  ghost predicate NoneSucceeded(db: Tables, q: seq<TxRecord>) {
    forall n :: Has(q, n) ==> !Succeeded(db, n)
  }

  ghost predicate QueueInv(s: State) {
    s.mem.Some? ==> Distinct(Queue(s.mem.value.receipts)) && NoneSucceeded(s.db, Queue(s.mem.value.receipts))
  }

  ghost predicate NoNewSuccess(db: Tables, db': Tables) {
    forall n :: Succeeded(db', n) ==> Succeeded(db, n)
  }

  lemma TaskSuccess(cfg: Config, s: State, e: Event)
    requires s.mem.Some?
    ensures NoNewSuccess(s.db, NextTask(cfg, s, s.mem.value, e).db)
  {
    hide LateBump, PlanGas, ValidateSolution, EffectiveTarget;
  }

  lemma ReplaceSuccess(cfg: Config, s: State, e: Event)
    requires s.mem.Some?
    ensures NoNewSuccess(s.db, NextReplace(cfg, s, s.mem.value, e).db)
  {
    hide ToDecimal, IsPendingList, Bump, ReadMarked;
  }

  lemma OthersSuccess(cfg: Config, s: State, e: Event)
    requires !e.ReceiptFound?
    ensures NoNewSuccess(s.db, Next(cfg, s, e).db)
  {
    hide NextTask, NextReplace, FirstNonce, IsPendingList, ToDecimal, Marked, ReadRow;
    if s.mem.Some? {
      TaskSuccess(cfg, s, e);
      ReplaceSuccess(cfg, s, e);
    }
  }

  lemma ReceiptQueue(s: State, e: Event)
    requires QueueInv(s) && s.mem.Some?
    ensures QueueInv(NextReceipt(s, s.mem.value, e))
  {
    hide ReadRow;
    var r := s.mem.value.receipts;
    if r.RWorking? && r.queue != [] {
      TailHas(r.queue);
    }
  }

  lemma NextQueue(cfg: Config, s: State, e: Event)
    requires QueueInv(s)
    ensures QueueInv(Next(cfg, s, e))
  {
    if e.ReceiptFound? || e.ReceiptCount? || e.ReceiptList? || e.ReceiptSkip? {
      hide QueueInv, NextReceipt;
      if s.mem.Some? {
        ReceiptQueue(s, e);
      }
    } else {
      hide Next, Succeeded;
      OthersSuccess(cfg, s, e);
      OthersLeaveCounts(cfg, s, e);
    }
  }

  lemma {:induction false} RunQueue(cfg: Config, events: seq<Event>)
    ensures QueueInv(Run(cfg, events))
  {
    hide Next;
    if |events| > 0 {
      RunQueue(cfg, events[..|events| - 1]);
      NextQueue(cfg, Run(cfg, events[..|events| - 1]), events[|events| - 1]);
    }
  }

  // ---------- What does overwrite a success ----------

  /** A replacement of n, signed from a snapshot, that the nodes refuse as too late. */
  ghost predicate LateReplacement(s: State, e: Event, n: nat) {
    e == ReplaceErr(true, true) && s.mem.Some? && s.mem.value.replacer.PSending? && s.mem.value.replacer.n == n
  }

  /** The first send of n, refused after a replacement of it went through. */
  ghost predicate LateRefusal(s: State, e: Event, n: nat) {
    && e.SendErr? && e.io && s.mem.Some? && e.task in s.mem.value.tasks
    && s.mem.value.tasks[e.task].Sending? && s.mem.value.tasks[e.task].tx.nonce == n
  }

  lemma TaskLoses(cfg: Config, s: State, e: Event, n: nat)
    requires s.mem.Some? && Succeeded(s.db, n)
    ensures !Succeeded(NextTask(cfg, s, s.mem.value, e).db, n) <==> LateRefusal(s, e, n)
  {
    hide LateBump, PlanGas, ValidateSolution, EffectiveTarget;
  }

  lemma ReplaceLoses(cfg: Config, s: State, e: Event, n: nat)
    requires s.mem.Some? && Succeeded(s.db, n)
    ensures !Succeeded(NextReplace(cfg, s, s.mem.value, e).db, n) <==> LateReplacement(s, e, n)
  {
    hide ToDecimal, IsPendingList, Bump, ReadMarked;
  }

  lemma ReceiptLoses(s: State, e: Event, n: nat)
    requires s.mem.Some? && Succeeded(s.db, n) && QueueInv(s)
    ensures Succeeded(NextReceipt(s, s.mem.value, e).db, n)
  {
    hide IsPendingList;
    var r := s.mem.value.receipts;
    if r.RWorking? && r.queue != [] {
      assert Has(r.queue, r.queue[0].txNonce);
    }
  }

  lemma RestKeeps(s: State, e: Event, n: nat)
    requires Succeeded(s.db, n) && TxSafety.NonceInv(s)
    ensures Succeeded(NextProcess(s, e).db, n)
    ensures s.mem.Some? ==> Succeeded(NextLock(s, s.mem.value, e).db, n)
  {
    hide FirstNonce, ToDecimal, RowFor;
  }

  /**
   In every run, a success is lost exactly at a step that writes the outcome of a send begun before
   the receipt was seen: a refused replacement or a refused first send. The receipt loop never does it.
   */
  lemma SuccessLostExactly(cfg: Config, events: seq<Event>, e: Event, n: nat)
    requires Succeeded(Run(cfg, events).db, n)
    ensures !Succeeded(Next(cfg, Run(cfg, events), e).db, n)
        <==> LateReplacement(Run(cfg, events), e, n) || LateRefusal(Run(cfg, events), e, n)
  {
    hide Run, NextTask, NextReplace, NextReceipt, NextLock, NextProcess, Succeeded, QueueInv, TxSafety.NonceInv;
    var s := Run(cfg, events);
    RunQueue(cfg, events);
    TxSafety.RunNonces(cfg, events);
    RestKeeps(s, e, n);
    if s.mem.Some? {
      TaskLoses(cfg, s, e, n);
      ReplaceLoses(cfg, s, e, n);
      ReceiptLoses(s, e, n);
    }
  }

  // ---------- Runs in which it happens ----------

  lemma Extend(cfg: Config, events: seq<Event>, e: Event) returns (longer: seq<Event>)
    ensures longer == events + [e] && Run(cfg, longer) == Next(cfg, Run(cfg, events), e)
  {
    hide Next;
    longer := events + [e];
    assert longer[..|longer| - 1] == events;
  }

  lemma ByTask(cfg: Config, events: seq<Event>, e: Event) returns (longer: seq<Event>)
    requires e.Submit? || e.Price? || e.Send? || e.SendOk? || e.SendErr?
    requires Run(cfg, events).mem.Some?
    ensures longer == events + [e] && Run(cfg, longer) == NextTask(cfg, Run(cfg, events), Run(cfg, events).mem.value, e)
  {
    hide Run, NextTask, NextLock, NextReceipt, NextReplace;
    longer := Extend(cfg, events, e);
  }

  lemma ByLock(cfg: Config, events: seq<Event>, e: Event) returns (longer: seq<Event>)
    requires e.Take? || e.StoreNext? || e.Insert?
    requires Run(cfg, events).mem.Some?
    ensures longer == events + [e] && Run(cfg, longer) == NextLock(Run(cfg, events), Run(cfg, events).mem.value, e)
  {
    hide Run, NextTask, NextLock, NextReceipt, NextReplace;
    longer := Extend(cfg, events, e);
  }

  lemma ByReceipts(cfg: Config, events: seq<Event>, e: Event) returns (longer: seq<Event>)
    requires e.ReceiptList? || e.ReceiptSkip? || e.ReceiptFound? || e.ReceiptCount?
    requires Run(cfg, events).mem.Some?
    ensures longer == events + [e] && Run(cfg, longer) == NextReceipt(Run(cfg, events), Run(cfg, events).mem.value, e)
  {
    hide Run, NextTask, NextLock, NextReceipt, NextReplace;
    longer := Extend(cfg, events, e);
  }

  lemma ByReplacer(cfg: Config, events: seq<Event>, e: Event) returns (longer: seq<Event>)
    requires e.ReplaceList? || e.ReplaceNext? || e.ReplaceFee? || e.ReplaceHash? || e.ReplaceErr?
    requires Run(cfg, events).mem.Some?
    ensures longer == events + [e]
        && Run(cfg, longer) == NextReplace(cfg, Run(cfg, events), Run(cfg, events).mem.value, e)
  {
    hide Run, NextTask, NextLock, NextReceipt, NextReplace;
    longer := Extend(cfg, events, e);
  }

  /** An accepted solution, and a fee setting under which its plan can be bumped. */
  ghost predicate CanRun(cfg: Config, p: Proof) {
    && ValidateSolution(p.sol, p.state) == Accepted
    && p.state.effectiveTarget == EffectiveTarget(p.state.target, cfg.divisor)
    && (cfg.fees.gasLimitOverride == None ==> MIN_GAS_LIMIT <= cfg.fees.gasLimitCap)
  }

  ghost function FirstPlan(cfg: Config, p: Proof): GasPlan
    requires CanRun(cfg, p)
  {
    LateBump(cfg.fees, PlanGas(cfg.fees, None, 0), None, p.state.blocksLeft)
  }

  ghost function FirstTx(cfg: Config, p: Proof): Tx
    requires CanRun(cfg, p)
  {
    Tx(0, FirstPlan(cfg, p), MineCalldata(p.sol.nonce))
  }

  ghost function FirstRow(cfg: Config, p: Proof): Row
    requires CanRun(cfg, p)
  {
    RowFor(p, FirstPlan(cfg, p))
  }

  ghost predicate JustSent(cfg: Config, p: Proof, s: State)
    requires CanRun(cfg, p)
  {
    && s.db.txs == map[0 := FirstRow(cfg, p)]
    && s.mem == Some(Memory(1, Free, map[0 := Sending(FirstTx(cfg, p))], RIdle, PIdle))
    && s.hist.counted == []
  }

  lemma Signing(cfg: Config, p: Proof) returns (events: seq<Event>)
    requires CanRun(cfg, p)
    ensures var s := Run(cfg, events);
      && s.db.txs == map[] && s.hist.counted == []
      && s.mem == Some(Memory(0, Free, map[0 := Priced(p, FirstPlan(cfg, p))], RIdle, PIdle))
  {
    hide ValidateSolution, EffectiveTarget, PlanGas, LateBump, ToDecimal, ParseUint;
    assert FirstNonce(INIT.db, None, None) == 0;
    events := Extend(cfg, [], Start(None, None, true, true));
    assert Run(cfg, []) == INIT;
    assert Run(cfg, events).mem == Some(Memory(0, Free, map[], RIdle, PIdle));
    var st := p.state;
    events := ByTask(cfg, events, Submit(0, p.sol, st.epoch, st.challenge, st.target, st.blocksLeft, st.blockNumber));
    assert WorkState(st.epoch, st.challenge, st.target, EffectiveTarget(st.target, cfg.divisor), st.blocksLeft,
        st.blockNumber) == st;
    assert Run(cfg, events).mem == Some(Memory(0, Free, map[0 := Checked(p)], RIdle, PIdle));
    events := ByTask(cfg, events, Price(0, None, 0));
    assert Run(cfg, events).mem.value.tasks == map[0 := Priced(p, FirstPlan(cfg, p))];
  }

  lemma Inserted(cfg: Config, p: Proof) returns (events: seq<Event>)
    requires CanRun(cfg, p)
    ensures var s := Run(cfg, events);
      && s.db.txs == map[0 := FirstRow(cfg, p)] && s.hist.counted == []
      && s.mem == Some(Memory(1, Free, map[0 := Signed(FirstTx(cfg, p))], RIdle, PIdle))
  {
    hide Run, CanRun, FirstPlan, RowFor, ToDecimal, ParseUint, MineCalldata;
    events := Signing(cfg, p);
    events := ByLock(cfg, events, Take(0));
    assert Run(cfg, events).mem.value.lock == Took(0, 0);
    events := ByLock(cfg, events, StoreNext(true));
    assert Run(cfg, events).mem.value.lock == Stored(0, 0);
    events := ByLock(cfg, events, Insert(true));
    assert Run(cfg, events).mem.value.tasks == map[0 := Signed(FirstTx(cfg, p))];
  }

  lemma FirstSend(cfg: Config, p: Proof) returns (events: seq<Event>)
    requires CanRun(cfg, p)
    ensures JustSent(cfg, p, Run(cfg, events))
  {
    hide Run, CanRun, FirstTx, FirstRow;
    events := Inserted(cfg, p);
    events := ByTask(cfg, events, Send(0));
    assert Run(cfg, events).mem.value.tasks == map[0 := Sending(FirstTx(cfg, p))];
  }

  lemma OneRowList(row: Row, db: Tables)
    requires db.txs == map[0 := row] && row.status == Pending
    ensures IsPendingList(db, [ReadRow(0, row)])
  {
    var l := [ReadRow(0, row)];
    assert l[0].txNonce == 0;
  }

  ghost predicate Replaceable(cfg: Config, p: Proof)
    requires CanRun(cfg, p)
  {
    var plan := FirstPlan(cfg, p);
    Bump(plan, cfg.fees.bumpPercent, cfg.fees.cap) != plan
  }

  /** The step of the replacement loop that signs and sends, for the row just inserted. */
  lemma SignReplacement(cfg: Config, p: Proof, s: State, m: Memory, block: nat, row: Row)
    requires CanRun(cfg, p) && Replaceable(cfg, p)
    requires s.mem == Some(m) && m.replacer == PWorking(block, [ReadRow(0, row)])
    requires row == FirstRow(cfg, p).(rawTxHash := row.rawTxHash)
    requires block == p.state.blockNumber + cfg.replaceAfterBlocks
    ensures var s' := NextReplace(cfg, s, m, ReplaceNext);
      var plan := Bump(FirstPlan(cfg, p), cfg.fees.bumpPercent, cfg.fees.cap);
      s'.db == s.db && s'.mem == Some(m.(replacer := PSending(block, 0, plan, []))) && s'.hist.counted == s.hist.counted
  {
    hide CanRun, FirstPlan, Bump, ReadFee, ToDecimal, MineCalldata, Marked, ReadMarked;
    var plan := FirstPlan(cfg, p);
    RowReadsBack(0, MineCalldata(p.sol.nonce), p.sol.nonce, Marked(p.sol.challenge), p.sol.epoch, plan,
        p.state.blockNumber);
    var rec := ReadRow(0, row);
    assert rec.plan == plan && ReadMarked(rec.calldata).Some? && rec.createdAtBlock == p.state.blockNumber;
    BumpKeepsGasLimit(plan, cfg.fees.bumpPercent, cfg.fees.cap);
    assert [rec][1..] == [];
  }

  lemma BumpKeepsGasLimit(plan: GasPlan, percent: nat, cap: U128)
    ensures Bump(plan, percent, cap).gasLimit == plan.gasLimit
  {
  }

  /** For every acceptable solution there is a run in which its success turns into 'replaced'. */
  lemma ReplacedSuccess(cfg: Config, p: Proof) returns (events: seq<Event>, k: nat)
    requires CanRun(cfg, p) && Replaceable(cfg, p)
    ensures k <= |events| && Succeeded(Run(cfg, events[..k]).db, 0)
    ensures 0 in Run(cfg, events).db.txs && Run(cfg, events).db.txs[0].status == Replaced
  {
    hide Run, CanRun, FirstPlan, FirstRow, FirstTx, Replaceable, IsPendingList, ReadRow, Bump, EffectiveTarget,
        ValidateSolution, PlanGas, LateBump, ReadMarked, ToDecimal;
    events := FirstSend(cfg, p);
    TxShape(cfg, p);
    FirstRowShape(cfg, p);
    events := ByTask(cfg, events, SendOk(0, "0x", true));
    var row := FirstRow(cfg, p).(rawTxHash := "0x");
    assert Run(cfg, events).db.txs == map[0 := row];
    var rec := ReadRow(0, row);
    OneRowList(row, Run(cfg, events).db);
    events := ByReceipts(cfg, events, ReceiptList([rec]));
    var block := p.state.blockNumber + cfg.replaceAfterBlocks;
    events := ByReplacer(cfg, events, ReplaceList(block, [rec]));
    SignReplacement(cfg, p, Run(cfg, events), Run(cfg, events).mem.value, block, row);
    events := ByReplacer(cfg, events, ReplaceNext);
    assert rec.rawTxHash == "0x" && rec.txNonce == 0 by { RecShape(row); }
    assert Run(cfg, events).mem.value.receipts == RWorking([rec]);
    events := ByReceipts(cfg, events, ReceiptFound(true, true));
    k := |events|;
    ghost var upto := events;
    assert Succeeded(Run(cfg, upto).db, 0);
    events := ByReplacer(cfg, events, ReplaceErr(true, true));
    assert events[..k] == upto;
  }

  lemma RecShape(row: Row)
    ensures ReadRow(0, row).rawTxHash == row.rawTxHash && ReadRow(0, row).txNonce == 0
  {
  }

  lemma FirstRowShape(cfg: Config, p: Proof)
    requires CanRun(cfg, p)
    ensures FirstRow(cfg, p).status == Pending && FirstRow(cfg, p).rawTxHash == ""
  {
  }

  /** A replacement is on its way while the first send is still unanswered. */
  lemma ReplacedUnanswered(cfg: Config, p: Proof) returns (events: seq<Event>)
    requires CanRun(cfg, p) && Replaceable(cfg, p)
    ensures var s := Run(cfg, events);
      && s.db.txs.Keys == {0} && s.db.txs[0].status == Pending && s.db.txs[0].rawTxHash == "0x"
      && s.mem.Some? && s.mem.value.tasks == map[0 := Sending(FirstTx(cfg, p))] && s.mem.value.receipts == RIdle
  {
    hide Run, CanRun, FirstPlan, FirstRow, FirstTx, Replaceable, IsPendingList, ReadRow, Bump, EffectiveTarget,
        ValidateSolution, PlanGas, LateBump, ReadMarked, ToDecimal;
    events := FirstSend(cfg, p);
    var row := FirstRow(cfg, p);
    FirstRowShape(cfg, p);
    OneRowList(row, Run(cfg, events).db);
    var block := p.state.blockNumber + cfg.replaceAfterBlocks;
    events := ByReplacer(cfg, events, ReplaceList(block, [ReadRow(0, row)]));
    SignReplacement(cfg, p, Run(cfg, events), Run(cfg, events).mem.value, block, row);
    events := ByReplacer(cfg, events, ReplaceNext);
    events := ByReplacer(cfg, events, ReplaceFee(true));
    events := ByReplacer(cfg, events, ReplaceHash("0x", true));
  }

  /**
   For every acceptable solution there is a run in which its success turns into 'failed': a replacement
   goes through and is confirmed while the nodes have not yet answered the first send.
   */
  lemma RefusedSuccess(cfg: Config, p: Proof) returns (events: seq<Event>, k: nat)
    requires CanRun(cfg, p) && Replaceable(cfg, p)
    ensures k <= |events| && Succeeded(Run(cfg, events[..k]).db, 0)
    ensures 0 in Run(cfg, events).db.txs && Run(cfg, events).db.txs[0].status == Failed
  {
    hide Run, CanRun, FirstTx, Replaceable, IsPendingList, ReadRow, EffectiveTarget, ValidateSolution, PlanGas,
        LateBump;
    events := ReplacedUnanswered(cfg, p);
    var row := Run(cfg, events).db.txs[0];
    assert Run(cfg, events).db.txs == map[0 := row];
    OneRowList(row, Run(cfg, events).db);
    RecShape(row);
    TxShape(cfg, p);
    events := ByReceipts(cfg, events, ReceiptList([ReadRow(0, row)]));
    events := ByReceipts(cfg, events, ReceiptFound(true, true));
    k := |events|;
    ghost var upto := events;
    assert Succeeded(Run(cfg, upto).db, 0);
    events := ByTask(cfg, events, SendErr(0, true));
    assert events[..k] == upto;
  }

  lemma TxShape(cfg: Config, p: Proof)
    requires CanRun(cfg, p)
    ensures FirstTx(cfg, p).nonce == 0
  {
  }

  /** For every acceptable solution there is a run that counts its nonce twice: a status write fails. */
  lemma CountedTwice(cfg: Config, p: Proof) returns (events: seq<Event>)
    requires CanRun(cfg, p)
    ensures Run(cfg, events).hist.counted == [0, 0]
  {
    hide Run, CanRun, FirstPlan, FirstRow, FirstTx, IsPendingList, ReadRow, EffectiveTarget, ValidateSolution,
        PlanGas, LateBump, ToDecimal;
    events := FirstSend(cfg, p);
    FirstRowShape(cfg, p);
    TxShape(cfg, p);
    events := ByTask(cfg, events, SendOk(0, "0x", true));
    var row := FirstRow(cfg, p).(rawTxHash := "0x");
    assert Run(cfg, events).db.txs == map[0 := row];
    RecShape(row);
    OneRowList(row, Run(cfg, events).db);
    events := ByReceipts(cfg, events, ReceiptList([ReadRow(0, row)]));
    events := ByReceipts(cfg, events, ReceiptFound(true, false));
    events := ByReceipts(cfg, events, ReceiptCount);
    assert Run(cfg, events).hist.counted == [0] && Run(cfg, events).mem.value.receipts == RWorking([]);
    events := ByReceipts(cfg, events, ReceiptList([ReadRow(0, row)]));
    events := ByReceipts(cfg, events, ReceiptFound(true, true));
    events := ByReceipts(cfg, events, ReceiptCount);
  }

  lemma {:induction false} SkipTo(cfg: Config, events: seq<Event>, q: seq<TxRecord>, i: nat)
    returns (longer: seq<Event>)
    requires i <= |q| && Run(cfg, events).mem.Some? && Run(cfg, events).mem.value.receipts == RWorking(q)
    ensures events <= longer
    ensures var s := Run(cfg, events);
      Run(cfg, longer) == s.(mem := Some(s.mem.value.(receipts := RWorking(q[i..]))))
  {
    hide Run;
    if i == 0 {
      longer := events;
      assert q[0..] == q;
    } else {
      longer := SkipTo(cfg, events, q, i - 1);
      longer := ByReceipts(cfg, longer, ReceiptSkip);
      assert q[i - 1..][1..] == q[i..];
    }
  }

  /**
   Whatever the run so far, if a nonce already counted has no status write and the receipt loop is between
   two passes, there is a continuation that counts it once more.
   */
  lemma CountedAgain(cfg: Config, events: seq<Event>, l: seq<TxRecord>, n: nat) returns (longer: seq<Event>)
    requires var s := Run(cfg, events); s.mem.Some? && s.mem.value.receipts in {RIdle, RWorking([])}
    requires var s := Run(cfg, events);
      n in s.hist.counted && n !in s.hist.written && s.db.txs.Keys >= {n} && s.db.txs[n].rawTxHash != ""
    requires var s := Run(cfg, events); IsPendingList(s.db, l) && (|l| < LIST_LIMIT || n >= l[LIST_LIMIT - 1].txNonce)
    ensures events <= longer
    ensures multiset(Run(cfg, longer).hist.counted)[n] == multiset(Run(cfg, events).hist.counted)[n] + 1
  {
    hide Run, IsPendingList, ReadRow, UpdateStatus;
    ListedAgainExactly(cfg, events, l, n);
    var i :| 0 <= i < |l| && l[i].txNonce == n;
    ListedRow(Run(cfg, events).db, l, i);
    longer := ByReceipts(cfg, events, ReceiptList(l));
    longer := SkipTo(cfg, longer, l, i);
    var counted := Run(cfg, longer).hist.counted;
    assert l[i..][0] == l[i];
    longer := ByReceipts(cfg, longer, ReceiptFound(true, true));
    longer := ByReceipts(cfg, longer, ReceiptCount);
    assert Run(cfg, longer).hist.counted == counted + [n];
  }

  lemma ListedRow(db: Tables, l: seq<TxRecord>, i: nat)
    requires IsPendingList(db, l) && i < |l|
    ensures l[i].txNonce in db.txs && l[i].rawTxHash == db.txs[l[i].txNonce].rawTxHash
  {
  }
}
