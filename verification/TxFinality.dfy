/** What the receipt and replacement loops may do to a row's status, and how often a nonce is counted. */
module TxFinality {
  import opened Contract
  import opened Gas
  import opened Text
  import opened Db
  import opened TxNonceManager
  import opened TxMachine
  import TxSafety

  // ---------- Pending is left for good ----------

  /** Rows stay, and no row that has left pending returns to it. */
  ghost predicate NoReturn(db: Tables, db': Tables) {
    forall n :: n in db.txs ==> n in db'.txs && (db.txs[n].status != Pending ==> db'.txs[n].status != Pending)
  }

  lemma UpdatesNeverReturn(db: Tables, n: nat, hash: string, status: Status, plan: GasPlan)
    requires status != Pending
    ensures NoReturn(db, UpdateTxHash(db, n, hash))
    ensures NoReturn(db, UpdateStatus(db, n, status))
    ensures NoReturn(db, UpdateFee(db, n, plan))
  {
  }

  lemma TaskNeverReturns(cfg: Config, s: State, e: Event)
    requires s.mem.Some?
    ensures NoReturn(s.db, NextTask(cfg, s, s.mem.value, e).db)
  {
    hide LateBump, PlanGas, ValidateSolution, EffectiveTarget;
    var m := s.mem.value;
    match e
    case SendErr(t, io) =>
      if t in m.tasks && m.tasks[t].Sending? {
        UpdatesNeverReturn(s.db, m.tasks[t].tx.nonce, "", Failed, m.tasks[t].tx.plan);
      }
    case _ =>
  }

  lemma LoopsNeverReturn(cfg: Config, s: State, e: Event)
    requires s.mem.Some?
    ensures NoReturn(s.db, NextReceipt(s, s.mem.value, e).db)
    ensures NoReturn(s.db, NextReplace(cfg, s, s.mem.value, e).db)
  {
    hide ToDecimal, IsPendingList, Bump, ReadMarked;
  }

  lemma LockNeverReturns(s: State, e: Event)
    requires s.mem.Some? && TxSafety.NonceInv(s)
    ensures NoReturn(s.db, NextLock(s, s.mem.value, e).db)
  {
    hide ToDecimal, RowFor;
  }

  lemma NextNeverReturns(cfg: Config, s: State, e: Event)
    requires TxSafety.NonceInv(s)
    ensures NoReturn(s.db, Next(cfg, s, e).db)
  {
    hide NextTask, NextLock, NextReceipt, NextReplace, FirstNonce, ToDecimal, TxSafety.NonceInv;
    if s.mem.Some? {
      TaskNeverReturns(cfg, s, e);
      LockNeverReturns(s, e);
      LoopsNeverReturn(cfg, s, e);
    }
  }

  /** Rows that have left pending never return to it, however the tasks and loops interleave, fail and restart. */
  lemma {:induction false} PendingIsLeftForGood(cfg: Config, events: seq<Event>, k: nat)
    requires k <= |events|
    ensures NoReturn(Run(cfg, events[..k]).db, Run(cfg, events).db)
  {
    hide Next;
    if k == |events| {
      assert events[..k] == events;
    } else {
      var before := events[..|events| - 1];
      assert before[..k] == events[..k];
      PendingIsLeftForGood(cfg, before, k);
      TxSafety.RunNonces(cfg, before);
      NextNeverReturns(cfg, Run(cfg, before), events[|events| - 1]);
    }
  }

  // ---------- Counting ----------

  ghost predicate Has(q: seq<TxRecord>, n: nat) {
    exists i :: 0 <= i < |q| && q[i].txNonce == n
  }

  ghost predicate Distinct(q: seq<TxRecord>) {
    forall i, j :: 0 <= i < j < |q| ==> q[i].txNonce != q[j].txNonce
  }

  /** n has been counted, although every status write for it succeeded. */
  ghost predicate CleanlyCounted(h: History, n: nat) {
    n in h.counted && n !in h.unwritten
  }

  function Queue(r: Receipts): seq<TxRecord> {
    match r
    case RIdle => []
    case RWorking(q) => q
    case RCounting(n, q) => q
  }

  ghost predicate CountedOk(db: Tables, h: History) {
    && (forall n :: n in h.counted ==> n in db.txs)
    && (forall n :: CleanlyCounted(h, n) ==> n in db.txs && db.txs[n].status != Pending)
    && (forall i, j :: 0 <= i < j < |h.counted| && h.counted[i] == h.counted[j] ==> h.counted[i] in h.unwritten)
  }

  ghost predicate ReceiptsOk(db: Tables, h: History, r: Receipts) {
    && Distinct(Queue(r))
    && (forall n :: Has(Queue(r), n) ==> n in db.txs && !CleanlyCounted(h, n))
    && (r.RCounting? ==>
          && r.n in db.txs && !Has(r.queue, r.n) && !CleanlyCounted(h, r.n)
          && (r.n !in h.unwritten ==> db.txs[r.n].status != Pending))
  }

  ghost predicate CountInv(s: State) {
    CountedOk(s.db, s.hist) && (s.mem.Some? ==> ReceiptsOk(s.db, s.hist, s.mem.value.receipts))
  }

  /** Steps other than the receipt loop's leave its queue and the counts alone. */
  lemma OthersKeepCounts(s: State, s': State)
    requires CountInv(s) && NoReturn(s.db, s'.db)
    requires s'.hist.counted == s.hist.counted && s'.hist.unwritten == s.hist.unwritten
    requires s'.mem.Some? ==>
        s'.mem.value.receipts == RIdle || (s.mem.Some? && s'.mem.value.receipts == s.mem.value.receipts)
    ensures CountInv(s')
  {
  }

  lemma ListCounts(s: State, l: seq<TxRecord>)
    requires CountInv(s) && IsPendingList(s.db, l)
    ensures ReceiptsOk(s.db, s.hist, RWorking(l))
  {
    hide ReadRow;
  }

  lemma FoundCounts(s: State, success: bool, io: bool)
    requires CountInv(s) && s.mem.Some?
    ensures CountInv(NextReceipt(s, s.mem.value, ReceiptFound(success, io)))
  {
    var r := s.mem.value.receipts;
    if r.RWorking? && r.queue != [] && r.queue[0].rawTxHash != "" {
      var n := r.queue[0].txNonce;
      assert Has(r.queue, n);
      TailHas(r.queue);
    }
  }

  lemma TailHas(q: seq<TxRecord>)
    requires q != [] && Distinct(q)
    ensures Distinct(q[1..]) && !Has(q[1..], q[0].txNonce)
    ensures forall n :: Has(q[1..], n) ==> Has(q, n)
  {
    forall n | Has(q[1..], n) ensures Has(q, n) {
      var i :| 0 <= i < |q[1..]| && q[1..][i].txNonce == n;
      assert q[i + 1].txNonce == n;
    }
  }

  lemma CountCounts(s: State)
    requires CountInv(s) && s.mem.Some?
    ensures CountInv(NextReceipt(s, s.mem.value, ReceiptCount))
  {
    var r := s.mem.value.receipts;
    if r.RCounting? {
      var h := s.hist.(counted := s.hist.counted + [r.n]);
      assert forall n :: n in h.counted <==> n in s.hist.counted || n == r.n;
    }
  }

  lemma ReceiptCounts(s: State, e: Event)
    requires CountInv(s) && s.mem.Some?
    ensures CountInv(NextReceipt(s, s.mem.value, e))
  {
    match e
    case ReceiptFound(success, io) => FoundCounts(s, success, io);
    case ReceiptCount => CountCounts(s);
    case ReceiptList(l) =>
      hide IsPendingList, CountedOk;
      if IsPendingList(s.db, l) {
        ListCounts(s, l);
      }
    case ReceiptSkip =>
      hide CountedOk, CleanlyCounted, Has, Distinct;
      var r := s.mem.value.receipts;
      if r.RWorking? && r.queue != [] {
        TailHas(r.queue);
      }
    case _ =>
  }

  /** The receipt loop's queue and counts are as they were, and no status write is forgotten. */
  ghost predicate LeavesCounts(s: State, s': State) {
    && s'.hist.counted == s.hist.counted && s'.hist.unwritten == s.hist.unwritten
    && s.hist.written <= s'.hist.written
    && (s'.mem.Some? ==>
          s'.mem.value.receipts == RIdle || (s.mem.Some? && s'.mem.value.receipts == s.mem.value.receipts))
  }

  lemma TaskLeavesCounts(cfg: Config, s: State, e: Event)
    requires s.mem.Some?
    ensures LeavesCounts(s, NextTask(cfg, s, s.mem.value, e))
  {
    hide LateBump, PlanGas, ValidateSolution, EffectiveTarget, UpdateTxHash, UpdateStatus;
  }

  lemma LockLeavesCounts(s: State, e: Event)
    requires s.mem.Some?
    ensures LeavesCounts(s, NextLock(s, s.mem.value, e))
  {
    hide RowFor, InsertTx, StoreNextNonce;
  }

  lemma ReplaceLeavesCounts(cfg: Config, s: State, e: Event)
    requires s.mem.Some?
    ensures LeavesCounts(s, NextReplace(cfg, s, s.mem.value, e))
  {
    hide IsPendingList, Bump, ReadMarked, UpdateTxHash, UpdateStatus, UpdateFee;
  }

  /** Only the receipt loop touches its queue and its counts. */
  lemma OthersLeaveCounts(cfg: Config, s: State, e: Event)
    requires !e.ReceiptFound? && !e.ReceiptCount? && !e.ReceiptList? && !e.ReceiptSkip?
    ensures LeavesCounts(s, Next(cfg, s, e))
  {
    hide NextTask, NextLock, NextReceipt, NextReplace, FirstNonce, StoreNextNonce;
    if s.mem.Some? {
      TaskLeavesCounts(cfg, s, e);
      LockLeavesCounts(s, e);
      ReplaceLeavesCounts(cfg, s, e);
    }
  }

  lemma NextCounts(cfg: Config, s: State, e: Event)
    requires CountInv(s) && TxSafety.NonceInv(s)
    ensures CountInv(Next(cfg, s, e))
  {
    if e.ReceiptFound? || e.ReceiptCount? || e.ReceiptList? || e.ReceiptSkip? {
      hide CountInv, NextReceipt;
      if s.mem.Some? {
        ReceiptCounts(s, e);
      }
    } else {
      hide Next, NoReturn, CountInv;
      NextNeverReturns(cfg, s, e);
      OthersLeaveCounts(cfg, s, e);
      OthersKeepCounts(s, Next(cfg, s, e));
    }
  }

  lemma {:induction false} RunCounts(cfg: Config, events: seq<Event>)
    ensures CountInv(Run(cfg, events))
  {
    hide Next;
    if |events| > 0 {
      RunCounts(cfg, events[..|events| - 1]);
      TxSafety.RunNonces(cfg, events[..|events| - 1]);
      NextCounts(cfg, Run(cfg, events[..|events| - 1]), events[|events| - 1]);
    }
  }

  /**
   An account nonce whose status writes all succeeded adds at most one to confirmations plus failures,
   over all restarts together, and its row is then out of pending.
   */
  lemma CountedOnce(cfg: Config, events: seq<Event>, i: nat, j: nat)
    requires var h := Run(cfg, events).hist; i < j < |h.counted| && h.counted[i] !in h.unwritten
    ensures var s := Run(cfg, events);
      && s.hist.counted[i] != s.hist.counted[j]
      && s.hist.counted[i] in s.db.txs && s.db.txs[s.hist.counted[i]].status != Pending
  {
    hide Run;
    RunCounts(cfg, events);
    var h := Run(cfg, events).hist;
    assert CleanlyCounted(h, h.counted[i]);
  }

  // ---------- Which nonces can be counted again ----------

  /** A row is pending exactly as long as no status write has touched it. */
  ghost predicate WrittenInv(db: Tables, h: History) {
    && (forall n :: n in h.written ==> n in db.txs)
    && (forall n :: n in db.txs ==> (db.txs[n].status == Pending <==> n !in h.written))
  }

  lemma StatusWritten(db: Tables, h: History, n: nat, status: Status)
    requires WrittenInv(db, h) && status != Pending
    ensures WrittenInv(UpdateStatus(db, n, status), Wrote(h, db, n))
  {
  }

  lemma OthersWritten(db: Tables, h: History, n: nat, hash: string, plan: GasPlan)
    requires WrittenInv(db, h)
    ensures WrittenInv(UpdateTxHash(db, n, hash), h) && WrittenInv(UpdateFee(db, n, plan), h)
  {
  }

  lemma TaskWritten(cfg: Config, s: State, e: Event)
    requires s.mem.Some? && WrittenInv(s.db, s.hist)
    ensures var s' := NextTask(cfg, s, s.mem.value, e); WrittenInv(s'.db, s'.hist)
  {
    hide LateBump, PlanGas, ValidateSolution, EffectiveTarget, UpdateStatus, UpdateTxHash, Wrote;
    var m := s.mem.value;
    match e
    case SendOk(t, hash, io) =>
      if t in m.tasks && m.tasks[t].Sending? {
        OthersWritten(s.db, s.hist, m.tasks[t].tx.nonce, hash, m.tasks[t].tx.plan);
      }
    case SendErr(t, io) =>
      if t in m.tasks && m.tasks[t].Sending? {
        StatusWritten(s.db, s.hist, m.tasks[t].tx.nonce, Failed);
      }
    case _ =>
  }

  lemma ReceiptWritten(s: State, e: Event)
    requires s.mem.Some? && WrittenInv(s.db, s.hist)
    ensures var s' := NextReceipt(s, s.mem.value, e); WrittenInv(s'.db, s'.hist)
  {
    hide IsPendingList, UpdateStatus, Wrote;
    var m := s.mem.value;
    match e
    case ReceiptFound(success, io) =>
      if m.receipts.RWorking? && m.receipts.queue != [] {
        StatusWritten(s.db, s.hist, m.receipts.queue[0].txNonce, if success then Success else Failed);
      }
    case _ =>
  }

  lemma ReplaceWritten(cfg: Config, s: State, e: Event)
    requires s.mem.Some? && WrittenInv(s.db, s.hist)
    ensures var s' := NextReplace(cfg, s, s.mem.value, e); WrittenInv(s'.db, s'.hist)
  {
    hide IsPendingList, Bump, ReadMarked, UpdateStatus, UpdateTxHash, UpdateFee, Wrote;
    var r := s.mem.value.replacer;
    match e
    case ReplaceFee(io) =>
      if r.PSending? {
        OthersWritten(s.db, s.hist, r.n, "", r.plan);
      }
    case ReplaceHash(hash, io) =>
      if r.PFeeWritten? {
        OthersWritten(s.db, s.hist, r.n, hash, GasPlan(0, 0, 0));
      }
    case ReplaceErr(tooLow, io) =>
      if r.PSending? {
        StatusWritten(s.db, s.hist, r.n, Replaced);
      }
    case _ =>
  }

  lemma LockWritten(s: State, e: Event)
    requires s.mem.Some? && WrittenInv(s.db, s.hist) && TxSafety.NonceInv(s)
    ensures var s' := NextLock(s, s.mem.value, e); WrittenInv(s'.db, s'.hist)
  {
    hide ToDecimal, Marked, MineCalldata;
  }

  lemma NextWritten(cfg: Config, s: State, e: Event)
    requires WrittenInv(s.db, s.hist) && TxSafety.NonceInv(s)
    ensures WrittenInv(Next(cfg, s, e).db, Next(cfg, s, e).hist)
  {
    hide NextTask, NextLock, NextReceipt, NextReplace, FirstNonce, TxSafety.NonceInv, ToDecimal;
    if s.mem.Some? {
      TaskWritten(cfg, s, e);
      LockWritten(s, e);
      ReceiptWritten(s, e);
      ReplaceWritten(cfg, s, e);
    }
  }

  lemma {:induction false} RunWritten(cfg: Config, events: seq<Event>)
    ensures WrittenInv(Run(cfg, events).db, Run(cfg, events).hist)
  {
    hide Next;
    if |events| > 0 {
      var before := events[..|events| - 1];
      RunWritten(cfg, before);
      TxSafety.RunNonces(cfg, before);
      NextWritten(cfg, Run(cfg, before), events[|events| - 1]);
    }
  }

  /**
   In every run, a nonce already counted is listed for counting again exactly if no status write of it
   has succeeded, the receipt loop's or another's. (Beyond the 500 highest, it has to wait its turn.)
   */
  lemma ListedAgainExactly(cfg: Config, events: seq<Event>, l: seq<TxRecord>, n: nat)
    requires var s := Run(cfg, events); n in s.hist.counted && IsPendingList(s.db, l)
    ensures var s := Run(cfg, events);
      && n in s.db.txs && (s.db.txs[n].status == Pending <==> n !in s.hist.written)
      && (Has(l, n) ==> n !in s.hist.written)
      && (n !in s.hist.written ==> Has(l, n) || (|l| == 500 && n < l[499].txNonce))
  {
    hide Run, ReadRow;
    RunCounts(cfg, events);
    RunWritten(cfg, events);
  }

  /** Nothing is left of n for the receipt loop to count. */
  ghost predicate Done(s: State, n: nat) {
    && n in s.hist.written
    && (s.mem.Some? ==>
          !Has(Queue(s.mem.value.receipts), n)
              && !(s.mem.value.receipts.RCounting? && s.mem.value.receipts.n == n))
  }

  lemma ReceiptDone(s: State, e: Event, n: nat)
    requires s.mem.Some? && Done(s, n) && CountInv(s) && WrittenInv(s.db, s.hist)
    ensures var s' := NextReceipt(s, s.mem.value, e);
      Done(s', n) && multiset(s'.hist.counted)[n] == multiset(s.hist.counted)[n]
  {
    hide CountedOk, CleanlyCounted, ReadRow, UpdateStatus;
    var r := s.mem.value.receipts;
    if r.RWorking? && r.queue != [] {
      assert Has(r.queue, r.queue[0].txNonce);
      TailHas(r.queue);
    }
  }

  lemma OthersDone(s: State, s': State, n: nat)
    requires Done(s, n) && LeavesCounts(s, s')
    ensures Done(s', n) && multiset(s'.hist.counted)[n] == multiset(s.hist.counted)[n]
  {
  }

  lemma NextDone(cfg: Config, s: State, e: Event, n: nat)
    requires Done(s, n) && CountInv(s) && WrittenInv(s.db, s.hist)
    ensures Done(Next(cfg, s, e), n) && multiset(Next(cfg, s, e).hist.counted)[n] == multiset(s.hist.counted)[n]
  {
    if e.ReceiptFound? || e.ReceiptCount? || e.ReceiptList? || e.ReceiptSkip? {
      hide NextReceipt, Done, CountInv;
      if s.mem.Some? {
        ReceiptDone(s, e, n);
      }
    } else {
      hide Next, CountInv, Done, LeavesCounts;
      OthersLeaveCounts(cfg, s, e);
      OthersDone(s, Next(cfg, s, e), n);
    }
  }

  /**
   Once a status write of n has succeeded and the receipt loop's present snapshot is past it, n is never
   counted again, in any continuation, over all restarts.
   */
  lemma {:induction false} NeverCountedAgain(cfg: Config, events: seq<Event>, more: seq<Event>, n: nat)
    requires Done(Run(cfg, events), n)
    ensures Done(Run(cfg, events + more), n)
    ensures multiset(Run(cfg, events + more).hist.counted)[n] == multiset(Run(cfg, events).hist.counted)[n]
    decreases |more|
  {
    hide Next, Done;
    if |more| == 0 {
      assert events + more == events;
    } else {
      var init, e := more[..|more| - 1], more[|more| - 1];
      var all, before := events + more, events + init;
      assert all[..|all| - 1] == before && all[|all| - 1] == e;
      NeverCountedAgain(cfg, events, init, n);
      RunCounts(cfg, before);
      RunWritten(cfg, before);
      NextDone(cfg, Run(cfg, before), e, n);
    }
  }
}
