/** Account nonces, over every run of the transaction machine: each is returned once, and no row is ever replaced. */
module TxSafety {
  import opened Contract
  import opened Gas
  import opened Text
  import opened Db
  import opened TxNonceManager
  import opened TxMachine

  // ---------- Account nonces ----------

  function Persisted(db: Tables): nat {
    OrZero(LoadNextNonce(db))
  }

  /** The stored next nonce is above every returned nonce and every row, which are the same nonces. */
  ghost predicate StoreOk(db: Tables, hist: History) {
    && (forall n :: n in db.txs ==> n < Persisted(db))
    && (forall n :: n in hist.origin <==> n in db.txs)
    && (forall i :: 0 <= i < |hist.returned| ==> hist.returned[i] in db.txs)
    && (forall i, j :: 0 <= i < j < |hist.returned| ==> hist.returned[i] != hist.returned[j])
  }

  /** The stored next nonce never exceeds the one in memory, and the mutex holder's nonce is new. */
  ghost predicate MemoryOk(db: Tables, m: Memory) {
    && Persisted(db) <= m.next <= U64_MAX
    && (m.lock.Took? ==> Persisted(db) <= m.lock.n && m.lock.n + 1 == m.next)
    && (m.lock.Stored? ==> Persisted(db) == m.next == m.lock.n + 1 && m.lock.n !in db.txs)
    && (!m.lock.Free? ==> m.lock.task in m.tasks && m.tasks[m.lock.task].Priced?)
  }

  ghost predicate NonceInv(s: State) {
    StoreOk(s.db, s.hist) && (s.mem.Some? ==> MemoryOk(s.db, s.mem.value))
  }

  /** Updates that leave the set of rows and the stored next nonce alone. */
  ghost predicate SameNonces(db: Tables, db': Tables) {
    db'.nextNonce == db.nextNonce && db'.txs.Keys == db.txs.Keys
  }

  lemma UpdatesKeepNonces(db: Tables, n: nat, hash: string, status: Status, plan: GasPlan)
    ensures SameNonces(db, UpdateTxHash(db, n, hash))
    ensures SameNonces(db, UpdateStatus(db, n, status))
    ensures SameNonces(db, UpdateFee(db, n, plan))
  {
  }

  lemma StoreNonces(s: State, io: bool)
    requires NonceInv(s) && s.mem.Some?
    ensures NonceInv(NextLock(s, s.mem.value, StoreNext(io)))
  {
    hide ParseUint, ToDecimal;
    NextNonceReadsBack(s.db, s.mem.value.next);
  }

  lemma InsertNonces(s: State, io: bool)
    requires NonceInv(s) && s.mem.Some?
    ensures NonceInv(NextLock(s, s.mem.value, Insert(io)))
  {
    hide ParseUint, ToDecimal, RowFor, MineCalldata;
  }

  lemma LockNonces(s: State, e: Event)
    requires NonceInv(s) && s.mem.Some?
    ensures NonceInv(NextLock(s, s.mem.value, e))
  {
    match e
    case StoreNext(io) => StoreNonces(s, io);
    case Insert(io) => InsertNonces(s, io);
    case _ =>
      hide ParseUint;
  }

  lemma StartNonces(s: State, e: Event)
    requires NonceInv(s)
    ensures NonceInv(NextProcess(s, e))
  {
    match e
    case Start(pending, latest, ioLoad, ioStore) =>
      var next := FirstNonce(s.db, pending, latest);
      if next <= U64_MAX {
        NextNonceReadsBack(s.db, next);
      }
    case _ =>
  }

  lemma TaskNonces(cfg: Config, s: State, e: Event)
    requires NonceInv(s) && s.mem.Some? && !e.Take? && !e.StoreNext? && !e.Insert?
    ensures NonceInv(NextTask(cfg, s, s.mem.value, e))
  {
    hide LateBump, PlanGas, ValidateSolution, EffectiveTarget, ParseUint;
    var m := s.mem.value;
    match e
    case SendOk(t, hash, io) =>
      if t in m.tasks && m.tasks[t].Sending? {
        UpdatesKeepNonces(s.db, m.tasks[t].tx.nonce, hash, Failed, m.tasks[t].tx.plan);
      }
    case SendErr(t, io) =>
      if t in m.tasks && m.tasks[t].Sending? {
        UpdatesKeepNonces(s.db, m.tasks[t].tx.nonce, "", Failed, m.tasks[t].tx.plan);
      }
    case _ =>
  }

  lemma ReceiptNonces(s: State, e: Event)
    requires NonceInv(s) && s.mem.Some?
    ensures NonceInv(NextReceipt(s, s.mem.value, e))
  {
    hide ParseUint, IsPendingList;
  }

  lemma ReplaceNonces(cfg: Config, s: State, e: Event)
    requires NonceInv(s) && s.mem.Some?
    ensures NonceInv(NextReplace(cfg, s, s.mem.value, e))
  {
    hide ParseUint, IsPendingList, Bump, ReadMarked, ToDecimal;
  }

  lemma NextNonces(cfg: Config, s: State, e: Event)
    requires NonceInv(s)
    ensures NonceInv(Next(cfg, s, e))
  {
    hide NonceInv, NextTask, NextLock, NextReceipt, NextReplace, NextProcess;
    StartNonces(s, e);
    if s.mem.Some? {
      LockNonces(s, e);
      ReceiptNonces(s, e);
      ReplaceNonces(cfg, s, e);
      if !e.Take? && !e.StoreNext? && !e.Insert? {
        TaskNonces(cfg, s, e);
      }
    }
  }

  lemma {:induction false} RunNonces(cfg: Config, events: seq<Event>)
    ensures NonceInv(Run(cfg, events))
  {
    hide Next;
    if |events| > 0 {
      RunNonces(cfg, events[..|events| - 1]);
      NextNonces(cfg, Run(cfg, events[..|events| - 1]), events[|events| - 1]);
    }
  }

  /**
   Over every run, with failing writes, crashes, restarts and any chain counts: no account nonce is
   returned twice, and no insertion ever replaces a row.
   */
  lemma NoncesSpentOnce(cfg: Config, events: seq<Event>)
    ensures var s := Run(cfg, events);
      && (forall i, j :: 0 <= i < j < |s.hist.returned| ==> s.hist.returned[i] != s.hist.returned[j])
      && (forall i :: 0 <= i < |s.hist.returned| ==> s.hist.returned[i] < Persisted(s.db))
      && (forall n :: n in s.db.txs ==> n < Persisted(s.db))
      && (s.mem.Some? ==> Persisted(s.db) <= s.mem.value.next)
      && (s.mem.Some? && s.mem.value.lock.Stored? ==> s.mem.value.lock.n !in s.db.txs)
  {
    RunNonces(cfg, events);
  }

  // ---------- What the chain has counted is not used again ----------

  /** The process is up, and neither its next nonce, nor the mutex holder's, nor any returned since is below b. */
  ghost predicate Above(s: State, b: nat, since: nat) {
    && s.mem.Some? && s.mem.value.next >= b
    && (!s.mem.value.lock.Free? ==> s.mem.value.lock.n >= b)
    && since <= |s.hist.returned|
    && forall i :: since <= i < |s.hist.returned| ==> s.hist.returned[i] >= b
  }

  lemma LockAbove(s: State, e: Event, b: nat, since: nat)
    requires Above(s, b, since)
    ensures Above(NextLock(s, s.mem.value, e), b, since)
  {
    hide StoreNextNonce, InsertTx, RowFor, MineCalldata;
  }

  /** Only the mutex holder moves nonces. */
  lemma OthersLeaveNonces(cfg: Config, s: State, e: Event)
    requires s.mem.Some?
    ensures var s' := NextTask(cfg, s, s.mem.value, e);
      && s'.mem.Some? && s'.mem.value.next == s.mem.value.next && s'.mem.value.lock == s.mem.value.lock
      && s'.hist.returned == s.hist.returned
    ensures var s' := NextReceipt(s, s.mem.value, e);
      && s'.mem.Some? && s'.mem.value.next == s.mem.value.next && s'.mem.value.lock == s.mem.value.lock
      && s'.hist.returned == s.hist.returned
    ensures var s' := NextReplace(cfg, s, s.mem.value, e);
      && s'.mem.Some? && s'.mem.value.next == s.mem.value.next && s'.mem.value.lock == s.mem.value.lock
      && s'.hist.returned == s.hist.returned
  {
    hide LateBump, PlanGas, ValidateSolution, EffectiveTarget, UpdateTxHash, UpdateStatus, UpdateFee, IsPendingList,
         Bump, ReadMarked;
  }

  lemma NextAbove(cfg: Config, s: State, e: Event, b: nat, since: nat)
    requires Above(s, b, since) && e != Crash
    ensures Above(Next(cfg, s, e), b, since)
  {
    hide NextTask, NextLock, NextReceipt, NextReplace, FirstNonce;
    LockAbove(s, e, b, since);
    OthersLeaveNonces(cfg, s, e);
  }

  /**
   From the start of a process until it crashes, every nonce returned is at least the counts of transactions
   that the node answered with at the start.
   */
  lemma {:induction false} NoncesAboveChain(cfg: Config, before: seq<Event>, start: Event, more: seq<Event>, b: nat)
    requires Run(cfg, before).mem == None && start.Start? && Run(cfg, before + [start]).mem.Some?
    requires start.pending == Some(b) || start.latest == Some(b)
    requires Crash !in more
    ensures Above(Run(cfg, before + [start] + more), b, |Run(cfg, before).hist.returned|)
    decreases |more|
  {
    hide Next, Above;
    var started := before + [start];
    assert started[..|started| - 1] == before;
    if |more| == 0 {
      StartAbove(cfg, Run(cfg, before), start, b);
      assert started + more == started;
    } else {
      var init, e := more[..|more| - 1], more[|more| - 1];
      var all := started + more;
      assert all[..|all| - 1] == started + init && all[|all| - 1] == e;
      NoncesAboveChain(cfg, before, start, init, b);
      NextAbove(cfg, Run(cfg, started + init), e, b, |Run(cfg, before).hist.returned|);
    }
  }

  lemma StartAbove(cfg: Config, s: State, start: Event, b: nat)
    requires s.mem == None && start.Start? && Next(cfg, s, start).mem.Some?
    requires start.pending == Some(b) || start.latest == Some(b)
    ensures Above(Next(cfg, s, start), b, |s.hist.returned|)
  {
    hide StoreNextNonce;
    FirstNonceIs(s.db, start.pending, start.latest);
    hide FirstNonce;
  }
}
