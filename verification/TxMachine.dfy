/**
 The life of a transaction in the coordinator: do_submit tasks, the nonce mutex, the receipt loop
 and the replacement loop over one database, with every await and every SQL statement a step of its
 own. RPC answers and I/O failures are chosen by the environment; a crash loses memory only.
 */
module TxMachine {
  import opened Bits
  import opened Contract
  import opened Gas
  import opened Text
  import opened Db
  import opened TxNonceManager

  datatype Config = Config(fees: FeeConfig, divisor: nat, replaceAfterBlocks: nat)

  /** A solution that validate_solution accepted, with the state it was checked against. */
  datatype Proof = Proof(sol: Solution, state: WorkState)

  /** What a row is inserted for: a checked solution and the fees planned for it. */
  datatype Call = Call(proof: Proof, plan: GasPlan)

  /** A signed transaction. */
  datatype Tx = Tx(nonce: nat, plan: GasPlan, calldata: seq<Byte>)

  datatype Task =
    | Checked(proof: Proof)
    | Priced(proof: Proof, plan: GasPlan)
    | Signed(tx: Tx)
    | Sending(tx: Tx)

  /** Who holds the nonce mutex, and how far it got. */
  datatype Lock = Free | Took(task: nat, n: nat) | Stored(task: nat, n: nat)

  datatype Receipts = RIdle | RWorking(queue: seq<TxRecord>) | RCounting(n: nat, queue: seq<TxRecord>)

  datatype Replacer =
    | PIdle
    | PWorking(block: nat, queue: seq<TxRecord>)
    | PSending(block: nat, n: nat, plan: GasPlan, queue: seq<TxRecord>)
    | PFeeWritten(block: nat, n: nat, queue: seq<TxRecord>)

  datatype Memory = Memory(next: nat, lock: Lock, tasks: map<nat, Task>, receipts: Receipts, replacer: Replacer)

  /**
   What has happened, for the record: the nonces allocate returned, the call each was spent on, the
   transactions broadcast, the nonces counted in confirmations or failures, the nonces for which the
   receipt loop failed to write a status, and the rows whose status anything did write.
   */
  datatype History = History(returned: seq<nat>, origin: map<nat, Call>, broadcasts: seq<Tx>, counted: seq<nat>,
                             unwritten: set<nat>, written: set<nat>)

  datatype State = State(db: Tables, mem: Option<Memory>, hist: History)

  const INIT := State(Tables(None, map[]), None, History([], map[], [], [], {}, {}))

  datatype Event =
    | Start(pending: Option<nat>, latest: Option<nat>, ioLoad: bool, ioStore: bool)
    | Crash
    | Submit(task: nat, sol: Solution, epoch: U64, challenge: B256, target: U256, blocksLeft: nat, blockNumber: nat)
    | Price(task: nat, baseFee: Option<U128>, scaledEstimate: nat)
    | Cancel(task: nat)
    | Take(task: nat)
    | StoreNext(io: bool)
    | Insert(io: bool)
    | Send(task: nat)
    | SendOk(task: nat, hash: string, io: bool)
    | SendErr(task: nat, io: bool)
    | ReceiptList(l: seq<TxRecord>)
    | ReceiptSkip
    | ReceiptFound(success: bool, io: bool)
    | ReceiptCount
    | ReplaceList(block: nat, l: seq<TxRecord>)
    | ReplaceNext
    | ReplaceSkip
    | ReplaceFee(io: bool)
    | ReplaceHash(hash: string, io: bool)
    | ReplaceErr(tooLow: bool, io: bool)

  // ---------- The steps ----------

  function WithMem(s: State, m: Memory): State {
    s.(mem := Some(m))
  }

  /** A status write that took place; it has touched a row if there is one. */
  function Wrote(h: History, db: Tables, n: nat): History {
    if n in db.txs then h.(written := h.written + {n}) else h
  }

  function RowFor(p: Proof, plan: GasPlan): Row {
    NewRow(MineCalldata(p.sol.nonce), p.sol.nonce, Marked(p.sol.challenge), p.sol.epoch, plan, p.state.blockNumber)
  }

  /** do_submit up to and after the mutex. */
  ghost function NextTask(cfg: Config, s: State, m: Memory, e: Event): State {
    match e
    case Submit(t, sol, epoch, challenge, target, blocksLeft, blockNumber) =>
      var state := WorkState(epoch, challenge, target, EffectiveTarget(target, cfg.divisor), blocksLeft, blockNumber);
      if t !in m.tasks && ValidateSolution(sol, state) == Accepted then
        WithMem(s, m.(tasks := m.tasks[t := Checked(Proof(sol, state))]))
      else s
    case Price(t, baseFee, scaledEstimate) =>
      if t in m.tasks && m.tasks[t].Checked?
          && (cfg.fees.gasLimitOverride == None ==> MIN_GAS_LIMIT <= cfg.fees.gasLimitCap) then
        var p := m.tasks[t].proof;
        var plan := LateBump(cfg.fees, PlanGas(cfg.fees, baseFee, scaledEstimate), baseFee, p.state.blocksLeft);
        WithMem(s, m.(tasks := m.tasks[t := Priced(p, plan)]))
      else s
    case Cancel(t) =>
      if m.lock.Free? || m.lock.task != t then WithMem(s, m.(tasks := m.tasks - {t})) else s
    case Send(t) =>
      if t in m.tasks && m.tasks[t].Signed? then
        s.(mem := Some(m.(tasks := m.tasks[t := Sending(m.tasks[t].tx)])),
           hist := s.hist.(broadcasts := s.hist.broadcasts + [m.tasks[t].tx]))
      else s
    case SendOk(t, hash, io) =>
      if t in m.tasks && m.tasks[t].Sending? then
        s.(mem := Some(m.(tasks := m.tasks - {t})),
           db := if io then UpdateTxHash(s.db, m.tasks[t].tx.nonce, hash) else s.db)
      else s
    case SendErr(t, io) =>
      if t in m.tasks && m.tasks[t].Sending? then
        var n := m.tasks[t].tx.nonce;
        State(if io then UpdateStatus(s.db, n, Failed) else s.db,
              Some(m.(tasks := m.tasks - {t})),
              if io then Wrote(s.hist, s.db, n) else s.hist)
      else s
    case _ => s
  }

  /** allocate, statement by statement, under the mutex. */
  ghost function NextLock(s: State, m: Memory, e: Event): State {
    match e
    case Take(t) =>
      if m.lock.Free? && t in m.tasks && m.tasks[t].Priced? && m.next < U64_MAX then
        WithMem(s, m.(lock := Took(t, m.next), next := m.next + 1))
      else s
    case StoreNext(io) =>
      if m.lock.Took? then
        if io then s.(mem := Some(m.(lock := Stored(m.lock.task, m.lock.n))), db := StoreNextNonce(s.db, m.next))
        else WithMem(s, m.(lock := Free, tasks := m.tasks - {m.lock.task}))
      else s
    case Insert(io) =>
      if m.lock.Stored? && m.lock.task in m.tasks && m.tasks[m.lock.task].Priced? then
        var t, n := m.lock.task, m.lock.n;
        var p, plan := m.tasks[t].proof, m.tasks[t].plan;
        if io then
          State(InsertTx(s.db, n, RowFor(p, plan)),
                Some(m.(lock := Free, tasks := m.tasks[t := Signed(Tx(n, plan, MineCalldata(p.sol.nonce)))])),
                s.hist.(returned := s.hist.returned + [n], origin := s.hist.origin[n := Call(p, plan)]))
        else WithMem(s, m.(lock := Free, tasks := m.tasks - {t}))
      else s
    case _ => s
  }

  /** receipt_watcher_loop, over the snapshot it took. */
  ghost function NextReceipt(s: State, m: Memory, e: Event): State {
    match e
    case ReceiptList(l) =>
      if (m.receipts.RIdle? || (m.receipts.RWorking? && m.receipts.queue == [])) && IsPendingList(s.db, l) then
        WithMem(s, m.(receipts := RWorking(l)))
      else s
    case ReceiptSkip =>
      if m.receipts.RWorking? && m.receipts.queue != [] then
        WithMem(s, m.(receipts := RWorking(m.receipts.queue[1..])))
      else s
    case ReceiptFound(success, io) =>
      if m.receipts.RWorking? && m.receipts.queue != [] && m.receipts.queue[0].rawTxHash != "" then
        var n := m.receipts.queue[0].txNonce;
        State(if io then UpdateStatus(s.db, n, if success then Success else Failed) else s.db,
              Some(m.(receipts := RCounting(n, m.receipts.queue[1..]))),
              if io then Wrote(s.hist, s.db, n) else s.hist.(unwritten := s.hist.unwritten + {n}))
      else s
    case ReceiptCount =>
      if m.receipts.RCounting? then
        s.(mem := Some(m.(receipts := RWorking(m.receipts.queue))),
            hist := s.hist.(counted := s.hist.counted + [m.receipts.n]))
      else s
    case _ => s
  }

  /** replacement_loop, over the snapshot it took. */
  ghost function NextReplace(cfg: Config, s: State, m: Memory, e: Event): State {
    match e
    case ReplaceList(block, l) =>
      if (m.replacer.PIdle? || (m.replacer.PWorking? && m.replacer.queue == [])) && IsPendingList(s.db, l) then
        WithMem(s, m.(replacer := PWorking(block, l)))
      else s
    case ReplaceNext =>
      if m.replacer.PWorking? && m.replacer.queue != [] then
        var block, rec, rest := m.replacer.block, m.replacer.queue[0], m.replacer.queue[1..];
        var age := if block < rec.createdAtBlock then 0 else block - rec.createdAtBlock;
        var plan := Bump(rec.plan, cfg.fees.bumpPercent, cfg.fees.cap);
        var data := ReadMarked(rec.calldata);
        if age < cfg.replaceAfterBlocks || (plan.maxFee == rec.plan.maxFee && plan.priority == rec.plan.priority)
            || data == None then
          WithMem(s, m.(replacer := PWorking(block, rest)))
        else
          s.(mem := Some(m.(replacer := PSending(block, rec.txNonce, plan, rest))),
             hist := s.hist.(broadcasts := s.hist.broadcasts + [Tx(rec.txNonce, plan, data.value)]))
      else s
    case ReplaceSkip =>
      if m.replacer.PWorking? && m.replacer.queue != [] then
        WithMem(s, m.(replacer := PWorking(m.replacer.block, m.replacer.queue[1..])))
      else s
    case ReplaceFee(io) =>
      if m.replacer.PSending? then
        s.(mem := Some(m.(replacer := PFeeWritten(m.replacer.block, m.replacer.n, m.replacer.queue))),
           db := if io then UpdateFee(s.db, m.replacer.n, m.replacer.plan) else s.db)
      else s
    case ReplaceHash(hash, io) =>
      if m.replacer.PFeeWritten? then
        s.(mem := Some(m.(replacer := PWorking(m.replacer.block, m.replacer.queue))),
           db := if io then UpdateTxHash(s.db, m.replacer.n, hash) else s.db)
      else s
    case ReplaceErr(tooLow, io) =>
      if m.replacer.PSending? then
        State(if tooLow && io then UpdateStatus(s.db, m.replacer.n, Replaced) else s.db,
              Some(m.(replacer := PWorking(m.replacer.block, m.replacer.queue))),
              if tooLow && io then Wrote(s.hist, s.db, m.replacer.n) else s.hist)
      else s
    case _ => s
  }

  ghost function NextProcess(s: State, e: Event): State {
    match e
    case Start(pending, latest, ioLoad, ioStore) =>
      var next := FirstNonce(s.db, pending, latest);
      if s.mem == None && ioLoad && ioStore && next <= U64_MAX then
        State(StoreNextNonce(s.db, next), Some(Memory(next, Free, map[], RIdle, PIdle)), s.hist)
      else s
    case Crash => s.(mem := None)
    case _ => s
  }

  ghost function Next(cfg: Config, s: State, e: Event): State {
    if e.Start? || e.Crash? then NextProcess(s, e)
    else match s.mem
      case None => s
      case Some(m) =>
        if e.Take? || e.StoreNext? || e.Insert? then NextLock(s, m, e)
        else if e.ReceiptList? || e.ReceiptSkip? || e.ReceiptFound? || e.ReceiptCount? then NextReceipt(s, m, e)
        else if e.ReplaceList? || e.ReplaceNext? || e.ReplaceSkip? || e.ReplaceFee? || e.ReplaceHash? ||
                e.ReplaceErr? then NextReplace(cfg, s, m, e)
        else NextTask(cfg, s, m, e)
  }

  ghost function Run(cfg: Config, events: seq<Event>): State {
    if |events| == 0 then INIT else Next(cfg, Run(cfg, events[..|events| - 1]), events[|events| - 1])
  }
}
