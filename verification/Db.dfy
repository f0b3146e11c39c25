/** The SQLite store (db.rs): one atomic step per statement, on the meta and txs tables. */
module Db {
  import opened Bits
  import opened Gas
  import opened Text

  datatype Status = Pending | Success | Failed | Replaced

  /** A row of txs, in its column forms. */
  datatype Row = Row(rawTxHash: string, calldata: string, powNonce: string, challenge: string, epoch: nat,
                     maxFee: string, priority: string, gasLimit: nat, status: Status, createdAtBlock: nat)

  /** A row as list_pending returns it. */
  datatype TxRecord = TxRecord(txNonce: nat, rawTxHash: string, calldata: string, plan: GasPlan, createdAtBlock: nat)

  datatype Tables = Tables(nextNonce: Option<string>, txs: map<nat, Row>)

  const U64_MAX := 0xffff_ffff_ffff_ffff
  const LIST_LIMIT := 500

  function LoadNextNonce(db: Tables): Option<nat> {
    match db.nextNonce
    case None => None
    case Some(s) => ParseUint(s, U64_MAX)
  }

  function StoreNextNonce(db: Tables, n: nat): Tables {
    db.(nextNonce := Some(ToDecimal(n)))
  }

  function NewRow(calldata: seq<Byte>, powNonce: U256, challenge: string, epoch: nat, plan: GasPlan, block: nat): Row {
    Row("", Marked(calldata), ToDecimal(powNonce), challenge, epoch,
        ToDecimal(plan.maxFee), ToDecimal(plan.priority), plan.gasLimit, Pending, block)
  }

  /** INSERT OR REPLACE */
  function InsertTx(db: Tables, n: nat, row: Row): Tables {
    db.(txs := db.txs[n := row])
  }

  function UpdateTxHash(db: Tables, n: nat, hash: string): Tables {
    if n in db.txs then db.(txs := db.txs[n := db.txs[n].(rawTxHash := hash)]) else db
  }

  function UpdateStatus(db: Tables, n: nat, status: Status): Tables {
    if n in db.txs then db.(txs := db.txs[n := db.txs[n].(status := status)]) else db
  }

  function UpdateFee(db: Tables, n: nat, plan: GasPlan): Tables {
    if n in db.txs then
      db.(txs := db.txs[n := db.txs[n].(maxFee := ToDecimal(plan.maxFee), priority := ToDecimal(plan.priority),
                                        gasLimit := plan.gasLimit)])
    else db
  }

  function ReadPlan(row: Row): GasPlan {
    GasPlan(row.gasLimit, ReadFee(row.priority), ReadFee(row.maxFee))
  }

  function ReadRow(n: nat, row: Row): TxRecord {
    TxRecord(n, row.rawTxHash, row.calldata, ReadPlan(row), row.createdAtBlock)
  }

  /** The result of list_pending: the pending rows, highest nonce first, at most 500. */
  ghost predicate IsPendingList(db: Tables, l: seq<TxRecord>) {
    && |l| <= LIST_LIMIT
    && (forall i :: 0 <= i < |l| ==>
          l[i].txNonce in db.txs && db.txs[l[i].txNonce].status == Pending
              && l[i] == ReadRow(l[i].txNonce, db.txs[l[i].txNonce]))
    && (forall i, j :: 0 <= i < j < |l| ==> l[i].txNonce > l[j].txNonce)
    && (forall n :: n in db.txs && db.txs[n].status == Pending ==>
          (exists i :: 0 <= i < |l| && l[i].txNonce == n) || (|l| == LIST_LIMIT && n < l[LIST_LIMIT - 1].txNonce))
  }

  /** The list runs downwards, without a gap: a pending row is missing only below all of 500 that are there. */
  lemma HighestListed(db: Tables, l: seq<TxRecord>, n: nat)
    requires IsPendingList(db, l) && n in db.txs && db.txs[n].status == Pending
    ensures forall i, j :: 0 <= i < j < |l| ==> l[i].txNonce > l[j].txNonce
    ensures (forall i :: 0 <= i < |l| ==> l[i].txNonce != n) ==>
              |l| == 500 && forall i :: 0 <= i < |l| ==> n < l[i].txNonce
  {
    hide ReadRow;
  }

  /** The fees and the calldata that were written are the ones read back. */
  lemma RowReadsBack(n: nat, calldata: seq<Byte>, powNonce: U256, challenge: string, epoch: nat, plan: GasPlan,
      block: nat)
    ensures var r := ReadRow(n, NewRow(calldata, powNonce, challenge, epoch, plan, block));
      r.plan == plan && ReadMarked(r.calldata) == Some(calldata) && r.createdAtBlock == block
  {
    FeeColumn(plan.maxFee);
    FeeColumn(plan.priority);
    MarkedRoundTrip(calldata);
  }

  lemma FeeReadsBack(db: Tables, n: nat, plan: GasPlan)
    requires n in db.txs
    ensures ReadPlan(UpdateFee(db, n, plan).txs[n]) == plan
  {
    FeeColumn(plan.maxFee);
    FeeColumn(plan.priority);
  }

  lemma NextNonceReadsBack(db: Tables, n: nat)
    requires n <= U64_MAX
    ensures LoadNextNonce(StoreNextNonce(db, n)) == Some(n)
  {
    DecimalRoundTrip(n, U64_MAX);
  }

  /** The connection. Every statement may fail, and then changes nothing. */
  class Connection {
    var tables: Tables

    constructor ()
      ensures tables == Tables(None, map[])
    {
      tables := Tables(None, map[]);
    }

    method Store(n: nat, io: bool) returns (ok: bool)
      modifies this
      ensures ok == io && tables == if io then StoreNextNonce(old(tables), n) else old(tables)
    {
      if io {
        tables := tables.(nextNonce := Some(ToDecimal(n)));
      }
      ok := io;
    }

    method Insert(n: nat, row: Row, io: bool) returns (ok: bool)
      modifies this
      ensures ok == io && tables == if io then InsertTx(old(tables), n, row) else old(tables)
    {
      if io {
        tables := tables.(txs := tables.txs[n := row]);
      }
      ok := io;
    }

    method SetTxHash(n: nat, hash: string, io: bool) returns (ok: bool)
      modifies this
      ensures ok == io && tables == if io then UpdateTxHash(old(tables), n, hash) else old(tables)
    {
      if io && n in tables.txs {
        tables := tables.(txs := tables.txs[n := tables.txs[n].(rawTxHash := hash)]);
      }
      ok := io;
    }

    method SetStatus(n: nat, status: Status, io: bool) returns (ok: bool)
      modifies this
      ensures ok == io && tables == if io then UpdateStatus(old(tables), n, status) else old(tables)
    {
      if io && n in tables.txs {
        tables := tables.(txs := tables.txs[n := tables.txs[n].(status := status)]);
      }
      ok := io;
    }

    method SetFee(n: nat, plan: GasPlan, io: bool) returns (ok: bool)
      modifies this
      ensures ok == io && tables == if io then UpdateFee(old(tables), n, plan) else old(tables)
    {
      if io && n in tables.txs {
        var row := tables.txs[n].(maxFee := ToDecimal(plan.maxFee), priority := ToDecimal(plan.priority),
            gasLimit := plan.gasLimit);
        tables := tables.(txs := tables.txs[n := row]);
      }
      ok := io;
    }
  }
}
