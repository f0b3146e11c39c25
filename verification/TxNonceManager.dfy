/** The allocation of Ethereum account nonces (tx_nonce_manager.rs): one at a time, written ahead. */
module TxNonceManager {
  import opened Gas
  import opened Text
  import opened Db

  function OrZero(r: Option<nat>): nat {
    if r.Some? then r.value else 0
  }

  /** The first nonce of a fresh process: the largest of the two chain counts and the stored one. */
  function FirstNonce(db: Tables, pending: Option<nat>, latest: Option<nat>): nat {
    Max(Max(OrZero(pending), OrZero(latest)), OrZero(LoadNextNonce(db)))
  }

  /** It is at least each count the node answered with and the stored one, and no more than needed for that. */
  lemma FirstNonceIs(db: Tables, pending: Option<nat>, latest: Option<nat>)
    ensures var n := FirstNonce(db, pending, latest);
      && (pending.Some? ==> n >= pending.value)
      && (latest.Some? ==> n >= latest.value)
      && (LoadNextNonce(db).Some? ==> n >= LoadNextNonce(db).value)
      && (n == 0 || Some(n) == pending || Some(n) == latest || Some(n) == LoadNextNonce(db))
  {
    hide ParseUint;
  }

  /** The tables after an allocation, each of whose two statements may fail. */
  function Allocated(db: Tables, n: nat, row: Row, ioStore: bool, ioInsert: bool): Tables {
    if !ioStore then db
    else if !ioInsert then StoreNextNonce(db, n + 1)
    else InsertTx(StoreNextNonce(db, n + 1), n, row)
  }

  class TxNonceManager {
    var nextNonce: nat
    const db: Connection

    constructor (db: Connection, nextNonce: nat)
      ensures this.db == db && this.nextNonce == nextNonce
    {
      this.db := db;
      this.nextNonce := nextNonce;
    }

    /**
     The body of allocate, run while the mutex is held. The nonce is spent in memory first; it is
     returned only once the successor and the row are both stored.
     */
    method Allocate(row: Row, ioStore: bool, ioInsert: bool) returns (r: Option<nat>)
      requires nextNonce < U64_MAX
      modifies this, db
      ensures nextNonce == old(nextNonce) + 1
      ensures r == if ioStore && ioInsert then Some(old(nextNonce)) else None
      ensures db.tables == Allocated(old(db.tables), old(nextNonce), row, ioStore, ioInsert)
    {
      var n := nextNonce;
      nextNonce := nextNonce + 1;
      var stored := db.Store(nextNonce, ioStore);
      if !stored {
        return None;
      }
      var inserted := db.Insert(n, row, ioInsert);
      if !inserted {
        return None;
      }
      return Some(n);
    }
  }

  /** TxNonceManager::new: fails if the store cannot be read or the first nonce cannot be written. */
  method Open(db: Connection, pending: Option<nat>, latest: Option<nat>, ioLoad: bool, ioStore: bool)
    returns (r: Option<TxNonceManager>)
    modifies db
    ensures r.Some? <==> ioLoad && ioStore
    ensures r.Some? ==>
        fresh(r.value) && r.value.db == db && r.value.nextNonce == FirstNonce(old(db.tables), pending, latest)
    ensures r.Some? ==>
              && (pending.Some? ==> r.value.nextNonce >= pending.value)
              && (latest.Some? ==> r.value.nextNonce >= latest.value)
              && (LoadNextNonce(old(db.tables)).Some? ==> r.value.nextNonce >= LoadNextNonce(old(db.tables)).value)
    ensures db.tables == if r.Some? then StoreNextNonce(old(db.tables), r.value.nextNonce) else old(db.tables)
  {
    if !ioLoad {
      return None;
    }
    var nextNonce := FirstNonce(db.tables, pending, latest);
    FirstNonceIs(db.tables, pending, latest);
    var ok := db.Store(nextNonce, ioStore);
    if !ok {
      return None;
    }
    var mgr := new TxNonceManager(db, nextNonce);
    return Some(mgr);
  }
}
