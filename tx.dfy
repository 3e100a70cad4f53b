/**
 * The transaction discipline of src/catgpt/storage/tx.py.
 *
 * The `transactional` wrapper runs in two halves around the wrapped body:
 * `Begin` (lines 61-74) and `Finish` (lines 76-94). Whatever the body does in
 * between (including nested wrapped calls, which join) happens to the ambient
 * transaction held by a `TxContext`, the model of the `ContextVar`.
 */
module Tx {
  import opened Wrappers
  import opened Sqlite3Datasource

  datatype TxState = Init | Committed | Rolledback | Closed

  /** `TxState(...).value` */
  function StateValue(s: TxState): (v: int)
    ensures 0 <= v <= 3
    ensures v == 0 <==> s == Init
  {
    match s
    case Init => 0
    case Committed => 1
    case Rolledback => 2
    case Closed => 3
  }

  class Transaction {
    const connection: Connection
    const txType: string
    var state: TxState

    constructor (connection: Connection, txType: string)
      ensures this.connection == connection && this.txType == txType && state == Init
    {
      this.connection := connection;
      this.txType := txType;
      state := Init;
    }

    /** `is_end()` */
    predicate IsEnd()
      reads this
    {
      state != Init
    }

    method Commit()
      modifies this, connection
      ensures state == Committed && connection.ops == old(connection.ops) + [CommitOp]
    {
      connection.Commit();
      state := Committed;
    }

    /** `commit()` when the connection's commit raises: the exception leaves `state` unset. */
    method FailedCommit()
      modifies connection
      ensures state == old(state) && connection.ops == old(connection.ops) + [CommitOp]
    {
      connection.Commit();
    }

    method Rollback()
      modifies this, connection
      ensures state == Rolledback && connection.ops == old(connection.ops) + [RollbackOp]
    {
      connection.Rollback();
      state := Rolledback;
    }

    /** Closing a pooled connection hands a connection back to the pool (see `Connection.Close`). */
    method Close()
      modifies this, connection, connection.releaseTo
      ensures state == Closed && connection.ops == old(connection.ops) + [CloseOp]
      ensures connection.releaseTo != null ==> connection.releaseTo.Released(old(connection.releaseTo.pool))
    {
      connection.Close();
      state := Closed;
    }
  }

  /** The ambient "current transaction" slot. */
  class TxContext {
    var current: Transaction?

    constructor ()
      ensures current == null
    {
      current := null;
    }
  }

  /** What the wrapper's first half leads to. */
  datatype Entry =
    | Entered(tx: Transaction, owner: bool)  // `owner`: this call created the transaction (it holds the token)
    | PoolEmpty                              // awaiting the write pool would block
    | Refused(message: string)               // raised before the body runs

  /** Whether the outermost call's commit raises: the body returned, the transaction was open and the commit failed. */
  predicate CommitRaised(state: TxState, raised: bool, commitRaises: bool) {
    state == Init && !raised && commitRaises
  }

  /**
   * The connection operations the outermost call performs when the body has finished:
   * `raised` says the body raised, `commitRaises` that the connection's commit raises.
   */
  function ExitOps(state: TxState, raised: bool, commitRaises: bool): (ops: seq<ConnOp>)
    ensures |ops| > 0 && ops[|ops| - 1] == CloseOp
    ensures CommitOp in ops <==> state == Init && !raised
    ensures RollbackOp in ops <==> state == Init && (raised || commitRaises)
    ensures CommitRaised(state, raised, commitRaises) ==> ops == [CommitOp, RollbackOp, CloseOp]
    ensures state != Init ==> ops == [CloseOp]
    ensures |ops| <= 3
  {
    if state != Init then [CloseOp]
    else if raised then [RollbackOp, CloseOp]
    else if commitRaises then [CommitOp, RollbackOp, CloseOp]
    else [CommitOp, CloseOp]
  }

  /** Lines 61-74: join the ambient transaction, or open one of the requested kind and bind it. */
  method Begin(context: TxContext, datasource: Sqlite3Datasource, txType: string) returns (entry: Entry)
    requires datasource.Valid()
    modifies context, datasource
    ensures datasource.Valid()
    ensures old(context.current) != null ==>
      && context.current == old(context.current)
      && datasource.pool == old(datasource.pool)
      && (if txType == "write" && old(context.current.txType) != "write"
          then entry == Refused("A read transaction cannot join a write transaction")
          else entry == Entered(old(context.current), false))
    ensures old(context.current) == null && txType == "write" && old(datasource.pool) == [] ==>
      entry == PoolEmpty && context.current == null && datasource.pool == []
    ensures old(context.current) == null && (txType != "write" || old(datasource.pool) != []) ==>
      && entry.Entered? && entry.owner && fresh(entry.tx)
      && context.current == entry.tx
      && entry.tx.state == Init && entry.tx.txType == txType
      && (txType == "write" ==> entry.tx.connection == old(datasource.pool[0]) && datasource.pool == [])
      && (txType != "write" ==> fresh(entry.tx.connection) && entry.tx.connection.releaseTo == null
                                && datasource.pool == old(datasource.pool))
  {
    var tx := context.current;
    var owner := false;
    if tx == null {
      var conn: Connection;
      if txType == "write" {
        var taken := datasource.GetWriteConn();
        if taken.None? {
          return PoolEmpty;
        }
        conn := taken.value;
      } else {
        conn := datasource.GetReadConn();
      }
      tx := new Transaction(conn, txType);
      context.current := tx;
      owner := true;
    }
    if txType == "write" && tx.txType != txType {
      return Refused("A read transaction cannot join a write transaction");
    }
    entry := Entered(tx, owner);
  }

  /**
   * Lines 76-94, once the body has returned (`raised` false) or raised: the outermost call
   * commits or rolls back if the body left the transaction open, then unbinds and closes it;
   * a call that joined does nothing. A commit that raises (`commitRaises`) is caught by the
   * same handler, which rolls back. `raises` says whether the call ends with an exception:
   * the body's own, or the failed commit's.
   */
  method Finish(context: TxContext, tx: Transaction, owner: bool, raised: bool, commitRaises: bool)
    returns (raises: bool)
    requires context.current == tx
    modifies context, tx, tx.connection, tx.connection.releaseTo
    ensures !owner ==> context.current == tx && tx.state == old(tx.state) && tx.connection.ops == old(tx.connection.ops)
    ensures !owner && tx.connection.releaseTo != null ==> tx.connection.releaseTo.pool == old(tx.connection.releaseTo.pool)
    ensures owner ==> context.current == null && tx.state == Closed
    ensures owner ==> tx.connection.ops == old(tx.connection.ops) + ExitOps(old(tx.state), raised, commitRaises)
    ensures owner && tx.connection.releaseTo != null ==> tx.connection.releaseTo.Released(old(tx.connection.releaseTo.pool))
    ensures raises <==> raised || (owner && CommitRaised(old(tx.state), raised, commitRaises))
  {
    raises := raised;
    if !owner {
      return;
    }
    ghost var ops0 := tx.connection.ops;
    ghost var entryState := tx.state;
    if !raised && !tx.IsEnd() {
      if commitRaises {
        tx.FailedCommit();
        raises := true;
      } else {
        tx.Commit();
      }
    }
    if raises && !tx.IsEnd() {
      tx.Rollback();
    }
    ghost var ops1 := tx.connection.ops;
    ghost var exit := ExitOps(entryState, raised, commitRaises);
    assert ops1 == ops0 + exit[..|exit| - 1];
    context.current := null;
    tx.Close();
    assert tx.connection.ops == ops1 + [CloseOp];
  }

  /** `Transactional.retrieve_transaction`: the ambient transaction, or an error when there is none. */
  method RetrieveTransaction(context: TxContext) returns (r: Result<Transaction>)
    ensures r.Ok? <==> context.current != null
    ensures r.Ok? ==> r.value == context.current
  {
    var tx := context.current;
    if tx == null {
      return Err("Transaction not found");
    }
    r := Ok(tx);
  }

  /** `get_transaction`: the ambient transaction, or a new one that is not bound to the context. */
  method GetTransaction(context: TxContext, datasource: Sqlite3Datasource, txType: string) returns (entry: Entry)
    requires datasource.Valid()
    modifies datasource
    ensures datasource.Valid()
    ensures old(context.current) != null ==> entry == Entered(context.current, false) && datasource.pool == old(datasource.pool)
    ensures old(context.current) == null && txType == "write" && old(datasource.pool) == [] ==> entry == PoolEmpty
    ensures old(context.current) == null && (txType != "write" || old(datasource.pool) != []) ==>
      entry.Entered? && fresh(entry.tx) && entry.tx.state == Init && entry.tx.txType == txType
    ensures context.current == old(context.current)
  {
    var tx := context.current;
    if tx != null {
      return Entered(tx, false);
    }
    var conn: Connection;
    if txType == "write" {
      var taken := datasource.GetWriteConn();
      if taken.None? {
        return PoolEmpty;
      }
      conn := taken.value;
    } else {
      conn := datasource.GetReadConn();
    }
    var created := new Transaction(conn, txType);
    entry := Entered(created, false);
  }
}
