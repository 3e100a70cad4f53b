/**
 * The connection pool of src/catgpt/storage/sqlite3_session_storage.py
 * (`ConnectionProxy`, `Sqlite3Datasource`). Writes go through the one pooled
 * connection; reads open a connection of their own.
 */
module Sqlite3Datasource {
  import opened Wrappers

  /** What a transaction does to its connection. */
  datatype ConnOp = CommitOp | RollbackOp | CloseOp

  /**
   * A sqlite3 connection. One taken from the pool comes wrapped by `ConnectionProxy`,
   * whose `close` also calls `release` on the datasource: `releaseTo` is that
   * datasource, and null for a plain read connection.
   */
  class Connection {
    var ops: seq<ConnOp>
    const releaseTo: Sqlite3Datasource?

    constructor (releaseTo: Sqlite3Datasource?)
      ensures ops == [] && this.releaseTo == releaseTo
    {
      ops := [];
      this.releaseTo := releaseTo;
    }

    method Commit()
      modifies this
      ensures ops == old(ops) + [CommitOp]
    {
      ops := ops + [CommitOp];
    }

    method Rollback()
      modifies this
      ensures ops == old(ops) + [RollbackOp]
    {
      ops := ops + [RollbackOp];
    }

    /** Lines 33-40: the proxy releases to its datasource after closing. */
    method Close()
      modifies this, releaseTo
      ensures ops == old(ops) + [CloseOp]
      ensures releaseTo != null ==> releaseTo.Released(old(releaseTo.pool))
      ensures releaseTo != null && old(releaseTo.pool) == [] ==> fresh(releaseTo.pool[0])
    {
      ops := ops + [CloseOp];
      if releaseTo != null {
        releaseTo.Release();
      }
    }
  }

  class Sqlite3Datasource {
    /** `asyncio.Queue(1)` of write connections. */
    var pool: seq<Connection>

    ghost predicate Valid()
      reads this
    {
      |pool| <= 1 && forall c :: c in pool ==> c.releaseTo == this
    }

    /** The pool after `release`, given the pool before it. */
    predicate Released(before: seq<Connection>)
      reads this
    {
      if before == [] then |pool| == 1 && pool[0].releaseTo == this
      else pool == before
    }

    /** Line 59: the pool starts with one fresh connection. */
    constructor ()
      ensures Valid() && |pool| == 1 && fresh(pool[0])
    {
      pool := [];
      new;
      var c := new Connection(this);
      pool := [c];
    }

    /** `get_write_conn`: takes the pooled connection; on an empty pool the await would block. */
    method GetWriteConn() returns (c: Option<Connection>)
      requires Valid()
      modifies this
      ensures Valid() && pool == []
      ensures c.None? <==> old(pool) == []
      ensures c.Some? ==> c.value == old(pool[0]) && c.value.releaseTo == this
    {
      if pool == [] {
        return None;
      }
      c := Some(pool[0]);
      pool := pool[1..];
    }

    /** `get_read_conn`: a new connection that nothing releases. */
    method GetReadConn() returns (c: Connection)
      ensures fresh(c) && c.releaseTo == null && c.ops == []
    {
      c := new Connection(null);
    }

    /** `release`: refills the pool with a fresh connection, only when it is empty, so it never holds two. */
    method Release()
      modifies this
      ensures Released(old(pool))
      ensures old(pool) == [] ==> fresh(pool[0])
      ensures old(Valid()) ==> Valid()
    {
      if pool == [] {
        var c := new Connection(this);
        pool := [c];
      }
    }
  }
}
