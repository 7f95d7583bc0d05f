/**
 * The ksqlDB to MySQL syncer (`DataWarehouseSyncer` over `MySQLWarehouse`).
 * Each configured table's rows are fetched, translated into the same
 * upserts as the warehouse consumer's, and written one statement at a
 * time: every statement is committed on its own, and a rejected one is
 * rolled back and re-raised, so the rows before it stay committed.
 */
module SyncToMysql {
  import opened Wrappers
  import opened JsonDoc
  import opened Frames
  import opened Calendar
  import opened LakeConfig
  import opened WarehouseDb
  import opened Upserts

  /** The missing user columns read as None (NULL) in the syncer. */
  const MissingUserField: Json := JNull

  /**
   * One `MySQLWarehouse` write (`upsert_user` or an `insert_*`): execute,
   * then commit; a rejected statement is rolled back and its DbError
   * re-raised.
   */
  function CommitOne(st: Session, rejects: set<nat>, s: Stmt): (Session, Option<Exception>) {
    var after := AfterExecute(st, rejects, s);
    if st.executed in rejects then (AfterRollback(after), Some(DbError)) else (AfterCommit(after), None)
  }

  /** Statements written one `MySQLWarehouse` call at a time, up to the first that raises. */
  function CommitEach(st: Session, rejects: set<nat>, ss: seq<Stmt>): (Session, Option<Exception>)
    decreases |ss|
  {
    if ss == [] then (st, None)
    else
      var (after, raised) := CommitOne(st, rejects, ss[0]);
      if raised.Some? then (after, raised) else CommitEach(after, rejects, ss[1..])
  }

  /** The events of statements each run and committed on its own. */
  function CommitTrace(ss: seq<Stmt>): (r: seq<Event>)
    ensures |r| == 2 * |ss|
    decreases |ss|
  {
    if ss == [] then [] else [Ran(ss[0]), Committed] + CommitTrace(ss[1..])
  }

  /** One step of `CommitEach`: the first statement is written, and the rest only when it was accepted. */
  lemma CommitEachStep(st: Session, rejects: set<nat>, s: Stmt, rest: seq<Stmt>)
    ensures CommitEach(st, rejects, [s] + rest)
            == if CommitOne(st, rejects, s).1.Some? then CommitOne(st, rejects, s)
               else CommitEach(CommitOne(st, rejects, s).0, rejects, rest)
  {
    assert ([s] + rest)[1..] == rest;
  }

  /** An accepted write on a session without open transaction commits that one statement. */
  lemma CommitOneAccepted(st: Session, rejects: set<nat>, s: Stmt)
    requires st.pending == [] && st.executed !in rejects
    ensures CommitOne(st, rejects, s)
            == (st.(committed := Apply(st.committed, s), executed := st.executed + 1, events := st.events + [Ran(s), Committed]),
                None)
  {
    assert st.pending + [s] == [s] && [s][1..] == [];
    assert ApplyAll(st.committed, [s]) == ApplyAll(Apply(st.committed, s), []);
    assert st.events + [Ran(s)] + [Committed] == st.events + [Ran(s), Committed];
  }

  /**
   * Unlike the consumer's all-or-nothing batch, the syncer keeps what it
   * wrote before a failure: the statements accepted before the first
   * rejection are committed, each followed by its own commit, the rejected
   * one is rolled back, and no transaction is left open.
   */
  lemma {:induction false} EarlierRowsStayCommitted(st: Session, rejects: set<nat>, ss: seq<Stmt>)
    requires st.pending == []
    ensures var (after, raised) := CommitEach(st, rejects, ss);
            var k := Accepted(rejects, st.executed, |ss|);
            && after.committed == ApplyAll(st.committed, ss[..k])
            && after.pending == []
            && (raised.None? <==> k == |ss|)
            && (raised.Some? ==> raised == Some(DbError))
            && after.executed == st.executed + k + (if k < |ss| then 1 else 0)
            && after.events == st.events + CommitTrace(ss[..k]) + (if k < |ss| then [Refused(ss[k]), RolledBack] else [])
    decreases |ss|
  {
    if ss != [] && st.executed !in rejects {
      var next := CommitOne(st, rejects, ss[0]).0;
      CommitOneAccepted(st, rejects, ss[0]);
      EarlierRowsStayCommitted(next, rejects, ss[1..]);
      var k := Accepted(rejects, st.executed, |ss|);
      assert k == 1 + Accepted(rejects, next.executed, |ss[1..]|);
      assert ss[..k][0] == ss[0] && ss[..k][1..] == ss[1..][..k - 1];
      assert CommitTrace(ss[..k]) == [Ran(ss[0]), Committed] + CommitTrace(ss[1..][..k - 1]);
      assert k < |ss| ==> ss[k] == ss[1..][k - 1];
    }
  }

  /**
   * `sync_table(name)`: the handler registered for the name fetches the
   * table (OSError when the request fails) and, unless the frame is empty,
   * writes its upserts; a name with no handler only logs a warning.
   */
  function SyncResult(fetched: map<string, seq<Record>>, snapshot: Snapshot, methods: map<string, int>,
                      rejects: set<nat>, name: string, st: Session): (Session, Option<Exception>) {
    match FactOf(name)
    case None => (st, None)
    case Some(f) =>
      if name !in fetched then (st, Some(OSError))
      else if IsEmpty(fetched[name]) then (st, None)
      else CommitEach(st, rejects, BatchUpserts(f, fetched[name], MissingUserField, snapshot, methods))
  }

  /** `sync_all_tables`: every configured table in turn, stopping at the first that raises. */
  function SyncAllResult(fetched: map<string, seq<Record>>, snapshot: Snapshot, methods: map<string, int>,
                         rejects: set<nat>, names: seq<string>, st: Session): (Session, Option<Exception>)
    decreases |names|
  {
    if names == [] then (st, None)
    else
      var (after, raised) := SyncResult(fetched, snapshot, methods, rejects, names[0], st);
      if raised.Some? then (after, raised) else SyncAllResult(fetched, snapshot, methods, rejects, names[1..], after)
  }

  /** The names `sync_all_tables` walks: the keys of the table configuration, in order. */
  function TableNames(): (r: seq<string>)
    ensures |r| == |TablesConfig| && forall j :: 0 <= j < |r| ==> r[j] == TablesConfig[j].name
  {
    seq(|TablesConfig|, j requires 0 <= j < |TablesConfig| => TablesConfig[j].name)
  }

  /**
   * What `sync_table` writes: nothing for a name without handler, a failed
   * fetch or an empty frame; otherwise the upserts of the fetched rows
   * accepted before the first rejection, committed.
   */
  lemma SyncTableEffect(fetched: map<string, seq<Record>>, snapshot: Snapshot, methods: map<string, int>,
                        rejects: set<nat>, name: string, st: Session)
    requires st.pending == []
    ensures var (after, raised) := SyncResult(fetched, snapshot, methods, rejects, name, st);
            && (FactOf(name).None? ==> after == st && raised.None?)
            && (FactOf(name).Some? && name !in fetched ==> after == st && raised == Some(OSError))
            && (FactOf(name).Some? && name in fetched && IsEmpty(fetched[name]) ==> after == st && raised.None?)
            && (FactOf(name).Some? && name in fetched && !IsEmpty(fetched[name]) ==>
                  var ss := BatchUpserts(FactOf(name).value, fetched[name], MissingUserField, snapshot, methods);
                  var k := Accepted(rejects, st.executed, |ss|);
                  && after.committed == ApplyAll(st.committed, ss[..k]) && after.pending == []
                  && (raised.None? <==> k == |ss|))
  {
    if FactOf(name).Some? && name in fetched && !IsEmpty(fetched[name]) {
      EarlierRowsStayCommitted(st, rejects, BatchUpserts(FactOf(name).value, fetched[name], MissingUserField, snapshot, methods));
    }
  }

  /** One table's sync leaves no transaction open and only adds to the session's history. */
  lemma SyncTableClosesTransaction(fetched: map<string, seq<Record>>, snapshot: Snapshot, methods: map<string, int>,
                                   rejects: set<nat>, name: string, st: Session)
    requires st.pending == []
    ensures var after := SyncResult(fetched, snapshot, methods, rejects, name, st).0;
            && after.pending == []
            && after.executed >= st.executed
            && |after.events| >= |st.events| && after.events[..|st.events|] == st.events
  {
    if FactOf(name).Some? && name in fetched && !IsEmpty(fetched[name]) {
      EarlierRowsStayCommitted(st, rejects, BatchUpserts(FactOf(name).value, fetched[name], MissingUserField, snapshot, methods));
    }
  }

  /**
   * A whole sync never leaves a transaction open, and the session's
   * history only grows.
   */
  lemma {:induction false} SyncAllClosesTransactions(fetched: map<string, seq<Record>>, snapshot: Snapshot,
                                                     methods: map<string, int>, rejects: set<nat>, names: seq<string>,
                                                     st: Session)
    requires st.pending == []
    ensures var after := SyncAllResult(fetched, snapshot, methods, rejects, names, st).0;
            && after.pending == []
            && after.executed >= st.executed
            && |after.events| >= |st.events| && after.events[..|st.events|] == st.events
    decreases |names|
  {
    if names != [] {
      var (after, raised) := SyncResult(fetched, snapshot, methods, rejects, names[0], st);
      SyncTableClosesTransaction(fetched, snapshot, methods, rejects, names[0], st);
      if raised.None? {
        SyncAllClosesTransactions(fetched, snapshot, methods, rejects, names[1..], after);
        var final := SyncAllResult(fetched, snapshot, methods, rejects, names[1..], after).0;
        assert final.events[..|st.events|] == final.events[..|after.events|][..|st.events|];
      }
    }
  }

  /** `MySQLWarehouse`: the connection the syncer writes through. */
  class MySqlWarehouse {
    const conn: Connection

    constructor(conn: Connection)
      ensures this.conn == conn
    {
      this.conn := conn;
    }

    /**
     * `upsert_user` and the four `insert_*` methods: the statement is
     * executed and committed on its own; when the server rejects it, the
     * transaction is rolled back and the error re-raised.
     */
    method Write(s: Stmt) returns (raised: Option<Exception>)
      modifies conn
      ensures (conn.State(), raised) == CommitOne(old(conn.State()), conn.rejects, s)
    {
      raised := conn.Execute(s);
      if raised.Some? {
        conn.Rollback();
      } else {
        conn.Commit();
      }
    }
  }

  /** `DataWarehouseSyncer`. */
  class Syncer {
    const mysql: MySqlWarehouse
    /** What the ksqlDB query returns for each table name; a name that is absent is a failed request. */
    const fetched: map<string, seq<Record>>
    const snapshot: Snapshot

    /** The syncer tags every fact row with today's date and version 1. */
    constructor(mysql: MySqlWarehouse, fetched: map<string, seq<Record>>, today: Date)
      ensures this.mysql == mysql && this.fetched == fetched
      ensures snapshot == Snapshot(today, 1)
    {
      this.mysql := mysql;
      this.fetched := fetched;
      snapshot := Snapshot(today, 1);
    }

    /**
     * The body of a `sync_*` loop for row `i`: its `dim_users` upsert (user
     * facts only), then its fact upsert, skipped for a payment method
     * without an id; `later` are the statements that follow.
     */
    method SyncRow(f: Fact, rows: seq<Record>, i: nat, ghost later: seq<Stmt>) returns (raised: Option<Exception>)
      requires i < |rows|
      modifies mysql.conn
      ensures CommitEach(old(mysql.conn.State()), mysql.conn.rejects,
                         RowUpserts(f, rows, i, MissingUserField, snapshot, mysql.conn.paymentMethods) + later)
              == if raised.None? then CommitEach(mysql.conn.State(), mysql.conn.rejects, later)
                 else (mysql.conn.State(), raised)
    {
      var conn := mysql.conn;
      ghost var factPart := match FactUpsert(f, rows, i, snapshot, conn.paymentMethods) case None => [] case Some(s) => [s];
      ghost var row := RowUpserts(f, rows, i, MissingUserField, snapshot, conn.paymentMethods);
      if HasUser(f) {
        var u := UserUpsert(rows, i, MissingUserField);
        assert row + later == [u] + (factPart + later);
        CommitEachStep(conn.State(), conn.rejects, u, factPart + later);
        raised := mysql.Write(u);
        if raised.Some? {
          return;
        }
      } else {
        assert row + later == factPart + later;
      }
      var fact: Option<Stmt>;
      if f == PaymentTotals {
        var id := conn.PaymentMethodId(Col(rows, i, "payment_method"));
        if id.Some? && id.value != 0 {
          fact := Some(PaymentUpsert(rows, i, snapshot, id.value));
        } else {
          fact := None;
        }
      } else {
        fact := FactUpsert(f, rows, i, snapshot, conn.paymentMethods);
      }
      assert fact == FactUpsert(f, rows, i, snapshot, conn.paymentMethods);
      raised := None;
      if fact.Some? {
        assert factPart + later == [fact.value] + later;
        CommitEachStep(conn.State(), conn.rejects, fact.value, later);
        raised := mysql.Write(fact.value);
      } else {
        assert factPart + later == later;
      }
    }

    /** The `for _, row in df.iterrows()` loop of the four `sync_*` methods. */
    method SyncRows(f: Fact, rows: seq<Record>) returns (raised: Option<Exception>)
      modifies mysql.conn
      ensures (mysql.conn.State(), raised)
              == CommitEach(old(mysql.conn.State()), mysql.conn.rejects,
                            BatchUpserts(f, rows, MissingUserField, snapshot, mysql.conn.paymentMethods))
    {
      var conn := mysql.conn;
      ghost var total := CommitEach(conn.State(), conn.rejects, BatchUpserts(f, rows, MissingUserField, snapshot, conn.paymentMethods));
      raised := None;
      for i := 0 to |rows|
        invariant CommitEach(conn.State(), conn.rejects, UpsertsFrom(f, rows, i, MissingUserField, snapshot, conn.paymentMethods)) == total
        invariant raised.None?
      {
        raised := SyncRow(f, rows, i, UpsertsFrom(f, rows, i + 1, MissingUserField, snapshot, conn.paymentMethods));
        if raised.Some? {
          return;
        }
      }
    }

    /** `sync_table(name)` with the `sync_*` handler it dispatches to. */
    method SyncTable(name: string) returns (raised: Option<Exception>)
      modifies mysql.conn
      ensures (mysql.conn.State(), raised)
              == SyncResult(fetched, snapshot, mysql.conn.paymentMethods, mysql.conn.rejects, name, old(mysql.conn.State()))
    {
      var fact := FactOf(name);
      if fact.None? {
        return None;
      }
      if name !in fetched {
        return Some(OSError);
      }
      var rows := fetched[name];
      if IsEmpty(rows) {
        return None;
      }
      raised := SyncRows(fact.value, rows);
    }

    /** `sync_all_tables`: the configured tables in order, the first exception ending the sync. */
    method SyncAllTables() returns (raised: Option<Exception>)
      modifies mysql.conn
      ensures (mysql.conn.State(), raised)
              == SyncAllResult(fetched, snapshot, mysql.conn.paymentMethods, mysql.conn.rejects, TableNames(),
                               old(mysql.conn.State()))
    {
      var names := TableNames();
      ghost var total := SyncAllResult(fetched, snapshot, mysql.conn.paymentMethods, mysql.conn.rejects, names,
                                       mysql.conn.State());
      raised := None;
      for i := 0 to |names|
        invariant SyncAllResult(fetched, snapshot, mysql.conn.paymentMethods, mysql.conn.rejects, names[i..],
                                mysql.conn.State()) == total
        invariant raised.None?
      {
        assert names[i..][1..] == names[i + 1..];
        raised := SyncTable(names[i]);
        if raised.Some? {
          return;
        }
      }
      assert names[|names|..] == [];
    }
  }
}
