/**
 * The MySQL data warehouse as the consumers and the syncer use it: every
 * table is a map from its unique key to the columns an
 * `INSERT ... ON DUPLICATE KEY UPDATE` overwrites, and a connection runs
 * such statements in a transaction that becomes visible only on commit.
 */
module WarehouseDb {
  import opened Wrappers
  import opened JsonDoc
  import opened Calendar

  /** The fact tables the pipeline loads. */
  datatype Fact = UserSummary | UserSummaryEur | PaymentTotals | ProductCounts

  datatype Table = DimUsers | FactTable(fact: Fact)

  /** `snapshot_date` and `snapshot_version`, the tag of every fact row. */
  datatype Snapshot = Snapshot(date: Date, version: int)

  /**
   * The unique key of a row: its table, the natural-key columns that the
   * statement's ON DUPLICATE KEY UPDATE clause leaves alone, and the
   * snapshot for a fact row.
   */
  datatype RowKey = RowKey(table: Table, natural: seq<Json>, snapshot: Option<Snapshot>)

  /** `INSERT INTO ... VALUES (...) ON DUPLICATE KEY UPDATE c = VALUES(c), ...`: the key and the updated columns. */
  datatype Stmt = Upsert(key: RowKey, values: seq<Json>)

  /** The rows of all tables, each under its unique key. */
  type Rows = map<RowKey, seq<Json>>

  /** An upsert inserts the row, or replaces the updated columns of the row with the same key. */
  function Apply(w: Rows, s: Stmt): Rows {
    w[s.key := s.values]
  }

  /** The statements applied in order. */
  function ApplyAll(w: Rows, ss: seq<Stmt>): Rows
    decreases |ss|
  {
    if ss == [] then w else ApplyAll(Apply(w, ss[0]), ss[1..])
  }

  /**
   * Applying statements overrides the old rows with the rows the
   * statements alone would produce: a key no statement names keeps its
   * row, and every named key gets the values of its last statement.
   */
  lemma {:induction false} ApplyAllOverrides(w: Rows, ss: seq<Stmt>)
    ensures ApplyAll(w, ss) == w + ApplyAll(map[], ss)
    decreases |ss|
  {
    if ss != [] {
      var s := ss[0];
      ApplyAllOverrides(Apply(w, s), ss[1..]);
      ApplyAllOverrides(Apply(map[], s), ss[1..]);
      assert Apply(w, s) == w + Apply(map[], s);
    }
  }

  /** Upserting a batch again leaves the rows as the first time: re-delivery is harmless. */
  lemma UpsertsIdempotent(w: Rows, ss: seq<Stmt>)
    ensures ApplyAll(ApplyAll(w, ss), ss) == ApplyAll(w, ss)
  {
    ApplyAllOverrides(w, ss);
    ApplyAllOverrides(ApplyAll(w, ss), ss);
  }

  /** A key that no statement names keeps its row, or stays absent. */
  lemma {:induction false} UnnamedKeyKept(w: Rows, ss: seq<Stmt>, k: RowKey)
    requires forall j :: 0 <= j < |ss| ==> ss[j].key != k
    ensures k in ApplyAll(w, ss) <==> k in w
    ensures k in w ==> ApplyAll(w, ss)[k] == w[k]
    decreases |ss|
  {
    if ss != [] {
      assert ss[0].key != k;
      forall j | 0 <= j < |ss[1..]| ensures ss[1..][j].key != k {
        assert ss[1..][j] == ss[j + 1];
      }
      UnnamedKeyKept(Apply(w, ss[0]), ss[1..], k);
    }
  }

  /**
   * On a duplicate key the updated columns are replaced, not accumulated:
   * the row holds the values of the last statement that names its key.
   */
  lemma {:induction false} LastUpsertWins(w: Rows, ss: seq<Stmt>, j: nat)
    requires j < |ss|
    requires forall m :: j < m < |ss| ==> ss[m].key != ss[j].key
    ensures ss[j].key in ApplyAll(w, ss) && ApplyAll(w, ss)[ss[j].key] == ss[j].values
    decreases |ss|
  {
    if j == 0 {
      forall m | 0 <= m < |ss[1..]| ensures ss[1..][m].key != ss[0].key {
        assert ss[1..][m] == ss[m + 1];
      }
      UnnamedKeyKept(Apply(w, ss[0]), ss[1..], ss[0].key);
    } else {
      forall m | j - 1 < m < |ss[1..]| ensures ss[1..][m].key != ss[1..][j - 1].key {
        assert ss[1..][m] == ss[m + 1];
      }
      LastUpsertWins(Apply(w, ss[0]), ss[1..], j - 1);
    }
  }

  // ---------------------------------------------------------------------------
  // A connection

  /** What the server saw on a connection, in order. */
  datatype Event = Ran(s: Stmt) | Refused(s: Stmt) | Committed | RolledBack

  /**
   * The state of a connection: the committed rows, the statements of the
   * open transaction, the number of statements executed so far and the
   * events of the session.
   */
  datatype Session = Session(committed: Rows, pending: seq<Stmt>, executed: nat, events: seq<Event>)

  /**
   * `cursor.execute(s)`: the statement joins the open transaction unless
   * the server rejects it; `rejects` holds the ordinals of the statements
   * the server rejects.
   */
  function AfterExecute(st: Session, rejects: set<nat>, s: Stmt): Session {
    if st.executed in rejects then st.(executed := st.executed + 1, events := st.events + [Refused(s)])
    else st.(pending := st.pending + [s], executed := st.executed + 1, events := st.events + [Ran(s)])
  }

  /** `connection.commit()`. */
  function AfterCommit(st: Session): Session {
    st.(committed := ApplyAll(st.committed, st.pending), pending := [], events := st.events + [Committed])
  }

  /** `connection.rollback()`. */
  function AfterRollback(st: Session): Session {
    st.(pending := [], events := st.events + [RolledBack])
  }

  /** The number of statements the server accepts, from ordinal `start`, before it rejects one. */
  function Accepted(rejects: set<nat>, start: nat, n: nat): (k: nat)
    ensures k <= n
    decreases n
  {
    if n == 0 || start in rejects then 0 else 1 + Accepted(rejects, start + 1, n - 1)
  }

  /**
   * `Accepted` is the length of the run of accepted ordinals: every
   * statement before it is accepted and, unless all `n` are, the next one
   * is rejected.
   */
  lemma {:induction false} AcceptedIsFirstRejection(rejects: set<nat>, start: nat, n: nat)
    ensures forall j :: start <= j < start + Accepted(rejects, start, n) ==> j !in rejects
    ensures Accepted(rejects, start, n) < n ==> start + Accepted(rejects, start, n) in rejects
    decreases n
  {
    if n > 0 && start !in rejects {
      AcceptedIsFirstRejection(rejects, start + 1, n - 1);
    }
  }

  /** The events of statements run in order. */
  function Trace(ss: seq<Stmt>): (r: seq<Event>)
    ensures |r| == |ss|
    decreases |ss|
  {
    if ss == [] then [] else [Ran(ss[0])] + Trace(ss[1..])
  }

  /**
   * Statements executed in turn until the server rejects one; the
   * DbError is raised at the first rejection.
   */
  function RunStatements(st: Session, rejects: set<nat>, ss: seq<Stmt>): (Session, Option<Exception>)
    decreases |ss|
  {
    if ss == [] then (st, None)
    else if st.executed in rejects then (AfterExecute(st, rejects, ss[0]), Some(DbError))
    else RunStatements(AfterExecute(st, rejects, ss[0]), rejects, ss[1..])
  }

  /** One step of `RunStatements`: the first statement is executed, and the rest only when it was accepted. */
  lemma RunStatementsStep(st: Session, rejects: set<nat>, s: Stmt, rest: seq<Stmt>)
    ensures RunStatements(st, rejects, [s] + rest)
            == if st.executed in rejects then (AfterExecute(st, rejects, s), Some(DbError))
               else RunStatements(AfterExecute(st, rejects, s), rejects, rest)
  {
    assert ([s] + rest)[1..] == rest;
  }

  /**
   * Running statements leaves the committed rows alone and adds to the
   * transaction exactly the statements accepted before the first
   * rejection, which raises DbError.
   */
  lemma {:induction false} RunStatementsEffect(st: Session, rejects: set<nat>, ss: seq<Stmt>)
    ensures var (after, raised) := RunStatements(st, rejects, ss);
            var k := Accepted(rejects, st.executed, |ss|);
            && after.committed == st.committed
            && after.pending == st.pending + ss[..k]
            && (raised.None? <==> k == |ss|)
            && (raised.Some? ==> raised == Some(DbError))
            && after.executed == st.executed + k + (if k < |ss| then 1 else 0)
            && after.events == st.events + Trace(ss[..k]) + (if k < |ss| then [Refused(ss[k])] else [])
    decreases |ss|
  {
    if ss != [] && st.executed !in rejects {
      var next := AfterExecute(st, rejects, ss[0]);
      RunStatementsEffect(next, rejects, ss[1..]);
      var k := Accepted(rejects, st.executed, |ss|);
      assert k == 1 + Accepted(rejects, next.executed, |ss[1..]|);
      assert ss[..k] == [ss[0]] + ss[1..][..k - 1];
      assert Trace(ss[..k]) == [Ran(ss[0])] + Trace(ss[1..][..k - 1]) by {
        assert ss[..k][1..] == ss[1..][..k - 1];
      }
      assert k < |ss| ==> ss[k] == ss[1..][k - 1];
    }
  }

  /** `Trace` records statements and nothing else: no commit and no rollback. */
  lemma {:induction false} TraceHasOnlyRuns(ss: seq<Stmt>)
    ensures forall j :: 0 <= j < |Trace(ss)| ==> Trace(ss)[j] == Ran(ss[j])
    decreases |ss|
  {
    if ss != [] {
      TraceHasOnlyRuns(ss[1..]);
      forall j | 1 <= j < |ss| ensures Trace(ss)[j] == Ran(ss[j]) {
        assert Trace(ss)[j] == Trace(ss[1..])[j - 1];
      }
    }
  }

  /** `get_payment_method_id`: the id of a payment method name in `dim_payment_methods`. */
  function MethodLookup(methods: map<string, int>, name: Json): Option<int> {
    if name.JStr? && name.s in methods then Some(methods[name.s]) else None
  }

  /** A `mysql.connector` connection with its cursor. */
  class Connection {
    /** `dim_payment_methods`: the id of every payment method name. */
    const paymentMethods: map<string, int>
    /** The ordinals of the statements the server rejects. */
    const rejects: set<nat>
    var committed: Rows
    var pending: seq<Stmt>
    var executed: nat
    var events: seq<Event>

    function State(): Session
      reads this
    {
      Session(committed, pending, executed, events)
    }

    /** `mysql.connector.connect(...)`: a new session on the rows already in the warehouse. */
    constructor(paymentMethods: map<string, int>, rejects: set<nat>, rows: Rows)
      ensures this.paymentMethods == paymentMethods && this.rejects == rejects
      ensures State() == Session(rows, [], 0, [])
    {
      this.paymentMethods := paymentMethods;
      this.rejects := rejects;
      committed, pending, executed, events := rows, [], 0, [];
    }

    /** `cursor.execute(s)`, raising DbError when the server rejects the statement. */
    method Execute(s: Stmt) returns (raised: Option<Exception>)
      modifies this
      ensures State() == AfterExecute(old(State()), rejects, s)
      ensures raised == (if old(executed) in rejects then Some(DbError) else None)
    {
      if executed in rejects {
        raised := Some(DbError);
        events := events + [Refused(s)];
      } else {
        raised := None;
        pending := pending + [s];
        events := events + [Ran(s)];
      }
      executed := executed + 1;
    }

    method Commit()
      modifies this
      ensures State() == AfterCommit(old(State()))
    {
      committed := ApplyAll(committed, pending);
      pending := [];
      events := events + [Committed];
    }

    method Rollback()
      modifies this
      ensures State() == AfterRollback(old(State()))
    {
      pending := [];
      events := events + [RolledBack];
    }

    /**
     * `get_payment_method_id`: the SELECT on `dim_payment_methods`, None
     * when no row has that name.
     */
    method PaymentMethodId(name: Json) returns (id: Option<int>)
      ensures id.Some? <==> name.JStr? && name.s in paymentMethods
      ensures id.Some? ==> id.value == paymentMethods[name.s]
    {
      if name.JStr? && name.s in paymentMethods {
        id := Some(paymentMethods[name.s]);
      } else {
        id := None;
      }
    }
  }
}
