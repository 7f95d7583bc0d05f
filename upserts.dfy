/**
 * How a batch of rows becomes warehouse upserts, in the warehouse consumer
 * (`insert_*`) and in the ksqlDB syncer (`sync_*`) alike: a `dim_users`
 * upsert before each user fact, every fact tagged with the snapshot, and
 * payment totals of unknown methods skipped.
 */
module Upserts {
  import opened Wrappers
  import opened JsonDoc
  import opened Frames
  import opened WarehouseDb

  /** The fact table each handled topic, or ksqlDB table, is loaded into; None for any other name. */
  function FactOf(name: string): (r: Option<Fact>)
    ensures r.Some? <==> name in {"user_transaction_summary", "user_transaction_summary_eur",
                                  "payment_method_totals", "product_purchase_counts"}
  {
    if name == "user_transaction_summary" then Some(UserSummary)
    else if name == "user_transaction_summary_eur" then Some(UserSummaryEur)
    else if name == "payment_method_totals" then Some(PaymentTotals)
    else if name == "product_purchase_counts" then Some(ProductCounts)
    else None
  }

  /** The four names are dispatched to four different tables. */
  lemma FactOfInjective(a: string, b: string)
    requires FactOf(a).Some? && FactOf(a) == FactOf(b)
    ensures a == b
  {
  }

  /** The facts that come with a user, whose rows upsert `dim_users` first. */
  predicate HasUser(f: Fact) {
    f == UserSummary || f == UserSummaryEur
  }

  /** `row.get(col)`: None (JNull) when the frame lacks the column. */
  function Col(rows: seq<Record>, i: nat, col: string): Json
    requires i < |rows|
  {
    Cell(rows, i, col, JNull)
  }

  /**
   * The `dim_users` upsert of row `i`; `missing` is what a user column
   * absent from the frame reads as: `""` in the consumer, None in the syncer.
   */
  function UserUpsert(rows: seq<Record>, i: nat, missing: Json): Stmt
    requires i < |rows|
  {
    Upsert(RowKey(DimUsers, [Col(rows, i, "user_id")], None),
           [Cell(rows, i, "user_name", missing), Cell(rows, i, "user_email", missing),
            Cell(rows, i, "user_country", missing), Cell(rows, i, "user_city", missing)])
  }

  /** `if not payment_method_id: continue`: a method is known when the lookup finds a non-zero id. */
  function KnownMethod(methods: map<string, int>, name: Json): Option<int> {
    match MethodLookup(methods, name)
    case None => None
    case Some(id) => if id == 0 then None else Some(id)
  }

  /** The payment-totals upsert of row `i`, its method having the id `id`. */
  function PaymentUpsert(rows: seq<Record>, i: nat, snap: Snapshot, id: int): Stmt
    requires i < |rows|
  {
    Upsert(RowKey(FactTable(PaymentTotals), [JNum(id as real), Col(rows, i, "payment_method")], Some(snap)),
           [Col(rows, i, "total_amount"), Col(rows, i, "transaction_count"), Col(rows, i, "avg_amount")])
  }

  /** The fact upsert of row `i` of a batch for `f`, tagged with `snap`; None when the row is skipped. */
  function FactUpsert(f: Fact, rows: seq<Record>, i: nat, snap: Snapshot, methods: map<string, int>): Option<Stmt>
    requires i < |rows|
  {
    match f
    case UserSummary =>
      Some(Upsert(RowKey(FactTable(f), [Col(rows, i, "user_id"), Col(rows, i, "transaction_type")], Some(snap)),
                  [Col(rows, i, "total_amount"), Col(rows, i, "transaction_count"), Col(rows, i, "avg_amount"),
                   Col(rows, i, "min_amount"), Col(rows, i, "max_amount"), Col(rows, i, "last_transaction_date")]))
    case UserSummaryEur =>
      Some(Upsert(RowKey(FactTable(f), [Col(rows, i, "user_id"), Col(rows, i, "transaction_type")], Some(snap)),
                  [Col(rows, i, "total_amount_eur"), Col(rows, i, "transaction_count"), Col(rows, i, "avg_amount_eur"),
                   Cell(rows, i, "exchange_rate", JNum(1.0))]))
    case PaymentTotals =>
      (match KnownMethod(methods, Col(rows, i, "payment_method"))
       case None => None
       case Some(id) => Some(PaymentUpsert(rows, i, snap, id)))
    case ProductCounts =>
      Some(Upsert(RowKey(FactTable(f), [Col(rows, i, "product_id"), Col(rows, i, "product_name"),
                                         Col(rows, i, "product_category")], Some(snap)),
                  [Col(rows, i, "purchase_count"), Col(rows, i, "total_revenue"), Col(rows, i, "avg_price"),
                   Col(rows, i, "unique_buyers")]))
  }

  /** The statements of row `i`: the user upsert first, then the fact unless it is skipped. */
  function RowUpserts(f: Fact, rows: seq<Record>, i: nat, missing: Json, snap: Snapshot, methods: map<string, int>): seq<Stmt>
    requires i < |rows|
  {
    (if HasUser(f) then [UserUpsert(rows, i, missing)] else [])
    + (match FactUpsert(f, rows, i, snap, methods) case None => [] case Some(s) => [s])
  }

  /** The statements of rows `i`, `i + 1`, ... in row order. */
  function UpsertsFrom(f: Fact, rows: seq<Record>, i: nat, missing: Json, snap: Snapshot, methods: map<string, int>): seq<Stmt>
    requires i <= |rows|
    decreases |rows| - i
  {
    if i == |rows| then [] else RowUpserts(f, rows, i, missing, snap, methods) + UpsertsFrom(f, rows, i + 1, missing, snap, methods)
  }

  /** The statements of a whole batch. */
  function BatchUpserts(f: Fact, rows: seq<Record>, missing: Json, snap: Snapshot, methods: map<string, int>): seq<Stmt> {
    UpsertsFrom(f, rows, 0, missing, snap, methods)
  }

  /** For a user fact every row gives two statements. */
  lemma {:induction false} UserRowsCount(f: Fact, rows: seq<Record>, i: nat, missing: Json, snap: Snapshot, methods: map<string, int>)
    requires HasUser(f) && i <= |rows|
    ensures |UpsertsFrom(f, rows, i, missing, snap, methods)| == 2 * (|rows| - i)
    decreases |rows| - i
  {
    if i < |rows| {
      UserRowsCount(f, rows, i + 1, missing, snap, methods);
    }
  }

  /** A row of a user fact gives its `dim_users` upsert and then its fact, both for the row's `user_id`. */
  lemma UserRow(f: Fact, rows: seq<Record>, i: nat, missing: Json, snap: Snapshot, methods: map<string, int>)
    requires HasUser(f) && i < |rows|
    ensures FactUpsert(f, rows, i, snap, methods).Some?
    ensures RowUpserts(f, rows, i, missing, snap, methods)
            == [UserUpsert(rows, i, missing), FactUpsert(f, rows, i, snap, methods).value]
    ensures UserUpsert(rows, i, missing).key.natural[0] == FactUpsert(f, rows, i, snap, methods).value.key.natural[0]
            == Col(rows, i, "user_id")
  {
  }

  /**
   * For a user fact, the statements of row `j` (its `dim_users` upsert,
   * then its fact) come right after the two statements of each row before it.
   */
  lemma UserBeforeFact(f: Fact, rows: seq<Record>, i: nat, j: nat, missing: Json, snap: Snapshot,
                       methods: map<string, int>)
    requires HasUser(f) && i <= j < |rows|
    ensures var ss := UpsertsFrom(f, rows, i, missing, snap, methods);
            && |ss| == 2 * (|rows| - i)
            && ss[2 * (j - i)..2 * (j - i) + 2] == RowUpserts(f, rows, j, missing, snap, methods)
  {
    var ss := UpsertsFrom(f, rows, i, missing, snap, methods);
    var tail := UpsertsFrom(f, rows, j, missing, snap, methods);
    UserRowsCount(f, rows, i, missing, snap, methods);
    UserRowsCount(f, rows, j + 1, missing, snap, methods);
    UserSuffix(f, rows, i, j, missing, snap, methods);
    assert tail == RowUpserts(f, rows, j, missing, snap, methods) + UpsertsFrom(f, rows, j + 1, missing, snap, methods);
    assert ss[2 * (j - i)..2 * (j - i) + 2] == tail[..2];
  }

  /** For a user fact, dropping the two statements of each of rows `i` to `j - 1` leaves the statements from row `j` on. */
  lemma {:induction false} UserSuffix(f: Fact, rows: seq<Record>, i: nat, j: nat, missing: Json, snap: Snapshot,
                                      methods: map<string, int>)
    requires HasUser(f) && i <= j <= |rows|
    ensures 2 * (j - i) <= |UpsertsFrom(f, rows, i, missing, snap, methods)|
    ensures UpsertsFrom(f, rows, i, missing, snap, methods)[2 * (j - i)..] == UpsertsFrom(f, rows, j, missing, snap, methods)
    decreases j - i
  {
    UserRowsCount(f, rows, i, missing, snap, methods);
    if i < j {
      UserDrop(f, rows, i, missing, snap, methods);
      UserSuffix(f, rows, i + 1, j, missing, snap, methods);
      DropDrop(UpsertsFrom(f, rows, i, missing, snap, methods), 2, 2 * (j - i - 1));
    }
  }

  /** For a user fact, the statements from row `i` on are row `i`'s two and then those from row `i + 1` on. */
  lemma UserDrop(f: Fact, rows: seq<Record>, i: nat, missing: Json, snap: Snapshot, methods: map<string, int>)
    requires HasUser(f) && i < |rows|
    ensures 2 <= |UpsertsFrom(f, rows, i, missing, snap, methods)|
    ensures UpsertsFrom(f, rows, i, missing, snap, methods)[2..] == UpsertsFrom(f, rows, i + 1, missing, snap, methods)
  {
    var row := RowUpserts(f, rows, i, missing, snap, methods);
    var rest := UpsertsFrom(f, rows, i + 1, missing, snap, methods);
    UserRowsCount(f, rows, i, missing, snap, methods);
    UserRowsCount(f, rows, i + 1, missing, snap, methods);
    assert UpsertsFrom(f, rows, i, missing, snap, methods) == row + rest;
    assert (row + rest)[2..] == rest;
  }

  /** Dropping `a` elements and then `b` drops `a + b`. */
  lemma DropDrop<T>(s: seq<T>, a: nat, b: nat)
    requires a + b <= |s|
    ensures s[a..][b..] == s[a + b..]
  {
  }

  /**
   * Every statement of a batch for `f` is a `dim_users` upsert, which
   * carries no snapshot, or a row of `f`'s table tagged with `snap`.
   */
  lemma {:induction false} FactsTagged(f: Fact, rows: seq<Record>, i: nat, missing: Json, snap: Snapshot, methods: map<string, int>)
    requires i <= |rows|
    ensures forall s :: s in UpsertsFrom(f, rows, i, missing, snap, methods) ==> Tagged(f, snap, s)
    decreases |rows| - i
  {
    if i < |rows| {
      FactsTagged(f, rows, i + 1, missing, snap, methods);
      RowTagged(f, rows, i, missing, snap, methods);
      assert UpsertsFrom(f, rows, i, missing, snap, methods)
             == RowUpserts(f, rows, i, missing, snap, methods) + UpsertsFrom(f, rows, i + 1, missing, snap, methods);
    }
  }

  /** A `dim_users` upsert, which carries no snapshot and comes only with a user fact, or a row of `f`'s table tagged with `snap`. */
  predicate Tagged(f: Fact, snap: Snapshot, s: Stmt) {
    || (s.key.table == DimUsers && s.key.snapshot == None && HasUser(f))
    || (s.key.table == FactTable(f) && s.key.snapshot == Some(snap))
  }

  lemma RowTagged(f: Fact, rows: seq<Record>, i: nat, missing: Json, snap: Snapshot, methods: map<string, int>)
    requires i < |rows|
    ensures forall s :: s in RowUpserts(f, rows, i, missing, snap, methods) ==> Tagged(f, snap, s)
  {
    forall s | s in RowUpserts(f, rows, i, missing, snap, methods)
      ensures Tagged(f, snap, s)
    {
      if HasUser(f) && s == UserUpsert(rows, i, missing) {
      } else {
        assert FactUpsert(f, rows, i, snap, methods) == Some(s);
      }
    }
  }

  /**
   * A payment-totals batch holds exactly the upserts of the rows whose
   * method is known: the other rows are skipped, and nothing else is
   * written.
   */
  lemma {:induction false} UnknownMethodsSkipped(rows: seq<Record>, i: nat, missing: Json, snap: Snapshot, methods: map<string, int>)
    requires i <= |rows|
    ensures forall s :: s in UpsertsFrom(PaymentTotals, rows, i, missing, snap, methods) <==>
              exists j :: i <= j < |rows| && KnownMethod(methods, Col(rows, j, "payment_method")).Some?
                          && s == PaymentUpsert(rows, j, snap, KnownMethod(methods, Col(rows, j, "payment_method")).value)
    decreases |rows| - i
  {
    if i < |rows| {
      UnknownMethodsSkipped(rows, i + 1, missing, snap, methods);
      var rest := UpsertsFrom(PaymentTotals, rows, i + 1, missing, snap, methods);
      forall s ensures s in UpsertsFrom(PaymentTotals, rows, i, missing, snap, methods) <==>
                       exists j :: i <= j < |rows| && KnownMethod(methods, Col(rows, j, "payment_method")).Some?
                                   && s == PaymentUpsert(rows, j, snap, KnownMethod(methods, Col(rows, j, "payment_method")).value)
      {
        var known := KnownMethod(methods, Col(rows, i, "payment_method"));
        if s !in rest && known.Some? && s == PaymentUpsert(rows, i, snap, known.value) {
          assert s in UpsertsFrom(PaymentTotals, rows, i, missing, snap, methods);
        }
      }
    }
  }

  /** A frame without an `exchange_rate` column loads its EUR summaries with the rate 1.0. */
  lemma ExchangeRateDefaultsToOne(rows: seq<Record>, i: nat, snap: Snapshot, methods: map<string, int>)
    requires i < |rows| && "exchange_rate" !in Columns(rows)
    ensures FactUpsert(UserSummaryEur, rows, i, snap, methods).value.values[3] == JNum(1.0)
  {
  }

  /** A user column the frame lacks is loaded as `missing`; one a row lacks is NULL (NaN). */
  lemma MissingUserFields(rows: seq<Record>, i: nat, missing: Json, col: string)
    requires i < |rows| && col in {"user_name", "user_email", "user_country", "user_city"}
    ensures var u := UserUpsert(rows, i, missing);
            var k := if col == "user_name" then 0 else if col == "user_email" then 1 else if col == "user_country" then 2 else 3;
            && (col !in Columns(rows) ==> u.values[k] == missing)
            && (col in Columns(rows) && col !in rows[i] ==> u.values[k] == JNull)
            && (col in rows[i] ==> u.values[k] == rows[i][col])
  {
    assert col in rows[i] ==> col in Columns(rows);
  }
}
