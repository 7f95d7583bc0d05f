/**
 * The Kafka consumer that loads the warehouse (`WarehouseKafkaConsumer`).
 * Records are buffered per topic as in the data-lake consumer; a flush
 * turns the batch into upserts on the topic's fact table, runs them in one
 * transaction and commits once at the end. A failure rolls the transaction
 * back and keeps the records for a later flush.
 */
module WarehouseConsumer {
  import opened Wrappers
  import opened JsonDoc
  import opened Frames
  import opened Calendar
  import opened KafkaConfig
  import opened Ingest
  import opened WarehouseDb
  import opened Upserts

  /** How a call to `process_message` or `flush_buffer` ended. */
  datatype Outcome =
    | Unsubscribed            // KeyError: the topic has no buffer
    | Buffered                // appended, no flush triggered
    | NothingBuffered         // flush of an empty buffer: nothing happens
    | NoConfig                // no routing entry for the topic: a warning, the records stay
    | EmptyFrame              // the records make an empty DataFrame: a warning, the records stay
    | Unsupported             // not one of the four warehouse topics: a warning, the records stay
    | Inserted                // the batch was committed and the buffer emptied
    | Failed(exc: Exception)  // a statement was rejected; rolled back, the records stay

  /** The missing user columns read as `""` in this consumer. */
  const MissingUserField: Json := JStr("")

  /**
   * `insert_*`: the batch's statements executed in turn, then one commit;
   * a rejected statement raises, the transaction still open.
   */
  function InsertResult(st: Session, rejects: set<nat>, ss: seq<Stmt>): (Session, Option<Exception>) {
    var (run, raised) := RunStatements(st, rejects, ss);
    if raised.None? then (AfterCommit(run), None) else (run, raised)
  }

  /** The statements a flush of `records` for `topic` runs; none for a topic outside the four. */
  function FlushStatements(topic: string, records: seq<Record>, snapshot: Snapshot, methods: map<string, int>): seq<Stmt> {
    match FactOf(topic)
    case None => []
    case Some(f) => BatchUpserts(f, records, MissingUserField, snapshot, methods)
  }

  /** What `flush_buffer(topic)` does to the warehouse session, starting from the buffers `buffered`, and how it ends. */
  function FlushResult(routing: TopicTable, snapshot: Snapshot, methods: map<string, int>, rejects: set<nat>,
                       buffered: map<string, seq<Record>>, topic: string, st: Session): (Session, Outcome) {
    if topic !in buffered then (st, Unsubscribed)
    else if buffered[topic] == [] then (st, NothingBuffered)
    else if FindTopic(routing.streams + routing.tables, topic).None? then (st, NoConfig)
    else if IsEmpty(buffered[topic]) then (st, EmptyFrame)
    else if FactOf(topic).None? then (st, Unsupported)
    else
      var (after, raised) := InsertResult(st, rejects, FlushStatements(topic, buffered[topic], snapshot, methods));
      if raised.None? then (after, Inserted) else (AfterRollback(after), Failed(raised.value))
  }

  /**
   * An insert that returns has committed the batch's upserts on top of the
   * old rows, the session seeing the statements followed by exactly one
   * commit; one that raises has committed nothing.
   */
  lemma InsertCommitsOnce(st: Session, rejects: set<nat>, ss: seq<Stmt>)
    requires st.pending == []
    ensures var (after, raised) := InsertResult(st, rejects, ss);
            && (raised.None? ==>
                  && after.committed == ApplyAll(st.committed, ss) && after.pending == []
                  && after.events == st.events + Trace(ss) + [Committed])
            && (raised.Some? ==> raised == Some(DbError) && after.committed == st.committed)
  {
    RunStatementsEffect(st, rejects, ss);
    assert ss[..|ss|] == ss && st.pending + ss == ss;
  }

  /**
   * A flush writes all or nothing. When it inserts, the committed rows are
   * the batch's upserts applied to the old ones, and the session saw the
   * batch's statements followed by exactly one commit. Otherwise the
   * committed rows are unchanged: a failure raised DbError and left no
   * statement pending, and every other outcome touched nothing.
   */
  lemma FlushAllOrNothing(routing: TopicTable, snapshot: Snapshot, methods: map<string, int>, rejects: set<nat>,
                          buffered: map<string, seq<Record>>, topic: string, st: Session)
    requires st.pending == []
    ensures var (after, outcome) := FlushResult(routing, snapshot, methods, rejects, buffered, topic, st);
            var ss := if topic in buffered then FlushStatements(topic, buffered[topic], snapshot, methods) else [];
            && after.pending == []
            && (outcome == Inserted ==>
                  && after.committed == ApplyAll(st.committed, ss)
                  && after.events == st.events + Trace(ss) + [Committed])
            && (outcome.Failed? ==> outcome.exc == DbError && after.committed == st.committed)
            && (!outcome.Failed? && outcome != Inserted ==> after == st)
  {
    if topic in buffered {
      InsertCommitsOnce(st, rejects, FlushStatements(topic, buffered[topic], snapshot, methods));
    }
  }

  /**
   * Records delivered again after their batch was committed (Kafka
   * delivers at least once) leave the warehouse as it was: the second
   * flush of the same records rewrites the same rows.
   */
  lemma RedeliveryHarmless(routing: TopicTable, snapshot: Snapshot, methods: map<string, int>, rejects: set<nat>,
                           buffered: map<string, seq<Record>>, topic: string, st: Session)
    requires st.pending == []
    requires FlushResult(routing, snapshot, methods, rejects, buffered, topic, st).1 == Inserted
    requires var st1 := FlushResult(routing, snapshot, methods, rejects, buffered, topic, st).0;
             FlushResult(routing, snapshot, methods, rejects, buffered, topic, st1).1 == Inserted
    ensures var st1 := FlushResult(routing, snapshot, methods, rejects, buffered, topic, st).0;
            FlushResult(routing, snapshot, methods, rejects, buffered, topic, st1).0.committed == st1.committed
  {
    var st1 := FlushResult(routing, snapshot, methods, rejects, buffered, topic, st).0;
    var ss := FlushStatements(topic, buffered[topic], snapshot, methods);
    FlushAllOrNothing(routing, snapshot, methods, rejects, buffered, topic, st);
    FlushAllOrNothing(routing, snapshot, methods, rejects, buffered, topic, st1);
    UpsertsIdempotent(st.committed, ss);
  }

  /**
   * `flush_all_buffers`: the topics flushed in turn, each from the
   * buffers, flush times and session the previous flush left.
   */
  function FlushEach(routing: TopicTable, snapshot: Snapshot, methods: map<string, int>, rejects: set<nat>,
                     buffered: map<string, seq<Record>>, flushedAt: map<string, int>, topics: seq<string>,
                     now: int, st: Session): (Session, map<string, seq<Record>>, map<string, int>)
    decreases |topics|
  {
    if topics == [] then (st, buffered, flushedAt)
    else
      var (st1, outcome) := FlushResult(routing, snapshot, methods, rejects, buffered, topics[0], st);
      var (b1, f1) := Cleared(buffered, flushedAt, topics[0], now, outcome == Inserted);
      FlushEach(routing, snapshot, methods, rejects, b1, f1, topics[1..], now, st1)
  }

  /**
   * After `flush_all_buffers` every buffer is either emptied, its flush
   * time set to `now`, or holds exactly the records it held before, and
   * no transaction is left open.
   */
  lemma {:induction false} FlushEachEmptiesOrKeeps(routing: TopicTable, snapshot: Snapshot, methods: map<string, int>,
                                                   rejects: set<nat>, buffered: map<string, seq<Record>>,
                                                   flushedAt: map<string, int>, topics: seq<string>, now: int, st: Session)
    requires st.pending == [] && buffered.Keys == flushedAt.Keys
    ensures var (after, buffers, lastFlush) := FlushEach(routing, snapshot, methods, rejects, buffered, flushedAt, topics, now, st);
            && after.pending == []
            && buffers.Keys == buffered.Keys && lastFlush.Keys == flushedAt.Keys
            && forall t :: t in buffered ==>
                 (buffers[t] == [] && lastFlush[t] == now) || (buffers[t] == buffered[t] && lastFlush[t] == flushedAt[t])
    decreases |topics|
  {
    if topics != [] {
      var (st1, outcome) := FlushResult(routing, snapshot, methods, rejects, buffered, topics[0], st);
      var (b1, f1) := Cleared(buffered, flushedAt, topics[0], now, outcome == Inserted);
      FlushAllOrNothing(routing, snapshot, methods, rejects, buffered, topics[0], st);
      FlushEachEmptiesOrKeeps(routing, snapshot, methods, rejects, b1, f1, topics[1..], now, st1);
      assert outcome == Inserted ==> topics[0] in buffered;
    }
  }

  class Consumer {
    /** `KAFKA_TOPICS`. */
    const routing: TopicTable
    /** `BATCH_CONFIG`. */
    const batch: BatchConfig
    const topics: seq<string>
    /** `snapshot_date` (the day of construction) and `snapshot_version`. */
    const snapshot: Snapshot
    /** The MySQL connection. */
    const db: Connection
    /** `message_buffers`. */
    var buffers: map<string, seq<Record>>
    /** `last_flush_time`, in seconds. */
    var lastFlush: map<string, int>

    /** Every subscribed topic, and only those, has a buffer and a flush time, and no transaction is left open. */
    ghost predicate Valid()
      reads this, db
    {
      buffers.Keys == lastFlush.Keys == (set t | t in topics) && db.pending == []
    }

    /**
     * `__init__`: the given topics, or the enabled table topics routed to
     * "data_warehouse" or "both"; every one starts with an empty buffer,
     * flushed `now`; the snapshot is version 1 of `today`.
     */
    constructor(routing: TopicTable, batch: BatchConfig, requested: Option<seq<string>>, db: Connection, now: int, today: Date)
      requires db.pending == []
      ensures this.routing == routing && this.batch == batch && this.db == db
      ensures requested.Some? ==> topics == requested.value
      ensures requested.None? ==> topics == RoutedTopics(routing.tables, "data_warehouse")
      ensures snapshot == Snapshot(today, 1)
      ensures buffers == map t | t in topics :: []
      ensures lastFlush == map t | t in topics :: now
      ensures Valid()
    {
      var chosen := if requested.None? then RoutedTopics(routing.tables, "data_warehouse") else requested.value;
      this.routing := routing;
      this.batch := batch;
      this.db := db;
      topics := chosen;
      snapshot := Snapshot(today, 1);
      buffers := map t | t in chosen :: [];
      lastFlush := map t | t in chosen :: now;
    }

    /**
     * The body of the `insert_*` loops for row `i`: its `dim_users` upsert
     * (user facts only), then its fact upsert, skipped for a payment method
     * without an id. `later` are the statements that follow in the batch.
     */
    method InsertRow(f: Fact, rows: seq<Record>, i: nat, ghost later: seq<Stmt>) returns (raised: Option<Exception>)
      requires i < |rows|
      modifies db
      ensures RunStatements(old(db.State()), db.rejects, RowUpserts(f, rows, i, MissingUserField, snapshot, db.paymentMethods) + later)
              == if raised.None? then RunStatements(db.State(), db.rejects, later) else (db.State(), raised)
    {
      ghost var factPart := match FactUpsert(f, rows, i, snapshot, db.paymentMethods) case None => [] case Some(s) => [s];
      ghost var row := RowUpserts(f, rows, i, MissingUserField, snapshot, db.paymentMethods);
      if HasUser(f) {
        var u := UserUpsert(rows, i, MissingUserField);
        assert row + later == [u] + (factPart + later);
        RunStatementsStep(db.State(), db.rejects, u, factPart + later);
        raised := db.Execute(u);
        if raised.Some? {
          return;
        }
      } else {
        assert row + later == factPart + later;
      }
      var fact: Option<Stmt>;
      if f == PaymentTotals {
        var id := db.PaymentMethodId(Col(rows, i, "payment_method"));
        if id.Some? && id.value != 0 {
          fact := Some(PaymentUpsert(rows, i, snapshot, id.value));
        } else {
          fact := None;
        }
      } else {
        fact := FactUpsert(f, rows, i, snapshot, db.paymentMethods);
      }
      assert fact == FactUpsert(f, rows, i, snapshot, db.paymentMethods);
      raised := None;
      if fact.Some? {
        assert factPart + later == [fact.value] + later;
        RunStatementsStep(db.State(), db.rejects, fact.value, later);
        raised := db.Execute(fact.value);
      } else {
        assert factPart + later == later;
      }
    }

    /**
     * The four `insert_*` methods: every row's statements executed in turn,
     * then one commit. A rejected statement raises at once.
     */
    method InsertRows(f: Fact, rows: seq<Record>) returns (raised: Option<Exception>)
      modifies db
      ensures (db.State(), raised)
              == InsertResult(old(db.State()), db.rejects, BatchUpserts(f, rows, MissingUserField, snapshot, db.paymentMethods))
    {
      ghost var total := RunStatements(db.State(), db.rejects, BatchUpserts(f, rows, MissingUserField, snapshot, db.paymentMethods));
      for i := 0 to |rows|
        invariant RunStatements(db.State(), db.rejects, UpsertsFrom(f, rows, i, MissingUserField, snapshot, db.paymentMethods)) == total
      {
        raised := InsertRow(f, rows, i, UpsertsFrom(f, rows, i + 1, MissingUserField, snapshot, db.paymentMethods));
        if raised.Some? {
          return;
        }
      }
      db.Commit();
      raised := None;
    }

    /**
     * `flush_buffer`: nothing for an empty buffer; otherwise a topic with
     * an entry in the routing table and one of the four fact tables has its
     * batch inserted, and the buffer is emptied only when the insert
     * returns; a raised insert is rolled back.
     */
    method FlushBuffer(topic: string, now: int) returns (outcome: Outcome)
      requires Valid()
      modifies this, db
      ensures Valid()
      ensures (db.State(), outcome)
              == FlushResult(routing, snapshot, db.paymentMethods, db.rejects, old(buffers), topic, old(db.State()))
      ensures (buffers, lastFlush) == Cleared(old(buffers), old(lastFlush), topic, now, outcome == Inserted)
    {
      if topic !in buffers {
        return Unsubscribed;
      }
      if buffers[topic] == [] {
        return NothingBuffered;
      }
      var messages := buffers[topic];
      var config := GetTopicConfig(routing, topic);
      if config.None? {
        return NoConfig;
      }
      if IsEmpty(messages) {
        return EmptyFrame;
      }
      var fact := FactOf(topic);
      if fact.None? {
        return Unsupported;
      }
      var raised := InsertRows(fact.value, messages);
      if raised.Some? {
        db.Rollback();
        return Failed(raised.value);
      }
      ClearedKeepsTopics(buffers, lastFlush, topic, now, true);
      buffers := buffers[topic := []];
      lastFlush := lastFlush[topic := now];
      outcome := Inserted;
    }

    /**
     * `process_message`: the record goes to the end of its topic's buffer,
     * and the buffer is flushed when it has reached the batch size or its
     * last flush is at least the batch timeout ago.
     */
    method ProcessMessage(topic: string, value: Record, now: int) returns (outcome: Outcome)
      requires Valid()
      modifies this, db
      ensures Valid()
      ensures topic !in old(buffers) ==>
                && outcome == Unsubscribed && db.State() == old(db.State())
                && buffers == old(buffers) && lastFlush == old(lastFlush)
      ensures topic in old(buffers) ==>
                var appended := Appended(old(buffers), topic, value);
                if ShouldFlush(|appended[topic]|, now - old(lastFlush[topic]), batch) then
                  && (db.State(), outcome)
                     == FlushResult(routing, snapshot, db.paymentMethods, db.rejects, appended, topic, old(db.State()))
                  && (buffers, lastFlush) == Cleared(appended, old(lastFlush), topic, now, outcome == Inserted)
                else
                  outcome == Buffered && db.State() == old(db.State()) && buffers == appended && lastFlush == old(lastFlush)
    {
      if topic !in buffers {
        return Unsubscribed;
      }
      buffers := Appended(buffers, topic, value);
      if ShouldFlush(|buffers[topic]|, now - lastFlush[topic], batch) {
        outcome := FlushBuffer(topic, now);
      } else {
        outcome := Buffered;
      }
    }

    /** `flush_all_buffers`: every subscribed topic flushed in turn. */
    method FlushAllBuffers(now: int)
      requires Valid()
      modifies this, db
      ensures Valid()
      ensures (db.State(), buffers, lastFlush)
              == FlushEach(routing, snapshot, db.paymentMethods, db.rejects, old(buffers), old(lastFlush), topics, now, old(db.State()))
    {
      for i := 0 to |topics|
        invariant Valid()
        invariant FlushEach(routing, snapshot, db.paymentMethods, db.rejects, buffers, lastFlush, topics[i..], now, db.State())
                  == FlushEach(routing, snapshot, db.paymentMethods, db.rejects, old(buffers), old(lastFlush), topics, now, old(db.State()))
      {
        assert topics[i..][0] == topics[i] && topics[i..][1..] == topics[i + 1..];
        var outcome := FlushBuffer(topics[i], now);
      }
    }
  }
}
