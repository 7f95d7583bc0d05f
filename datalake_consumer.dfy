/**
 * The Kafka consumer that feeds the data lake (`DataLakeKafkaConsumer`).
 * Records are buffered per topic and flushed when the buffer is full or old
 * enough. A stream batch is written to the partition of the current day; a
 * table batch becomes a new version, after which only the seven highest
 * versions are kept. The buffer is emptied only once the write returned.
 */
module DataLakeConsumer {
  import opened Wrappers
  import opened JsonDoc
  import opened Frames
  import opened Calendar
  import opened Lake
  import opened LakeConfig
  import opened KafkaConfig
  import opened Versions
  import opened Ingest

  /** How a call to `process_message` or `flush_buffer` ended. */
  datatype Outcome =
    | Unsubscribed            // KeyError: the topic has no buffer
    | Buffered                // appended, no flush triggered
    | NothingBuffered         // flush of an empty buffer: nothing happens
    | NoConfig                // no routing entry for the topic: a warning, the records stay
    | EmptyFrame              // the records make an empty DataFrame: a warning, the records stay
    | Written                 // the batch was written and the buffer emptied
    | Failed(exc: Exception)  // the write raised; logged, the records stay for a retry

  /** The outcome of a flush whose write ended with `raised`. */
  function AfterWrite(raised: Option<Exception>): (o: Outcome)
    ensures o == Written <==> raised.None?
    ensures raised.Some? ==> o == Failed(raised.value)
  {
    if raised.None? then Written else Failed(raised.value)
  }

  /** The versions `write_table_data` keeps. */
  const RetainedVersions: int := 7

  /** `data_<timestamp>.parquet`, `stamp` being the `%Y%m%d_%H%M%S` rendering of the clock. */
  function DataFileName(stamp: string): string {
    "data_" + stamp + ".parquet"
  }

  /** `snapshot_<timestamp>.parquet`. */
  function SnapshotFileName(stamp: string): string {
    "snapshot_" + stamp + ".parquet"
  }

  /** A file-system state and the exception, if any, that interrupted the operation producing it. */
  datatype Write = Write(lake: Lake, raised: Option<Exception>)

  /** The partition of a stream topic that a batch written on `today` goes to. */
  function StreamPartition(topic: string, today: Date): Path {
    DatePartitionPath(StreamPath(topic), today.year, today.month, today.day)
  }

  /**
   * `write_stream_data`: the day's partition is created, then the Parquet
   * file is written into it unless the write fails.
   */
  function WriteStreamData(lake: Lake, topic: string, today: Date, stamp: string, writeFails: bool): (w: Write)
    ensures StreamPartition(topic, today) in w.lake.dirs
    ensures w.raised.Some? <==> writeFails
    ensures writeFails ==> w.raised == Some(OSError)
    ensures !writeFails ==> DataFileName(stamp) in w.lake.dirs[StreamPartition(topic, today)]
    ensures w.lake.manifests == lake.manifests
  {
    var partition := StreamPartition(topic, today);
    var created := MkDirs(lake, partition);
    if writeFails then Write(created, Some(OSError))
    else Write(WriteFile(created, partition, DataFileName(stamp)), None)
  }

  /**
   * A stream write touches nothing but the day's partition and its
   * ancestors: the partition gains at most the new file, every other
   * existing directory keeps its files, and the only new directories are
   * the partition and its ancestors.
   */
  lemma StreamWriteIsLocal(lake: Lake, topic: string, today: Date, stamp: string, writeFails: bool)
    ensures var p := StreamPartition(topic, today);
            var w := WriteStreamData(lake, topic, today, stamp, writeFails);
            && (forall q :: q in lake.dirs && q != p ==> q in w.lake.dirs && w.lake.dirs[q] == lake.dirs[q])
            && (forall q :: q in w.lake.dirs ==> q in lake.dirs || Under(p, q))
            && (forall f :: f in w.lake.dirs[p] ==> f == DataFileName(stamp) || (p in lake.dirs && f in lake.dirs[p]))
            && (p in lake.dirs ==> forall f :: f in lake.dirs[p] ==> f in w.lake.dirs[p])
  {
    var p := StreamPartition(topic, today);
    var created := MkDirs(lake, p);
    MkDirsEffect(lake, p);
    forall q | q in created.dirs ensures q in lake.dirs || Under(p, q) {
      if q !in lake.dirs {
        var i :| 1 <= i <= |p| && q == p[..i];
        assert p[..|q|] == q;
      }
    }
    assert p[..|p|] == p;
    assert created.dirs[p] == (if p in lake.dirs then lake.dirs[p] else []);
    if !writeFails {
      WriteFileEffect(created, p, DataFileName(stamp));
    }
  }

  // ---------------------------------------------------------------------------
  // Table writes

  /**
   * The state `cleanup_old_versions(base, retention)` leaves: a ValueError
   * and no deletion when a `version=v*` name does not parse; otherwise,
   * when there are more than `retention` versions, all but the last
   * `retention` of the ascending order are gone with their subtrees.
   */
  ghost predicate CleanedUp(lake: Lake, base: Path, retention: int, after: Lake, raised: Option<Exception>) {
    var names := Glob(lake, base, VersionPrefix);
    if !AllParse(names) then raised == Some(ValueError) && after == lake
    else
      && raised == None
      && exists deleted :: DeletesLowest(names, deleted, AscendingDropCount(|names|, retention), NumberLe)
                           && after == Prune(lake, Subtrees(base, deleted))
  }

  /** `cleanup_old_versions`. */
  method CleanupOldVersions(lake: Lake, base: Path, retention: int) returns (after: Lake, raised: Option<Exception>)
    ensures CleanedUp(lake, base, retention, after, raised)
  {
    var names := Glob(lake, base, VersionPrefix);
    var sorted := SortAscending(names);
    if sorted.Raised? {
      return lake, Some(sorted.exc);
    }
    var dirs := sorted.value;
    assert |dirs| == |names| by {
      assert |multiset(dirs)| == |multiset(names)|;
    }
    var victims: seq<string> := [];
    if |dirs| > retention {
      victims := dirs[..SliceIndex(|dirs|, -retention)];
    }
    PrefixDeletesLowest(names, dirs, |victims|, NumberLe);
    ListingDistinct(names, dirs);
    var files;
    after, files := DeleteTrees(lake, ChildPaths(base, victims), false);
    assert |victims| == AscendingDropCount(|names|, retention);
    assert DeletesLowest(names, victims, AscendingDropCount(|names|, retention), NumberLe);
    assert after == Prune(lake, Subtrees(base, victims));
    raised := None;
  }

  /**
   * What `write_table_data` leaves: the table directory, then the directory
   * of the allocated `version`, then (unless the write fails) the snapshot
   * file in it, followed by the cleanup that keeps seven versions.
   */
  ghost predicate WroteTable(lake: Lake, topic: string, stamp: string, writeFails: bool, version: int,
                             after: Lake, raised: Option<Exception>) {
    var base := TablePath(topic);
    var created := MkDirs(lake, base);
    var partition := VersionPartitionPath(base, version);
    var prepared := MkDirs(created, partition);
    && IsNextVersion(Glob(created, base, VersionPrefix), version)
    && if writeFails then after == prepared && raised == Some(OSError)
       else CleanedUp(WriteFile(prepared, partition, SnapshotFileName(stamp)), base, RetainedVersions, after, raised)
  }

  /** `write_table_data`; the allocated version is returned for the caller's log line. */
  method WriteTableData(lake: Lake, topic: string, stamp: string, writeFails: bool)
    returns (after: Lake, raised: Option<Exception>, version: int)
    ensures WroteTable(lake, topic, stamp, writeFails, version, after, raised)
  {
    var base := TablePath(topic);
    var created := MkDirs(lake, base);
    var existing := Glob(created, base, VersionPrefix);
    version := NextVersion(existing);
    var partition := VersionPartitionPath(base, version);
    var prepared := MkDirs(created, partition);
    assert partition[..|partition|] == partition;
    if writeFails {
      return prepared, Some(OSError), version;
    }
    after, raised := CleanupOldVersions(WriteFile(prepared, partition, SnapshotFileName(stamp)), base, RetainedVersions);
  }

  /**
   * Creating the new version's directory adds exactly its name to the
   * versions listed under the table directory.
   */
  lemma NewVersionListed(created: Lake, base: Path, version: int)
    ensures Glob(MkDirs(created, VersionPartitionPath(base, version)), base, VersionPrefix)
            == Glob(created, base, VersionPrefix) + {VersionSegment(version)}
  {
    var partition := VersionPartitionPath(base, version);
    var prepared := MkDirs(created, partition);
    var seg := VersionSegment(version);
    GlobMembers(prepared, base, VersionPrefix);
    GlobMembers(created, base, VersionPrefix);
    MkDirsEffect(created, partition);
    VersionSegmentRoundTrip(version);
    assert partition == base + [seg];
    forall n | base + [n] in prepared.dirs && base + [n] !in created.dirs ensures n == seg {
      NewChildOfPartition(base, seg, n, partition);
    }
  }

  /** The only directory right under `base` that a path `base + [seg]` adds is `seg`. */
  lemma NewChildOfPartition(base: Path, seg: string, n: string, partition: Path)
    requires partition == base + [seg]
    requires exists i :: 1 <= i <= |partition| && base + [n] == partition[..i]
    ensures n == seg
  {
    var i :| 1 <= i <= |partition| && base + [n] == partition[..i];
    assert (base + [n])[|base|] == n;
  }

  /**
   * The snapshot just written survives its own cleanup: its version is the
   * highest, and at least one version is kept.
   */
  lemma SnapshotSurvivesCleanup(lake: Lake, topic: string, stamp: string, version: int, after: Lake)
    requires WroteTable(lake, topic, stamp, false, version, after, None)
    ensures VersionPartitionPath(TablePath(topic), version) in after.dirs
    ensures SnapshotFileName(stamp) in after.dirs[VersionPartitionPath(TablePath(topic), version)]
  {
    var base := TablePath(topic);
    var created := MkDirs(lake, base);
    var partition := VersionPartitionPath(base, version);
    var prepared := MkDirs(created, partition);
    var written := WriteFile(prepared, partition, SnapshotFileName(stamp));
    var old_names := Glob(created, base, VersionPrefix);
    var names := Glob(written, base, VersionPrefix);
    var seg := VersionSegment(version);
    NewVersionListed(created, base, version);
    assert names == Glob(prepared, base, VersionPrefix);
    assert names == old_names + {seg};
    VersionSegmentRoundTrip(version);
    assert AllParse(names);
    var deleted :| DeletesLowest(names, deleted, AscendingDropCount(|names|, RetainedVersions), NumberLe)
                   && after == Prune(written, Subtrees(base, deleted));
    forall k | k in names && k != seg ensures NumberOf(k) < NumberOf(seg) {
      assert VersionNumber(k).value in Parsed(old_names);
    }
    HighestVersionKept(names, deleted, seg, RetainedVersions);
    PruneSparesSibling(written, base, deleted, seg);
  }

  /**
   * A `version=v*` name that does not parse makes the cleanup raise after
   * the snapshot was written: the file stays on disk while the flush fails.
   */
  lemma BadVersionNameFailsAfterWrite(lake: Lake, topic: string, stamp: string, version: int,
                                      after: Lake, raised: Option<Exception>, bad: string)
    requires WroteTable(lake, topic, stamp, false, version, after, raised)
    requires bad in Glob(MkDirs(lake, TablePath(topic)), TablePath(topic), VersionPrefix)
    requires VersionNumber(bad).None?
    ensures raised == Some(ValueError)
    ensures SnapshotFileName(stamp) in after.dirs[VersionPartitionPath(TablePath(topic), version)]
  {
    var base := TablePath(topic);
    var created := MkDirs(lake, base);
    NewVersionListed(created, base, version);
  }

  // ---------------------------------------------------------------------------
  // The consumer

  /**
   * The write of a non-empty batch for a topic configured by `config`: a
   * stream write to today's partition, or a table write of a new version.
   */
  ghost predicate WroteBatch(config: TopicConfig, topic: string, lake: Lake, today: Date, stamp: string,
                             writeFails: bool, after: Lake, raised: Option<Exception>) {
    if config.feedType == "stream" then
      var w := WriteStreamData(lake, topic, today, stamp, writeFails);
      after == w.lake && raised == w.raised
    else
      exists version :: WroteTable(lake, topic, stamp, writeFails, version, after, raised)
  }

  /** The exception a flush outcome stands for. */
  function RaisedBy(outcome: Outcome): Option<Exception> {
    if outcome.Failed? then Some(outcome.exc) else None
  }

  /**
   * What `flush_buffer(topic)` does to the file tree, starting from the
   * buffers `buffered`, and how it ends.
   */
  ghost predicate Flushed(routing: TopicTable, buffered: map<string, seq<Record>>, topic: string,
                          lake: Lake, today: Date, stamp: string, writeFails: bool,
                          after: Lake, outcome: Outcome) {
    if topic !in buffered then outcome == Unsubscribed && after == lake
    else if buffered[topic] == [] then outcome == NothingBuffered && after == lake
    else match FindTopic(routing.streams + routing.tables, topic)
      case None => outcome == NoConfig && after == lake
      case Some(config) =>
        if IsEmpty(buffered[topic]) then outcome == EmptyFrame && after == lake
        else (outcome == Written || outcome.Failed?)
             && WroteBatch(config, topic, lake, today, stamp, writeFails, after, RaisedBy(outcome))
  }

  /** The dispatch of `flush_buffer` on the topic's feed type. */
  method WriteBatch(config: TopicConfig, topic: string, lake: Lake, today: Date, stamp: string, writeFails: bool)
    returns (after: Lake, raised: Option<Exception>)
    ensures WroteBatch(config, topic, lake, today, stamp, writeFails, after, raised)
  {
    if config.feedType == "stream" {
      var w := WriteStreamData(lake, topic, today, stamp, writeFails);
      after, raised := w.lake, w.raised;
    } else {
      var version;
      after, raised, version := WriteTableData(lake, topic, stamp, writeFails);
    }
  }

  class Consumer {
    /** `KAFKA_TOPICS`. */
    const routing: TopicTable
    /** `BATCH_CONFIG`. */
    const batch: BatchConfig
    const topics: seq<string>
    /** `message_buffers`. */
    var buffers: map<string, seq<Record>>
    /** `last_flush_time`, in seconds. */
    var lastFlush: map<string, int>

    /** Every subscribed topic, and only those, has a buffer and a flush time. */
    ghost predicate Valid()
      reads this
    {
      buffers.Keys == lastFlush.Keys == set t | t in topics
    }

    /**
     * `__init__`: the given topics, or those routed to "data_lake"; every
     * one starts with an empty buffer, flushed `now`.
     */
    constructor(routing: TopicTable, batch: BatchConfig, requested: Option<seq<string>>, now: int)
      ensures this.routing == routing && this.batch == batch
      ensures requested.Some? ==> topics == requested.value
      ensures requested.None? ==> topics == RoutedTopics(routing.streams, "data_lake") + RoutedTopics(routing.tables, "data_lake")
      ensures buffers == map t | t in topics :: []
      ensures lastFlush == map t | t in topics :: now
      ensures Valid()
    {
      var chosen: seq<string>;
      if requested.None? {
        chosen := GetTopicsForDestination(routing, "data_lake");
      } else {
        chosen := requested.value;
      }
      this.routing := routing;
      this.batch := batch;
      topics := chosen;
      buffers := map t | t in chosen :: [];
      lastFlush := map t | t in chosen :: now;
    }

    /**
     * `flush_buffer`: nothing for an empty buffer; otherwise the topic's
     * entry decides between a stream and a table write, and the buffer is
     * emptied only when that write returns.
     */
    method FlushBuffer(topic: string, lake: Lake, now: int, today: Date, stamp: string, writeFails: bool)
      returns (after: Lake, outcome: Outcome)
      requires Valid()
      modifies this
      ensures Valid()
      ensures Flushed(routing, old(buffers), topic, lake, today, stamp, writeFails, after, outcome)
      ensures (buffers, lastFlush) == Cleared(old(buffers), old(lastFlush), topic, now, outcome == Written)
    {
      after := lake;
      if topic !in buffers {
        return lake, Unsubscribed;
      }
      if buffers[topic] == [] {
        return lake, NothingBuffered;
      }
      var messages := buffers[topic];
      var config := GetTopicConfig(routing, topic);
      if config.None? {
        return lake, NoConfig;
      }
      if IsEmpty(messages) {
        return lake, EmptyFrame;
      }
      var raised;
      after, raised := WriteBatch(config.value, topic, lake, today, stamp, writeFails);
      outcome := AfterWrite(raised);
      if raised.None? {
        ClearedKeepsTopics(buffers, lastFlush, topic, now, true);
        buffers := buffers[topic := []];
        lastFlush := lastFlush[topic := now];
      }
    }

    /**
     * `process_message`: the record goes to the end of its topic's buffer,
     * and the buffer is flushed when it has reached the batch size or its
     * last flush is at least the batch timeout ago.
     */
    method ProcessMessage(topic: string, value: Record, lake: Lake, now: int, today: Date, stamp: string, writeFails: bool)
      returns (after: Lake, outcome: Outcome)
      requires Valid()
      modifies this
      ensures Valid()
      ensures topic !in old(buffers) ==>
                outcome == Unsubscribed && after == lake && buffers == old(buffers) && lastFlush == old(lastFlush)
      ensures topic in old(buffers) ==>
                var appended := Appended(old(buffers), topic, value);
                if ShouldFlush(|appended[topic]|, now - old(lastFlush[topic]), batch) then
                  && Flushed(routing, appended, topic, lake, today, stamp, writeFails, after, outcome)
                  && (buffers, lastFlush) == Cleared(appended, old(lastFlush), topic, now, outcome == Written)
                else
                  outcome == Buffered && after == lake && buffers == appended && lastFlush == old(lastFlush)
    {
      if topic !in buffers {
        return lake, Unsubscribed;
      }
      buffers := Appended(buffers, topic, value);
      if ShouldFlush(|buffers[topic]|, now - lastFlush[topic], batch) {
        after, outcome := FlushBuffer(topic, lake, now, today, stamp, writeFails);
      } else {
        after, outcome := lake, Buffered;
      }
    }

    /**
     * `flush_all_buffers`: every subscribed topic is flushed in turn, the
     * `i`-th write failing when `i` is in `failing`. `states[i]` (the
     * buffers and the flush times) and `lakes[i]` (the file tree) are what
     * the `i`-th flush starts from.
     */
    method FlushAllBuffers(lake: Lake, now: int, today: Date, stamp: string, failing: set<nat>)
      returns (after: Lake, ghost outcomes: seq<Outcome>, ghost lakes: seq<Lake>, ghost states: seq<(map<string, seq<Record>>, map<string, int>)>)
      requires Valid()
      modifies this
      ensures Valid()
      ensures |outcomes| == |topics| && |lakes| == |states| == |topics| + 1
      ensures lakes[0] == lake && lakes[|topics|] == after
      ensures states[0] == (old(buffers), old(lastFlush)) && states[|topics|] == (buffers, lastFlush)
      ensures FlushedInTurn(routing, topics, today, stamp, failing, now, states, lakes, outcomes)
      ensures forall t :: t in lastFlush ==> lastFlush[t] == old(lastFlush[t]) || lastFlush[t] == now
    {
      after := lake;
      outcomes, lakes, states := [], [lake], [(buffers, lastFlush)];
      for i := 0 to |topics|
        invariant Valid()
        invariant |outcomes| == i && |lakes| == |states| == i + 1
        invariant lakes[0] == lake && lakes[i] == after
        invariant states[0] == (old(buffers), old(lastFlush)) && states[i] == (buffers, lastFlush)
        invariant FlushedInTurn(routing, topics, today, stamp, failing, now, states, lakes, outcomes)
        invariant forall t :: t in lastFlush ==> lastFlush[t] == old(lastFlush[t]) || lastFlush[t] == now
      {
        var outcome;
        after, outcome := FlushBuffer(topics[i], after, now, today, stamp, i in failing);
        assert (states + [(buffers, lastFlush)])[..i + 1] == states && (lakes + [after])[..i + 1] == lakes;
        outcomes, lakes, states := outcomes + [outcome], lakes + [after], states + [(buffers, lastFlush)];
      }
    }
  }

  /**
   * The flushes of `flush_all_buffers` at time `now` so far: flush `j` of
   * topic `topics[j]` took the buffers and flush times `states[j]` and the
   * tree `lakes[j]` to `states[j + 1]` and `lakes[j + 1]`, ending in
   * `outcomes[j]`; the topic's buffer was emptied and its flush time reset
   * only when the flush wrote.
   */
  ghost predicate FlushedInTurn(routing: TopicTable, topics: seq<string>, today: Date, stamp: string, failing: set<nat>,
                                now: int, states: seq<(map<string, seq<Record>>, map<string, int>)>, lakes: seq<Lake>, outcomes: seq<Outcome>)
    decreases |outcomes|
  {
    var n := |outcomes|;
    && |lakes| == |states| == n + 1 && n <= |topics|
    && (n > 0 ==>
         && FlushedInTurn(routing, topics, today, stamp, failing, now, states[..n], lakes[..n], outcomes[..n - 1])
         && Flushed(routing, states[n - 1].0, topics[n - 1], lakes[n - 1], today, stamp, n - 1 in failing, lakes[n], outcomes[n - 1])
         && states[n] == Cleared(states[n - 1].0, states[n - 1].1, topics[n - 1], now, outcomes[n - 1] == Written))
  }

  /** Read flush by flush: topic `topics[j]` was flushed from the state the previous flush left. */
  lemma {:induction false} FlushedInTurnStep(routing: TopicTable, topics: seq<string>, today: Date, stamp: string, failing: set<nat>,
                                             now: int, states: seq<(map<string, seq<Record>>, map<string, int>)>, lakes: seq<Lake>,
                                             outcomes: seq<Outcome>, j: nat)
    requires FlushedInTurn(routing, topics, today, stamp, failing, now, states, lakes, outcomes) && j < |outcomes|
    ensures Flushed(routing, states[j].0, topics[j], lakes[j], today, stamp, j in failing, lakes[j + 1], outcomes[j])
    ensures states[j + 1] == Cleared(states[j].0, states[j].1, topics[j], now, outcomes[j] == Written)
    decreases |outcomes|
  {
    var n := |outcomes|;
    if j < n - 1 {
      FlushedInTurnStep(routing, topics, today, stamp, failing, now, states[..n], lakes[..n], outcomes[..n - 1], j);
      assert states[..n][j] == states[j] && states[..n][j + 1] == states[j + 1];
      assert lakes[..n][j] == lakes[j] && lakes[..n][j + 1] == lakes[j + 1];
      assert outcomes[..n - 1][j] == outcomes[j];
    }
  }
}
