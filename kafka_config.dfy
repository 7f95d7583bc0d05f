/**
 * The Kafka routing tables: which topics exist, which feed each carries and
 * where it is delivered, and the lookups the consumers make on them.
 */
module KafkaConfig {
  import opened Wrappers

  datatype TopicConfig = TopicConfig(
    topic: string,
    feedType: string,
    destination: string,
    partitioning: string,
    storageMode: string,
    mysqlTable: Option<string>,
    enabled: bool)

  /** `KAFKA_TOPICS`: the stream topics, then the table topics, each in declaration order. */
  datatype TopicTable = TopicTable(streams: seq<TopicConfig>, tables: seq<TopicConfig>)

  const KafkaTopics: TopicTable := TopicTable(
    [ TopicConfig("transaction_stream", "stream", "data_lake", "date", "append", None, true),
      TopicConfig("transaction_flattened", "stream", "data_lake", "date", "append", None, true),
      TopicConfig("transaction_stream_anonymized", "stream", "data_lake", "date", "append", None, true),
      TopicConfig("transaction_stream_blacklisted", "stream", "data_lake", "date", "append", None, true) ],
    [ TopicConfig("user_transaction_summary", "table", "both", "version", "overwrite",
                  Some("fact_user_transaction_summary"), true),
      TopicConfig("user_transaction_summary_eur", "table", "both", "version", "overwrite",
                  Some("fact_user_transaction_summary_eur"), true),
      TopicConfig("payment_method_totals", "table", "both", "version", "overwrite",
                  Some("fact_payment_method_totals"), true),
      TopicConfig("product_purchase_counts", "table", "both", "version", "overwrite",
                  Some("fact_product_purchase_counts"), true) ])

  /** `BATCH_CONFIG`. */
  datatype BatchConfig = BatchConfig(batchSize: int, batchTimeoutSeconds: int, maxRetries: int, retryDelaySeconds: int)

  const Batch: BatchConfig := BatchConfig(1000, 30, 3, 5)

  /** The topics of the enabled entries, in order. */
  function EnabledTopics(entries: seq<TopicConfig>): seq<string> {
    if entries == [] then []
    else
      var last := entries[|entries| - 1];
      EnabledTopics(entries[..|entries| - 1]) + (if last.enabled then [last.topic] else [])
  }

  /** An entry is delivered to `destination` when it is enabled and names it, or names "both". */
  predicate Routes(e: TopicConfig, destination: string) {
    e.enabled && (e.destination == destination || e.destination == "both")
  }

  /** The topics of the entries delivered to `destination`, in order. */
  function RoutedTopics(entries: seq<TopicConfig>, destination: string): seq<string> {
    if entries == [] then []
    else
      var last := entries[|entries| - 1];
      RoutedTopics(entries[..|entries| - 1], destination) + (if Routes(last, destination) then [last.topic] else [])
  }

  /** `get_all_topics`. */
  method GetAllTopics(kt: TopicTable) returns (topics: seq<string>)
    ensures topics == EnabledTopics(kt.streams) + EnabledTopics(kt.tables)
  {
    topics := [];
    for i := 0 to |kt.streams|
      invariant topics == EnabledTopics(kt.streams[..i])
    {
      assert kt.streams[..i + 1][..i] == kt.streams[..i];
      if kt.streams[i].enabled {
        topics := topics + [kt.streams[i].topic];
      }
    }
    assert kt.streams[..|kt.streams|] == kt.streams;
    ghost var streamTopics := topics;
    for i := 0 to |kt.tables|
      invariant topics == streamTopics + EnabledTopics(kt.tables[..i])
    {
      assert kt.tables[..i + 1][..i] == kt.tables[..i];
      if kt.tables[i].enabled {
        topics := topics + [kt.tables[i].topic];
      }
    }
    assert kt.tables[..|kt.tables|] == kt.tables;
  }

  /** The first entry whose topic is `name`, if any. */
  function FindTopic(entries: seq<TopicConfig>, name: string): Option<TopicConfig> {
    if entries == [] then None
    else if entries[0].topic == name then Some(entries[0])
    else FindTopic(entries[1..], name)
  }

  /** `get_topic_config`: searches the streams, then the tables, and returns at the first match. */
  method GetTopicConfig(kt: TopicTable, name: string) returns (r: Option<TopicConfig>)
    ensures r == FindTopic(kt.streams + kt.tables, name)
  {
    var all := kt.streams + kt.tables;
    for i := 0 to |kt.streams|
      invariant FindTopic(all[i..], name) == FindTopic(all, name)
    {
      assert all[i..][1..] == all[i + 1..];
      if kt.streams[i].topic == name {
        return Some(kt.streams[i]);
      }
    }
    for i := 0 to |kt.tables|
      invariant FindTopic(all[|kt.streams| + i..], name) == FindTopic(all, name)
    {
      assert all[|kt.streams| + i..][1..] == all[|kt.streams| + i + 1..];
      if kt.tables[i].topic == name {
        return Some(kt.tables[i]);
      }
    }
    r := None;
  }

  /** The lookup finds nothing exactly when no entry has the topic, and otherwise the first entry that has it. */
  lemma {:induction false} FindTopicFirstMatch(entries: seq<TopicConfig>, name: string)
    ensures FindTopic(entries, name).None? <==> forall e :: e in entries ==> e.topic != name
    ensures FindTopic(entries, name).Some? ==>
              exists i :: 0 <= i < |entries| && entries[i] == FindTopic(entries, name).value && entries[i].topic == name
                          && forall j :: 0 <= j < i ==> entries[j].topic != name
  {
    if entries != [] && entries[0].topic != name {
      var t := entries[1..];
      FindTopicFirstMatch(t, name);
      assert entries == [entries[0]] + t;
      if FindTopic(t, name).Some? {
        var i :| 0 <= i < |t| && t[i] == FindTopic(t, name).value && t[i].topic == name
                 && forall j :: 0 <= j < i ==> t[j].topic != name;
        assert entries[i + 1] == t[i];
        assert forall j :: 1 <= j <= i ==> entries[j] == t[j - 1];
      }
    }
  }

  /** `get_topics_for_destination`. */
  method GetTopicsForDestination(kt: TopicTable, destination: string) returns (topics: seq<string>)
    ensures topics == RoutedTopics(kt.streams, destination) + RoutedTopics(kt.tables, destination)
  {
    topics := [];
    for i := 0 to |kt.streams|
      invariant topics == RoutedTopics(kt.streams[..i], destination)
    {
      assert kt.streams[..i + 1][..i] == kt.streams[..i];
      if kt.streams[i].enabled && (kt.streams[i].destination == destination || kt.streams[i].destination == "both") {
        topics := topics + [kt.streams[i].topic];
      }
    }
    assert kt.streams[..|kt.streams|] == kt.streams;
    ghost var streamTopics := topics;
    for i := 0 to |kt.tables|
      invariant topics == streamTopics + RoutedTopics(kt.tables[..i], destination)
    {
      assert kt.tables[..i + 1][..i] == kt.tables[..i];
      if kt.tables[i].enabled && (kt.tables[i].destination == destination || kt.tables[i].destination == "both") {
        topics := topics + [kt.tables[i].topic];
      }
    }
    assert kt.tables[..|kt.tables|] == kt.tables;
  }

  // ---------------------------------------------------------------------------
  // Properties of the routing

  /** A topic is listed exactly when some enabled entry carries it. */
  lemma {:induction false} EnabledTopicsMembers(entries: seq<TopicConfig>, t: string)
    ensures t in EnabledTopics(entries) <==> exists e :: e in entries && e.enabled && e.topic == t
  {
    if entries != [] {
      var init := entries[..|entries| - 1];
      EnabledTopicsMembers(init, t);
      assert entries == init + [entries[|entries| - 1]];
    }
  }

  /** A topic is routed to `destination` exactly when some entry delivered there carries it. */
  lemma {:induction false} RoutedTopicsMembers(entries: seq<TopicConfig>, destination: string, t: string)
    ensures t in RoutedTopics(entries, destination) <==> exists e :: e in entries && Routes(e, destination) && e.topic == t
  {
    if entries != [] {
      var init := entries[..|entries| - 1];
      RoutedTopicsMembers(init, destination, t);
      assert entries == init + [entries[|entries| - 1]];
    }
  }

  /** `a` is `b` with some elements left out, the rest in their order. */
  predicate IsSubsequence<T(==)>(a: seq<T>, b: seq<T>)
    decreases |b|
  {
    if b == [] then a == []
    else (a != [] && a[0] == b[0] && IsSubsequence(a[1..], b[1..])) || IsSubsequence(a, b[1..])
  }

  lemma {:induction false} SubsequenceReflexive<T>(a: seq<T>)
    ensures IsSubsequence(a, a)
    decreases |a|
  {
    if a != [] {
      SubsequenceReflexive(a[1..]);
    }
  }

  lemma {:induction false} SubsequenceConcat<T>(a1: seq<T>, b1: seq<T>, a2: seq<T>, b2: seq<T>)
    requires IsSubsequence(a1, b1) && IsSubsequence(a2, b2)
    ensures IsSubsequence(a1 + a2, b1 + b2)
    decreases |b1|
  {
    if b1 == [] {
      assert a1 + a2 == a2 && b1 + b2 == b2;
    } else {
      assert (b1 + b2)[1..] == b1[1..] + b2;
      if a1 != [] && a1[0] == b1[0] && IsSubsequence(a1[1..], b1[1..]) {
        SubsequenceConcat(a1[1..], b1[1..], a2, b2);
        assert (a1 + a2)[1..] == a1[1..] + a2;
      } else {
        SubsequenceConcat(a1, b1[1..], a2, b2);
      }
    }
  }

  lemma {:induction false} RoutedWithinEnabled(entries: seq<TopicConfig>, destination: string)
    ensures IsSubsequence(RoutedTopics(entries, destination), EnabledTopics(entries))
  {
    if entries != [] {
      var init := entries[..|entries| - 1];
      var last := entries[|entries| - 1];
      RoutedWithinEnabled(init, destination);
      if Routes(last, destination) {
        SubsequenceReflexive([last.topic]);
        SubsequenceConcat(RoutedTopics(init, destination), EnabledTopics(init), [last.topic], [last.topic]);
      } else if last.enabled {
        assert IsSubsequence([], [last.topic]);
        SubsequenceConcat(RoutedTopics(init, destination), EnabledTopics(init), [], [last.topic]);
        assert RoutedTopics(init, destination) + [] == RoutedTopics(entries, destination);
      } else {
        assert RoutedTopics(entries, destination) == RoutedTopics(init, destination);
        assert EnabledTopics(entries) == EnabledTopics(init);
      }
    }
  }

  /** What `get_topics_for_destination(d)` returns is a subsequence of what `get_all_topics()` returns. */
  lemma DestinationTopicsWithinAll(kt: TopicTable, destination: string)
    ensures IsSubsequence(RoutedTopics(kt.streams, destination) + RoutedTopics(kt.tables, destination),
                          EnabledTopics(kt.streams) + EnabledTopics(kt.tables))
  {
    RoutedWithinEnabled(kt.streams, destination);
    RoutedWithinEnabled(kt.tables, destination);
    SubsequenceConcat(RoutedTopics(kt.streams, destination), EnabledTopics(kt.streams),
                      RoutedTopics(kt.tables, destination), EnabledTopics(kt.tables));
  }

  const StreamTopicNames: seq<string> :=
    ["transaction_stream", "transaction_flattened", "transaction_stream_anonymized", "transaction_stream_blacklisted"]
  const TableTopicNames: seq<string> :=
    ["user_transaction_summary", "user_transaction_summary_eur", "payment_method_totals", "product_purchase_counts"]

  lemma FiltersOfFour(es: seq<TopicConfig>, destination: string)
    requires |es| == 4
    ensures RoutedTopics(es, destination) == RoutedTopics(es[..3], destination) + (if Routes(es[3], destination) then [es[3].topic] else [])
    ensures RoutedTopics(es[..3], destination) == RoutedTopics(es[..2], destination) + (if Routes(es[2], destination) then [es[2].topic] else [])
    ensures RoutedTopics(es[..2], destination) == RoutedTopics(es[..1], destination) + (if Routes(es[1], destination) then [es[1].topic] else [])
    ensures RoutedTopics(es[..1], destination) == (if Routes(es[0], destination) then [es[0].topic] else [])
    ensures EnabledTopics(es) == EnabledTopics(es[..3]) + (if es[3].enabled then [es[3].topic] else [])
    ensures EnabledTopics(es[..3]) == EnabledTopics(es[..2]) + (if es[2].enabled then [es[2].topic] else [])
    ensures EnabledTopics(es[..2]) == EnabledTopics(es[..1]) + (if es[1].enabled then [es[1].topic] else [])
    ensures EnabledTopics(es[..1]) == (if es[0].enabled then [es[0].topic] else [])
  {
    assert es[..3][..2] == es[..2] && es[..2][..1] == es[..1] && es[..1][..0] == [];
  }

  /**
   * With the shipped table the data-lake consumer subscribes to the four
   * stream topics and then the four table topics (tables are routed to
   * "both"), and the warehouse consumer to the four table topics.
   */
  lemma ShippedRouting()
    ensures RoutedTopics(KafkaTopics.streams, "data_lake") + RoutedTopics(KafkaTopics.tables, "data_lake")
            == StreamTopicNames + TableTopicNames
    ensures RoutedTopics(KafkaTopics.tables, "data_warehouse") == TableTopicNames
    ensures EnabledTopics(KafkaTopics.streams) + EnabledTopics(KafkaTopics.tables) == StreamTopicNames + TableTopicNames
  {
    FiltersOfFour(KafkaTopics.streams, "data_lake");
    FiltersOfFour(KafkaTopics.tables, "data_lake");
    FiltersOfFour(KafkaTopics.tables, "data_warehouse");
  }
}
