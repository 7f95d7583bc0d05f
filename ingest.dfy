/**
 * The per-topic ingestion buffers that both Kafka consumers keep: the
 * trigger that decides when a buffer is flushed, and what a flush does to
 * the buffers and to the flush times.
 */
module Ingest {
  import opened KafkaConfig
  import opened Frames

  /** The flush trigger, `elapsed` being the whole seconds since the topic's last flush. */
  predicate ShouldFlush(length: nat, elapsed: int, batch: BatchConfig) {
    length >= batch.batchSize || elapsed >= batch.batchTimeoutSeconds
  }

  /**
   * The buffers and flush times after a flush of `topic` at `now`: the
   * buffer is emptied and its flush time reset when the batch was
   * delivered, and nothing changes otherwise.
   */
  function Cleared(buffers: map<string, seq<Record>>, flushedAt: map<string, int>, topic: string, now: int,
                   delivered: bool): (map<string, seq<Record>>, map<string, int>) {
    if delivered then (buffers[topic := []], flushedAt[topic := now]) else (buffers, flushedAt)
  }

  /** A flush, delivered or not, keeps the set of topics that have a buffer and a flush time. */
  lemma ClearedKeepsTopics(buffers: map<string, seq<Record>>, flushedAt: map<string, int>, topic: string, now: int,
                           delivered: bool)
    requires topic in buffers && topic in flushedAt
    ensures Cleared(buffers, flushedAt, topic, now, delivered).0.Keys == buffers.Keys
    ensures Cleared(buffers, flushedAt, topic, now, delivered).1.Keys == flushedAt.Keys
  {
  }

  /** `message_buffers[topic].append(value)`. */
  function Appended(buffers: map<string, seq<Record>>, topic: string, value: Record): map<string, seq<Record>>
    requires topic in buffers
  {
    buffers[topic := buffers[topic] + [value]]
  }

  /**
   * An append adds the record at the end of its own topic's buffer and
   * changes no other buffer.
   */
  lemma AppendIsLocal(buffers: map<string, seq<Record>>, topic: string, value: Record)
    requires topic in buffers
    ensures Appended(buffers, topic, value).Keys == buffers.Keys
    ensures Appended(buffers, topic, value)[topic][..|buffers[topic]|] == buffers[topic]
    ensures |Appended(buffers, topic, value)[topic]| == |buffers[topic]| + 1
    ensures Appended(buffers, topic, value)[topic][|buffers[topic]|] == value
    ensures forall t :: t in buffers && t != topic ==> Appended(buffers, topic, value)[t] == buffers[t]
  {
    assert (buffers[topic] + [value])[..|buffers[topic]|] == buffers[topic];
  }

  /** With batch size 3 and a timeout not yet reached, a buffer is flushed exactly on its third record. */
  lemma ThirdRecordFlushes(batch: BatchConfig, elapsed: int, length: nat)
    requires batch.batchSize == 3 && elapsed < batch.batchTimeoutSeconds
    ensures ShouldFlush(length, elapsed, batch) <==> length >= 3
  {
  }
}
