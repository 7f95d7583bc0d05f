/**
 * The `_metadata.json` manifest of a feed directory as the exporter keeps
 * it: running totals, and one entry per partition keyed by the partition's
 * path relative to the feed directory.
 */
module Manifest {
  import opened Wrappers
  import opened JsonDoc
  import opened LakeConfig

  /** `STORAGE_FORMAT`. */
  const StorageFormat: string := "parquet"

  /** `str(p.relative_to(base))`, given the segments of `p` below `base`. */
  function RelativePath(segments: seq<string>): string
    decreases |segments|
  {
    if segments == [] then "."
    else if |segments| == 1 then segments[0]
    else segments[0] + "/" + RelativePath(segments[1..])
  }

  /** The manifest `_update_metadata` starts from when the feed has none yet. */
  function InitialManifest(source: string, feedType: FeedType, config: FeedConfig, nowIso: string): Doc {
    map["source" := JStr(source),
        "type" := JStr(FeedTypeValue(feedType)),
        "storage_mode" := JStr(StorageModeValue(config.storageMode)),
        "format" := JStr(StorageFormat),
        "partitioning" := JStr(PartitioningValue(config.partitioning)),
        "created_at" := JStr(nowIso),
        "total_records" := JNum(0.0),
        "total_size_mb" := JNum(0.0),
        "partitions" := JArr([])]
  }

  /** The `partition_info` of an export of `records` rows into the partition at `rel`. */
  function PartitionInfo(rel: string, records: nat, nowIso: string): map<string, Json> {
    map["path" := JStr(rel), "records" := JNum(records as real), "exported_at" := JStr(nowIso)]
  }

  /** A partition entry that `p["path"]` can be read from. */
  predicate HasPath(e: Json) {
    e.JObj? && "path" in e.fields
  }

  function PathOf(e: Json): Json
    requires HasPath(e)
  {
    e.fields["path"]
  }

  /** Entries `i` to `j` (exclusive) can be read and none of them is for `rel`. */
  predicate Misses(parts: seq<Json>, rel: string, i: nat, j: nat)
    requires i <= j <= |parts|
  {
    forall m :: i <= m < j ==> HasPath(parts[m]) && PathOf(parts[m]) != JStr(rel)
  }

  /**
   * `next((p for p in partitions if p["path"] == rel), None)` from entry
   * `i` on: the index of the first entry for `rel`, None when there is
   * none, and the exception of the first entry that cannot be read before
   * that.
   */
  function FirstPathMatch(parts: seq<Json>, rel: string, i: nat): (r: Result<Option<nat>>)
    requires i <= |parts|
    ensures r.Ok? && r.value.Some? ==> i <= r.value.value < |parts| && HasPath(parts[r.value.value])
    decreases |parts| - i
  {
    if i == |parts| then Ok(None)
    else if !parts[i].JObj? then Raised(TypeError)
    else if "path" !in parts[i].fields then Raised(KeyError)
    else if parts[i].fields["path"] == JStr(rel) then Ok(Some(i))
    else FirstPathMatch(parts, rel, i + 1)
  }

  /**
   * The search finds the first entry for `rel`, all entries before it
   * being readable; it finds none exactly when every entry is readable and
   * for another path; it raises at the first unreadable entry.
   */
  lemma {:induction false} FirstPathMatchIsFirst(parts: seq<Json>, rel: string, i: nat)
    requires i <= |parts|
    ensures var r := FirstPathMatch(parts, rel, i);
            && (r.Ok? && r.value.Some? ==> Misses(parts, rel, i, r.value.value) && PathOf(parts[r.value.value]) == JStr(rel))
            && (r == Ok(None) <==> Misses(parts, rel, i, |parts|))
            && (r.Raised? ==> exists j :: i <= j < |parts| && Misses(parts, rel, i, j) && !HasPath(parts[j]))
    decreases |parts| - i
  {
    if i < |parts| && HasPath(parts[i]) && PathOf(parts[i]) != JStr(rel) {
      FirstPathMatchIsFirst(parts, rel, i + 1);
      var r := FirstPathMatch(parts, rel, i);
      if r.Raised? {
        var j :| i + 1 <= j < |parts| && Misses(parts, rel, i + 1, j) && !HasPath(parts[j]);
        assert Misses(parts, rel, i, j);
      }
    } else if i < |parts| && !HasPath(parts[i]) {
      assert Misses(parts, rel, i, i);
    }
  }

  /**
   * The upsert of the partition entry into `metadata["partitions"]`: an
   * existing entry for the same path is updated in place (`existing.update`),
   * otherwise the entry is appended.
   */
  function UpsertPartition(v: Json, rel: string, records: nat, nowIso: string): Result<Json> {
    var info := PartitionInfo(rel, records, nowIso);
    match v
    case JArr(parts) =>
      (match FirstPathMatch(parts, rel, 0)
       case Raised(e) => Raised(e)
       case Ok(None) => Ok(JArr(parts + [JObj(info)]))
       case Ok(Some(j)) => Ok(JArr(parts[j := JObj(parts[j].fields + info)])))
    // iterating a dict or a str yields strings, and `s["path"]` is a TypeError;
    // an empty one yields nothing and has no `append`
    case JObj(f) => if f == map[] then Raised(AttributeError) else Raised(TypeError)
    case JStr(s) => if s == "" then Raised(AttributeError) else Raised(TypeError)
    case _ => Raised(TypeError)
  }

  /**
   * The manifest after an export of `records` rows into the partition at
   * `rel`: `last_export` stamped, `total_records` increased, the partition
   * entry upserted. A missing key is a KeyError and a value of the wrong
   * type a TypeError, and then nothing is saved.
   */
  function UpdatedManifest(doc: Doc, rel: string, records: nat, nowIso: string): Result<Doc> {
    var d := doc["last_export" := JStr(nowIso)];
    if "total_records" !in d then Raised(KeyError)
    else if AsNumber(d["total_records"]).None? then Raised(TypeError)
    else if "total_size_mb" !in d then Raised(KeyError)
    else if AsNumber(d["total_size_mb"]).None? then Raised(TypeError)
    else if "partitions" !in d then Raised(KeyError)
    else
      var total := JNum(AsNumber(d["total_records"]).value + records as real);
      match UpsertPartition(d["partitions"], rel, records, nowIso)
      case Raised(e) => Raised(e)
      case Ok(ps) => Ok(d["total_records" := total]["partitions" := ps])
  }

  /**
   * A feed's first export: the fresh manifest counts no records and no
   * partition, so after the update it counts the export's rows and holds
   * exactly its partition.
   */
  lemma FirstExport(source: string, feedType: FeedType, config: FeedConfig, rel: string, records: nat, nowIso: string)
    ensures var init := InitialManifest(source, feedType, config, nowIso);
            && init["total_records"] == JNum(0.0) && init["partitions"] == JArr([])
            && UpdatedManifest(init, rel, records, nowIso)
               == Ok(init["last_export" := JStr(nowIso)]["total_records" := JNum(records as real)]
                         ["partitions" := JArr([JObj(PartitionInfo(rel, records, nowIso))])])
  {
    assert [] + [JObj(PartitionInfo(rel, records, nowIso))] == [JObj(PartitionInfo(rel, records, nowIso))];
  }

  /** Every successful update adds exactly the export's row count to `total_records`. */
  lemma TotalCountsEveryExport(doc: Doc, rel: string, records: nat, nowIso: string)
    requires UpdatedManifest(doc, rel, records, nowIso).Ok?
    ensures "total_records" in doc && AsNumber(doc["total_records"]).Some?
    ensures UpdatedManifest(doc, rel, records, nowIso).value["total_records"]
            == JNum(AsNumber(doc["total_records"]).value + records as real)
    ensures UpdatedManifest(doc, rel, records, nowIso).value["last_export"] == JStr(nowIso)
  {
  }

  /** Every entry is readable and no two are for the same path. */
  predicate UniquePaths(parts: seq<Json>) {
    && (forall m :: 0 <= m < |parts| ==> HasPath(parts[m]))
    && (forall a, b :: 0 <= a < b < |parts| ==> PathOf(parts[a]) != PathOf(parts[b]))
  }

  /** The search stops at an entry for `rel` when every entry before it is readable and for another path. */
  lemma {:induction false} FirstPathMatchFinds(parts: seq<Json>, rel: string, i: nat, j: nat)
    requires i <= j < |parts| && Misses(parts, rel, i, j) && HasPath(parts[j]) && PathOf(parts[j]) == JStr(rel)
    ensures FirstPathMatch(parts, rel, i) == Ok(Some(j))
    decreases j - i
  {
    if i < j {
      FirstPathMatchFinds(parts, rel, i + 1, j);
    }
  }

  /** The entry of the upsert for a path that has one already: replaced in place, its `records` the latest count. */
  lemma UpsertReplaces(parts: seq<Json>, rel: string, records: nat, nowIso: string, j: nat)
    requires UniquePaths(parts) && j < |parts| && PathOf(parts[j]) == JStr(rel)
    ensures var r := UpsertPartition(JArr(parts), rel, records, nowIso);
            && r.Ok? && r.value.JArr? && |r.value.items| == |parts|
            && UniquePaths(r.value.items)
            && "records" in r.value.items[j].fields && r.value.items[j].fields["records"] == JNum(records as real)
            && PathOf(r.value.items[j]) == JStr(rel)
            && forall m :: 0 <= m < |parts| && m != j ==> r.value.items[m] == parts[m]
  {
    FirstPathMatchFinds(parts, rel, 0, j);
    var items := parts[j := JObj(parts[j].fields + PartitionInfo(rel, records, nowIso))];
    assert UpsertPartition(JArr(parts), rel, records, nowIso) == Ok(JArr(items));
    assert forall m :: 0 <= m < |items| ==> PathOf(items[m]) == PathOf(parts[m]);
  }

  /** The upsert for a new path appends one entry, after all the others. */
  lemma UpsertAppends(parts: seq<Json>, rel: string, records: nat, nowIso: string)
    requires UniquePaths(parts) && forall m :: 0 <= m < |parts| ==> PathOf(parts[m]) != JStr(rel)
    ensures var r := UpsertPartition(JArr(parts), rel, records, nowIso);
            && r.Ok? && r.value.JArr?
            && r.value.items == parts + [JObj(PartitionInfo(rel, records, nowIso))]
            && UniquePaths(r.value.items)
  {
    FirstPathMatchIsFirst(parts, rel, 0);
    assert Misses(parts, rel, 0, |parts|);
    var items := parts + [JObj(PartitionInfo(rel, records, nowIso))];
    assert forall m :: 0 <= m < |parts| ==> items[m] == parts[m];
  }
}
