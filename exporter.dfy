/**
 * The batch exporter from ksqlDB to the data lake (`DataLakeExporter`). A
 * stream export adds a file to the day's partition; a table export writes a
 * snapshot into a new (or the given) version and then keeps only the
 * highest versions. Both record the export in the feed's manifest.
 */
module Exporter {
  import opened Wrappers
  import opened JsonDoc
  import opened Frames
  import opened Calendar
  import opened Sorting
  import opened Lake
  import opened LakeConfig
  import opened Versions
  import opened Manifest
  import opened DataLakeConsumer

  /** `config.get('retention_versions', 7)` for a configuration without retention. */
  const DefaultRetention: int := 7

  // ---------------------------------------------------------------------------
  // The manifest

  /**
   * `_update_metadata`: the manifest of `base` (or a fresh one) updated and
   * saved; when the update raises, nothing is saved.
   */
  function ManifestWritten(lake: Lake, base: Path, init: Doc, rel: string, records: nat, nowIso: string): (Lake, Option<Exception>) {
    var doc := if base in lake.manifests then lake.manifests[base] else init;
    match UpdatedManifest(doc, rel, records, nowIso)
    case Raised(e) => (lake, Some(e))
    case Ok(d) => (lake.(manifests := lake.manifests[base := d]), None)
  }

  /**
   * `next(...)` over the partition entries: the index of the first entry
   * for `rel`, or the exception of an entry that cannot be read.
   */
  method FindPartition(parts: seq<Json>, rel: string) returns (r: Result<Option<nat>>)
    ensures r == FirstPathMatch(parts, rel, 0)
  {
    for i := 0 to |parts|
      invariant FirstPathMatch(parts, rel, i) == FirstPathMatch(parts, rel, 0)
    {
      var p := parts[i];
      if !p.JObj? {
        return Raised(TypeError);
      }
      if "path" !in p.fields {
        return Raised(KeyError);
      }
      if p.fields["path"] == JStr(rel) {
        return Ok(Some(i));
      }
    }
    r := Ok(None);
  }

  /** `_update_metadata(base, source, feed_type, config, df, partition)` for a frame of `records` rows. */
  method UpdateMetadata(lake: Lake, base: Path, source: string, feedType: FeedType, config: FeedConfig,
                        records: nat, partition: Path, nowIso: string) returns (after: Lake, raised: Option<Exception>)
    requires Under(partition, base)
    ensures (after, raised) == ManifestWritten(lake, base, InitialManifest(source, feedType, config, nowIso),
                                               RelativePath(partition[|base|..]), records, nowIso)
  {
    var metadata: Doc;
    if base in lake.manifests {
      metadata := lake.manifests[base];
    } else {
      metadata := InitialManifest(source, feedType, config, nowIso);
    }
    var rel := RelativePath(partition[|base|..]);
    metadata := metadata["last_export" := JStr(nowIso)];
    if "total_records" !in metadata {
      return lake, Some(KeyError);
    }
    var total := AsNumber(metadata["total_records"]);
    if total.None? {
      return lake, Some(TypeError);
    }
    ghost var stamped := metadata;
    metadata := metadata["total_records" := JNum(total.value + records as real)];
    if "total_size_mb" !in metadata {
      return lake, Some(KeyError);
    }
    if AsNumber(metadata["total_size_mb"]).None? {
      return lake, Some(TypeError);
    }
    if "partitions" !in metadata {
      return lake, Some(KeyError);
    }
    var info := PartitionInfo(rel, records, nowIso);
    var partitions := metadata["partitions"];
    assert partitions == stamped["partitions"];
    if !partitions.JArr? {
      if partitions == JObj(map[]) || partitions == JStr("") {
        return lake, Some(AttributeError);
      }
      return lake, Some(TypeError);
    }
    var existing := FindPartition(partitions.items, rel);
    if existing.Raised? {
      return lake, Some(existing.exc);
    }
    if existing.value.Some? {
      var j := existing.value.value;
      metadata := metadata["partitions" := JArr(partitions.items[j := JObj(partitions.items[j].fields + info)])];
    } else {
      metadata := metadata["partitions" := JArr(partitions.items + [JObj(info)])];
    }
    after := lake.(manifests := lake.manifests[base := metadata]);
    raised := None;
  }

  /** A manifest update changes no directory and no other feed's manifest. */
  lemma ManifestWriteIsLocal(lake: Lake, base: Path, init: Doc, rel: string, records: nat, nowIso: string)
    ensures var (after, raised) := ManifestWritten(lake, base, init, rel, records, nowIso);
            && after.dirs == lake.dirs
            && (forall q :: q != base ==> (q in after.manifests <==> q in lake.manifests))
            && (forall q :: q != base && q in lake.manifests ==> after.manifests[q] == lake.manifests[q])
            && (raised.Some? ==> after == lake)
  {
  }

  // ---------------------------------------------------------------------------
  // Version cleanup, highest versions first

  /** The names that parse as versions, the only ones the exporter's cleanup considers. */
  function Candidates(names: set<string>): (r: set<string>)
    ensures r <= names
  {
    set n | n in names && VersionNumber(n).Some?
  }

  /**
   * Removing the version directories `victims` in turn: the entries of
   * each are unlinked, then the directory itself. A directory already gone
   * raises OSError; so does one holding a subdirectory (which `unlink`
   * refuses), after the entries `gone` listed before that subdirectory have
   * been unlinked. Either stops the cleanup.
   */
  function RemoveVersions(lake: Lake, base: Path, victims: seq<string>, gone: set<string>): (Lake, Option<Exception>)
    decreases |victims|
  {
    if victims == [] then (lake, None)
    else
      var dir := base + [victims[0]];
      if dir !in lake.dirs then (lake, Some(OSError))
      else if Children(lake, dir) != {} then (Unlink(lake, dir, gone), Some(OSError))
      else RemoveVersions(Prune(lake, {dir}), base, victims[1..], gone)
  }

  /**
   * What `_cleanup_old_versions(base, retention)` leaves: the parseable
   * versions sorted descending by `(number, directory)`, and everything
   * from position `retention` on removed, up to the first directory that
   * holds a subdirectory, of which only the files listed before that
   * subdirectory are unlinked.
   */
  ghost predicate CleanedUpDescending(lake: Lake, base: Path, retention: int, after: Lake, raised: Option<Exception>) {
    exists s, gone :: && multiset(s) == multiset(Candidates(Glob(lake, base, VersionPrefix)))
                      && SortedBy(s, RankGe)
                      && (after, raised) == RemoveVersions(lake, base, s[SliceIndex(|s|, retention)..], gone)
  }

  /** The `for version_dir in base_path.glob("version=v*")` loop: the names that parse, in listing order. */
  method ParseableVersions(names: set<string>) returns (versions: seq<string>)
    ensures multiset(versions) == multiset(Candidates(names))
  {
    versions := [];
    var rest := names;
    while rest != {}
      invariant rest <= names
      invariant multiset(versions) == multiset(Candidates(names - rest))
      decreases |rest|
    {
      var n :| n in rest;
      if VersionNumber(n).Some? {
        assert Candidates(names - (rest - {n})) == Candidates(names - rest) + {n};
        versions := versions + [n];
      } else {
        assert Candidates(names - (rest - {n})) == Candidates(names - rest);
      }
      rest := rest - {n};
    }
    assert names - rest == names;
  }

  /**
   * `for file in version_dir.glob("*"): file.unlink()`: the entries are
   * unlinked in the order the file system lists them, any order, and the
   * first subdirectory met raises OSError, leaving it and the entries
   * listed after it in place.
   */
  method UnlinkEntries(lake: Lake, dir: Path, listed: set<string>, subdirs: set<string>)
    returns (after: Lake, raised: Option<Exception>, ghost gone: set<string>)
    requires dir in lake.dirs && subdirs <= listed
    ensures gone <= listed - subdirs
    ensures after == Unlink(lake, dir, gone)
    ensures raised.None? <==> subdirs == {}
    ensures raised.Some? ==> raised == Some(OSError)
    ensures raised.None? ==> gone == listed
  {
    var rest := listed;
    after, gone := lake, {};
    UnlinkNothing(lake, dir);
    while rest != {}
      invariant gone !! rest && gone + rest == listed
      invariant gone !! subdirs
      invariant after == Unlink(lake, dir, gone)
      decreases |rest|
    {
      var n :| n in rest;
      if n in subdirs {
        return after, Some(OSError), gone;
      }
      after := UnlinkNext(lake, dir, gone, after, n);
      gone := gone + {n};
      rest := rest - {n};
    }
    raised := None;
  }

  /** One `file.unlink()` after the entries `gone` of `dir` have been unlinked. */
  method UnlinkNext(ghost lake: Lake, dir: Path, ghost gone: set<string>, current: Lake, n: string) returns (next: Lake)
    requires dir in lake.dirs && current == Unlink(lake, dir, gone)
    ensures next == Unlink(lake, dir, gone + {n})
  {
    UnlinkTwice(lake, dir, gone, {n});
    next := Unlink(current, dir, {n});
  }

  /** `_cleanup_old_versions`. */
  method CleanupDescending(lake: Lake, base: Path, retention: int) returns (after: Lake, raised: Option<Exception>)
    ensures CleanedUpDescending(lake, base, retention, after, raised)
  {
    var versions := ParseableVersions(Glob(lake, base, VersionPrefix));
    RankGeIsPreorder();
    SortBySorted(versions, RankGe);
    var sorted := SortBy(versions, RankGe);
    var victims := sorted[SliceIndex(|sorted|, retention)..];
    after := lake;
    for i := 0 to |victims|
      invariant forall g :: RemoveVersions(after, base, victims[i..], g) == RemoveVersions(lake, base, victims, g)
    {
      assert victims[i..][1..] == victims[i + 1..];
      var dir := base + [victims[i]];
      if dir !in after.dirs {
        assert (after, Some(OSError)) == RemoveVersions(lake, base, victims, {});
        return after, Some(OSError);
      }
      var next, failed, gone := UnlinkEntries(after, dir, Entries(after, dir), Children(after, dir));
      if failed.Some? {
        assert (next, failed) == RemoveVersions(lake, base, victims, gone);
        return next, failed;
      }
      PruneAfterUnlink(after, dir, gone);
      after := Prune(next, {dir});
    }
    assert victims[|victims|..] == [];
    assert (after, None) == RemoveVersions(lake, base, victims, {});
    raised := None;
  }

  /** Removing a subtree never adds a subdirectory anywhere. */
  lemma ChildrenShrink(lake: Lake, roots: set<Path>, p: Path)
    ensures Children(Prune(lake, roots), p) <= Children(lake, p)
  {
  }

  /**
   * When every victim is an existing, distinct version directory without
   * subdirectories, the cleanup removes exactly their subtrees.
   */
  lemma {:induction false} RemoveVersionsEffect(lake: Lake, base: Path, victims: seq<string>, gone: set<string>)
    requires forall i, j :: 0 <= i < j < |victims| ==> victims[i] != victims[j]
    requires forall v :: v in victims ==> base + [v] in lake.dirs && Children(lake, base + [v]) == {}
    ensures RemoveVersions(lake, base, victims, gone) == (Prune(lake, Subtrees(base, victims)), None)
    decreases |victims|
  {
    if victims == [] {
      assert Subtrees(base, victims) == {};
      assert Prune(lake, {}) == lake;
    } else {
      var dir := base + [victims[0]];
      var rest := victims[1..];
      var next := Prune(lake, {dir});
      assert Subtrees(base, [victims[0]]) == {dir};
      forall v | v in rest ensures base + [v] in next.dirs && Children(next, base + [v]) == {} {
        assert v != victims[0];
        PruneSparesSibling(lake, base, [victims[0]], v);
        ChildrenShrink(lake, {dir}, base + [v]);
      }
      RemoveVersionsEffect(next, base, rest, gone);
      PruneTwice(lake, {dir}, Subtrees(base, rest));
      assert {dir} + Subtrees(base, rest) == Subtrees(base, victims);
    }
  }

  /**
   * The tail of a listing of version directories without subdirectories
   * is removed without error.
   */
  lemma TailRemovable(lake: Lake, base: Path, names: set<string>, s: seq<string>, c: nat, gone: set<string>)
    requires names <= Glob(lake, base, VersionPrefix)
    requires forall n :: n in names ==> Children(lake, base + [n]) == {}
    requires multiset(s) == multiset(names) && c <= |s|
    ensures RemoveVersions(lake, base, s[c..], gone) == (Prune(lake, Subtrees(base, s[c..])), None)
  {
    ListingDistinct(names, s);
    var v := s[c..];
    forall i, j | 0 <= i < j < |v| ensures v[i] != v[j] {
      assert v[i] == s[c + i] && v[j] == s[c + j];
    }
    GlobMembers(lake, base, VersionPrefix);
    forall x | x in v ensures base + [x] in lake.dirs && Children(lake, base + [x]) == {} {
      assert x in multiset(s);
    }
    RemoveVersionsEffect(lake, base, v, gone);
  }

  /**
   * The exporter's cleanup keeps the `retention` highest parseable
   * versions (all of them when there are fewer, none when `retention` is
   * 0) and removes nothing else, provided no version directory holds a
   * subdirectory.
   */
  lemma DescendingCleanupKeepsHighest(lake: Lake, base: Path, retention: int, after: Lake, raised: Option<Exception>)
    requires CleanedUpDescending(lake, base, retention, after, raised)
    requires forall n :: n in Candidates(Glob(lake, base, VersionPrefix)) ==> Children(lake, base + [n]) == {}
    ensures raised.None?
    ensures var names := Candidates(Glob(lake, base, VersionPrefix));
            exists deleted :: && DeletesLowest(names, deleted, DescendingDropCount(|names|, retention), RankLe)
                              && after == Prune(lake, Subtrees(base, deleted))
  {
    var names := Candidates(Glob(lake, base, VersionPrefix));
    var s, gone :| && multiset(s) == multiset(names) && SortedBy(s, RankGe)
                   && (after, raised) == RemoveVersions(lake, base, s[SliceIndex(|s|, retention)..], gone);
    SortedTailIsLowest(lake, base, names, retention, s, gone);
  }

  /** The tail cut from a descending listing is its lowest versions, and it is removed without error. */
  lemma SortedTailIsLowest(lake: Lake, base: Path, names: set<string>, retention: int, s: seq<string>, gone: set<string>)
    requires names <= Glob(lake, base, VersionPrefix)
    requires forall n :: n in names ==> Children(lake, base + [n]) == {}
    requires multiset(s) == multiset(names) && SortedBy(s, RankGe)
    ensures var c := SliceIndex(|s|, retention);
            && DeletesLowest(names, s[c..], DescendingDropCount(|names|, retention), RankLe)
            && RemoveVersions(lake, base, s[c..], gone) == (Prune(lake, Subtrees(base, s[c..])), None)
  {
    assert |s| == |names| by {
      assert |multiset(s)| == |multiset(names)|;
    }
    var c := SliceIndex(|s|, retention);
    SuffixDeletesLowest(names, s, c);
    TailRemovable(lake, base, names, s, c, gone);
  }

  /** A directory the cleanup does not delete, such as one whose name does not parse, keeps its files. */
  lemma UnparseableVersionsKept(lake: Lake, base: Path, deleted: seq<string>, n: string)
    requires multiset(deleted) <= multiset(Candidates(Glob(lake, base, VersionPrefix)))
    requires n in Glob(lake, base, VersionPrefix) && VersionNumber(n).None?
    ensures base + [n] in Prune(lake, Subtrees(base, deleted)).dirs
    ensures Prune(lake, Subtrees(base, deleted)).dirs[base + [n]] == lake.dirs[base + [n]]
  {
    GlobMembers(lake, base, VersionPrefix);
    forall x | x in deleted ensures VersionNumber(x).Some? {
      assert x in multiset(deleted);
    }
    PruneSparesSibling(lake, base, deleted, n);
  }

  /** The cleanup removes no directory beside the victims, and empties none, whether or not it raises. */
  lemma {:induction false} RemoveVersionsSpares(lake: Lake, base: Path, victims: seq<string>, gone: set<string>, n: string)
    requires base + [n] in lake.dirs && n !in victims
    ensures base + [n] in RemoveVersions(lake, base, victims, gone).0.dirs
    ensures RemoveVersions(lake, base, victims, gone).0.dirs[base + [n]] == lake.dirs[base + [n]]
    decreases |victims|
  {
    if victims != [] {
      var dir := base + [victims[0]];
      assert (base + [n])[|base|] == n && dir[|base|] == victims[0];
      if dir in lake.dirs && Children(lake, dir) != {} {
        UnlinkEffect(lake, dir, gone);
      } else if dir in lake.dirs {
        assert Subtrees(base, [victims[0]]) == {dir};
        PruneSparesSibling(lake, base, [victims[0]], n);
        RemoveVersionsSpares(Prune(lake, {dir}), base, victims[1..], gone, n);
      }
    }
  }

  /**
   * A cleanup that meets a victim holding a subdirectory raises OSError and
   * keeps that victim's directory and subdirectories, having unlinked only
   * some of its entries.
   */
  lemma {:induction false} RemoveVersionsStopsAtSubdir(lake: Lake, base: Path, victims: seq<string>, gone: set<string>)
    requires forall i, j :: 0 <= i < j < |victims| ==> victims[i] != victims[j]
    requires forall v :: v in victims ==> base + [v] in lake.dirs
    requires exists v :: v in victims && Children(lake, base + [v]) != {}
    ensures RemoveVersions(lake, base, victims, gone).1 == Some(OSError)
    ensures exists v :: && v in victims && base + [v] in RemoveVersions(lake, base, victims, gone).0.dirs
                         && Children(lake, base + [v]) != {}
                         && (forall f :: f in RemoveVersions(lake, base, victims, gone).0.dirs[base + [v]] ==> f in lake.dirs[base + [v]])
    decreases |victims|
  {
    var dir := base + [victims[0]];
    if Children(lake, dir) != {} {
      assert victims[0] in victims;
      UnlinkEffect(lake, dir, gone);
    } else {
      var next := Prune(lake, {dir});
      var rest := victims[1..];
      FirstVictimPruned(lake, base, victims);
      var w :| w in victims && Children(lake, base + [w]) != {};
      assert w in rest;
      RemoveVersionsStopsAtSubdir(next, base, rest, gone);
      var v :| && v in rest && base + [v] in RemoveVersions(next, base, rest, gone).0.dirs
                && Children(next, base + [v]) != {}
                && (forall f :: f in RemoveVersions(next, base, rest, gone).0.dirs[base + [v]] ==> f in next.dirs[base + [v]]);
      assert v in victims;
    }
  }

  /** Removing the first of distinct version directories leaves the others, their files and their subdirectories. */
  lemma FirstVictimPruned(lake: Lake, base: Path, victims: seq<string>)
    requires forall i, j :: 0 <= i < j < |victims| ==> victims[i] != victims[j]
    requires forall v :: v in victims ==> base + [v] in lake.dirs
    requires victims != []
    ensures forall v :: v in victims[1..] ==>
              (&& base + [v] in Prune(lake, {base + [victims[0]]}).dirs
               && Prune(lake, {base + [victims[0]]}).dirs[base + [v]] == lake.dirs[base + [v]]
               && Children(Prune(lake, {base + [victims[0]]}), base + [v]) == Children(lake, base + [v]))
  {
    assert Subtrees(base, [victims[0]]) == {base + [victims[0]]};
    forall v | v in victims[1..]
      ensures && base + [v] in Prune(lake, {base + [victims[0]]}).dirs
              && Prune(lake, {base + [victims[0]]}).dirs[base + [v]] == lake.dirs[base + [v]]
              && Children(Prune(lake, {base + [victims[0]]}), base + [v]) == Children(lake, base + [v])
    {
      var k :| 0 <= k < |victims[1..]| && victims[1..][k] == v;
      assert v == victims[k + 1] && v !in [victims[0]];
      PruneSparesSibling(lake, base, [victims[0]], v);
      PruneSparesNephews(lake, base, [victims[0]], v);
    }
  }

  // ---------------------------------------------------------------------------
  // Exports

  /**
   * `export_stream`: nothing for a disabled feed or an empty result; a
   * failed query raises. Otherwise the frame is written as a new file into
   * the partition of `date`, and the manifest records the export.
   */
  function StreamExport(lake: Lake, name: string, config: FeedConfig, fetched: Option<seq<Record>>, date: Date,
                        stamp: string, nowIso: string, writeFails: bool): (Lake, Option<Exception>) {
    if !config.enabled then (lake, None)
    else if fetched.None? then (lake, Some(OSError))
    else if IsEmpty(fetched.value) then (lake, None)
    else
      var base := StreamPath(name);
      var w := WriteStreamData(lake, name, date, stamp, writeFails);
      if w.raised.Some? then (w.lake, w.raised)
      else ManifestWritten(w.lake, base, InitialManifest(name, Stream, config, nowIso),
                           RelativePath(StreamPartition(name, date)[|base|..]), |fetched.value|, nowIso)
  }

  /**
   * A stream export of a non-empty result whose write succeeds leaves the
   * data file in the day's partition; on the feed's first export the new
   * manifest counts exactly the exported rows in exactly that partition.
   */
  lemma StreamExportRecorded(lake: Lake, name: string, config: FeedConfig, rows: seq<Record>, date: Date,
                             stamp: string, nowIso: string)
    requires config.enabled && !IsEmpty(rows)
    ensures var (after, raised) := StreamExport(lake, name, config, Some(rows), date, stamp, nowIso, false);
            var partition := StreamPartition(name, date);
            var base := StreamPath(name);
            && partition in after.dirs && DataFileName(stamp) in after.dirs[partition]
            && (base !in lake.manifests ==>
                  && raised.None? && base in after.manifests
                  && after.manifests[base]["total_records"] == JNum(|rows| as real)
                  && after.manifests[base]["partitions"]
                     == JArr([JObj(PartitionInfo(RelativePath(partition[|base|..]), |rows|, nowIso))]))
  {
    var base := StreamPath(name);
    var partition := StreamPartition(name, date);
    var w := WriteStreamData(lake, name, date, stamp, false);
    FirstExport(name, Stream, config, RelativePath(partition[|base|..]), |rows|, nowIso);
    ManifestWriteIsLocal(w.lake, base, InitialManifest(name, Stream, config, nowIso),
                         RelativePath(partition[|base|..]), |rows|, nowIso);
  }

  /** `export_stream(name, config, date)`; `fetched` is what the query returned, None when it raised. */
  method ExportStream(lake: Lake, name: string, config: FeedConfig, fetched: Option<seq<Record>>, date: Date,
                      stamp: string, nowIso: string, writeFails: bool) returns (after: Lake, raised: Option<Exception>)
    ensures (after, raised) == StreamExport(lake, name, config, fetched, date, stamp, nowIso, writeFails)
  {
    if !config.enabled {
      return lake, None;
    }
    if fetched.None? {
      return lake, Some(OSError);
    }
    var df := fetched.value;
    if IsEmpty(df) {
      return lake, None;
    }
    var base := StreamPath(name);
    var partition := DatePartitionPath(base, date.year, date.month, date.day);
    var w := WriteStreamData(lake, name, date, stamp, writeFails);
    if w.raised.Some? {
      return w.lake, w.raised;
    }
    after, raised := UpdateMetadata(w.lake, base, name, Stream, config, |df|, partition, nowIso);
  }

  /**
   * The part of `export_table` after the version is chosen, up to the
   * cleanup: the version directory is created, the snapshot written into
   * it and the manifest updated.
   */
  function SnapshotWritten(lake: Lake, name: string, config: FeedConfig, records: nat, version: int,
                           stamp: string, nowIso: string, writeFails: bool): (Lake, Option<Exception>) {
    var base := TablePath(name);
    var partition := VersionPartitionPath(base, version);
    var prepared := MkDirs(lake, partition);
    if writeFails then (prepared, Some(OSError))
    else ManifestWritten(WriteFile(prepared, partition, SnapshotFileName(stamp)), base,
                         InitialManifest(name, Table, config, nowIso), RelativePath(partition[|base|..]), records, nowIso)
  }

  method WriteSnapshot(lake: Lake, name: string, config: FeedConfig, records: nat, version: int,
                       stamp: string, nowIso: string, writeFails: bool) returns (after: Lake, raised: Option<Exception>)
    ensures (after, raised) == SnapshotWritten(lake, name, config, records, version, stamp, nowIso, writeFails)
  {
    var base := TablePath(name);
    var partition := VersionPartitionPath(base, version);
    var prepared := MkDirs(lake, partition);
    if writeFails {
      return prepared, Some(OSError);
    }
    var written := WriteFile(prepared, partition, SnapshotFileName(stamp));
    after, raised := UpdateMetadata(written, base, name, Table, config, records, partition, nowIso);
  }

  /** The whole write of a table version: the snapshot, then, when that succeeded, the cleanup. */
  ghost predicate TableWritten(lake: Lake, name: string, config: FeedConfig, records: nat, version: int,
                               stamp: string, nowIso: string, writeFails: bool, after: Lake, raised: Option<Exception>) {
    var (m, failed) := SnapshotWritten(lake, name, config, records, version, stamp, nowIso, writeFails);
    if failed.Some? then after == m && raised == failed
    else CleanedUpDescending(m, TablePath(name), config.retentionVersions.GetOr(DefaultRetention), after, raised)
  }

  /**
   * A snapshot written to a newly allocated version survives the export:
   * a failing manifest update leaves it in place, and the cleanup, keeping
   * at least one version, keeps the highest, which is the new one.
   */
  lemma NewSnapshotSurvives(lake: Lake, name: string, config: FeedConfig, records: nat, v: int, stamp: string,
                            nowIso: string, after: Lake, raised: Option<Exception>)
    requires IsNextVersion(Glob(lake, TablePath(name), VersionPrefix), v)
    requires config.retentionVersions.GetOr(DefaultRetention) >= 1
    requires TableWritten(lake, name, config, records, v, stamp, nowIso, false, after, raised)
    ensures VersionPartitionPath(TablePath(name), v) in after.dirs
    ensures SnapshotFileName(stamp) in after.dirs[VersionPartitionPath(TablePath(name), v)]
  {
    var base := TablePath(name);
    var partition := VersionPartitionPath(base, v);
    var prepared := MkDirs(lake, partition);
    var written := WriteFile(prepared, partition, SnapshotFileName(stamp));
    var init := InitialManifest(name, Table, config, nowIso);
    var rel := RelativePath(partition[|base|..]);
    WriteFileEffect(prepared, partition, SnapshotFileName(stamp));
    ManifestWriteIsLocal(written, base, init, rel, records, nowIso);
    var (m, failed) := ManifestWritten(written, base, init, rel, records, nowIso);
    if failed.None? {
      var seg := VersionSegment(v);
      NewVersionListed(lake, base, v);
      VersionSegmentRoundTrip(v);
      assert Glob(m, base, VersionPrefix) == Glob(prepared, base, VersionPrefix) == Glob(lake, base, VersionPrefix) + {seg};
      var names := Candidates(Glob(m, base, VersionPrefix));
      forall k | k in names && k != seg ensures NumberOf(k) < NumberOf(seg) {
        assert VersionNumber(k).value in Parsed(Glob(lake, base, VersionPrefix));
      }
      assert partition == base + [seg];
      HighestVersionSurvives(m, base, config.retentionVersions.GetOr(DefaultRetention), after, raised, seg);
    }
  }

  /** A cleanup keeping at least one version leaves the highest version's directory as it was. */
  lemma HighestVersionSurvives(lake: Lake, base: Path, r: int, after: Lake, raised: Option<Exception>, top: string)
    requires r >= 1 && CleanedUpDescending(lake, base, r, after, raised)
    requires base + [top] in lake.dirs && top in Candidates(Glob(lake, base, VersionPrefix))
    requires forall k :: k in Candidates(Glob(lake, base, VersionPrefix)) && k != top ==> NumberOf(k) < NumberOf(top)
    ensures base + [top] in after.dirs && after.dirs[base + [top]] == lake.dirs[base + [top]]
  {
    var names := Candidates(Glob(lake, base, VersionPrefix));
    var s, gone :| && multiset(s) == multiset(names) && SortedBy(s, RankGe)
                   && (after, raised) == RemoveVersions(lake, base, s[SliceIndex(|s|, r)..], gone);
    assert |s| == |names| by {
      assert |multiset(s)| == |multiset(names)|;
    }
    var c := SliceIndex(|s|, r);
    SuffixDeletesLowest(names, s, c);
    HighestVersionKeptDescending(names, s[c..], top, r);
    RemoveVersionsSpares(lake, base, s[c..], gone, top);
  }

  /**
   * `export_table`: nothing for a disabled feed or an empty result; a
   * failed query raises. Otherwise the snapshot goes to the given version,
   * or to the next one after the versions on disk.
   */
  ghost predicate TableExported(lake: Lake, name: string, config: FeedConfig, fetched: Option<seq<Record>>,
                                version: Option<int>, stamp: string, nowIso: string, writeFails: bool,
                                after: Lake, raised: Option<Exception>) {
    if !config.enabled then after == lake && raised.None?
    else if fetched.None? then after == lake && raised == Some(OSError)
    else if IsEmpty(fetched.value) then after == lake && raised.None?
    else exists v :: && (version.Some? ==> v == version.value)
                     && (version.None? ==> IsNextVersion(Glob(lake, TablePath(name), VersionPrefix), v))
                     && TableWritten(lake, name, config, |fetched.value|, v, stamp, nowIso, writeFails, after, raised)
  }

  /** `export_table(name, config, version)`. */
  method ExportTable(lake: Lake, name: string, config: FeedConfig, fetched: Option<seq<Record>>, version: Option<int>,
                     stamp: string, nowIso: string, writeFails: bool) returns (after: Lake, raised: Option<Exception>)
    ensures TableExported(lake, name, config, fetched, version, stamp, nowIso, writeFails, after, raised)
  {
    if !config.enabled {
      return lake, None;
    }
    if fetched.None? {
      return lake, Some(OSError);
    }
    var df := fetched.value;
    if IsEmpty(df) {
      return lake, None;
    }
    var base := TablePath(name);
    var v: int;
    if version.None? {
      v := NextVersion(Glob(lake, base, VersionPrefix));
    } else {
      v := version.value;
    }
    var m, failed := WriteSnapshot(lake, name, config, |df|, v, stamp, nowIso, writeFails);
    if failed.Some? {
      assert TableWritten(lake, name, config, |df|, v, stamp, nowIso, writeFails, m, failed);
      return m, failed;
    }
    after, raised := CleanupDescending(m, base, config.retentionVersions.GetOr(DefaultRetention));
    assert TableWritten(lake, name, config, |df|, v, stamp, nowIso, writeFails, after, raised);
  }
}
