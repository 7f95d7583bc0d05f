/**
 * `MetadataReader`: the read side of the data lake. It looks up a feed's
 * manifest, lists every feed that has one, adds up their totals and lists
 * the partitions found under a feed directory.
 */
module Metadata {
  import opened Wrappers
  import opened JsonDoc
  import opened PyText
  import opened Sorting
  import opened Lake
  import opened LakeConfig
  import opened Manifest
  import opened Exporter

  // ---------------------------------------------------------------------------
  // Reading manifests

  /** `read_metadata(path)`: the decoded `_metadata.json` of `path`, None when there is none. */
  function ReadMetadata(lake: Lake, path: Path): (r: Option<Doc>)
    ensures r.Some? <==> path in lake.manifests
    ensures r.Some? ==> r.value == lake.manifests[path]
  {
    if path in lake.manifests then Some(lake.manifests[path]) else None
  }

  /**
   * What the exporter saves, `read_metadata` reads back: after a manifest
   * update that did not raise, the feed's manifest is the updated document.
   */
  lemma ReadsBackExport(lake: Lake, base: Path, init: Doc, rel: string, records: nat, nowIso: string)
    requires ManifestWritten(lake, base, init, rel, records, nowIso).1 == None
    ensures var doc := if base in lake.manifests then lake.manifests[base] else init;
            && UpdatedManifest(doc, rel, records, nowIso).Ok?
            && ReadMetadata(ManifestWritten(lake, base, init, rel, records, nowIso).0, base)
               == Some(UpdatedManifest(doc, rel, records, nowIso).value)
  {
  }

  /**
   * The feeds under `dir` that `list_all_metadata` reports: every
   * subdirectory whose manifest is a non-empty document (an empty dict is
   * falsy), keyed by the subdirectory's name; nothing when `dir` is missing.
   */
  function FeedManifests(lake: Lake, dir: Path): map<string, Doc> {
    if dir !in lake.dirs then map[]
    else map n | n in Children(lake, dir) && dir + [n] in lake.manifests && lake.manifests[dir + [n]] != map[]
                 :: lake.manifests[dir + [n]]
  }

  /**
   * `s` is the dict `m` in some insertion order: each name once, each with
   * its document, and every name of `m` present.
   */
  ghost predicate Lists(s: seq<(string, Doc)>, m: map<string, Doc>) {
    && (forall i :: 0 <= i < |s| ==> s[i].0 in m && m[s[i].0] == s[i].1)
    && (forall i, j :: 0 <= i < j < |s| ==> s[i].0 != s[j].0)
    && (forall n :: n in m ==> exists i :: 0 <= i < |s| && s[i].0 == n)
  }

  /** A dict holds as many entries as it has names. */
  lemma {:induction false} ListsSize(s: seq<(string, Doc)>, m: map<string, Doc>)
    requires Lists(s, m)
    ensures |s| == |m|
    decreases |s|
  {
    if s == [] {
      assert forall n :: n !in m;
      assert m == map[];
    } else {
      var m' := m - {s[0].0};
      forall n | n in m' ensures exists i :: 0 <= i < |s[1..]| && s[1..][i].0 == n {
        var i :| 0 <= i < |s| && s[i].0 == n;
        assert s[1..][i - 1].0 == n;
      }
      ListsSize(s[1..], m');
      assert m'.Keys == m.Keys - {s[0].0};
    }
  }

  /** The feeds directly under `dir` with a non-empty manifest, in listing order. */
  method ListFeeds(lake: Lake, dir: Path) returns (feeds: seq<(string, Doc)>)
    ensures Lists(feeds, FeedManifests(lake, dir))
  {
    var m := FeedManifests(lake, dir);
    feeds := [];
    if dir !in lake.dirs {
      return;
    }
    var names := ListDir(Children(lake, dir));
    ListingDistinct(Children(lake, dir), names);
    for i := 0 to |names|
      invariant forall k :: 0 <= k < |feeds| ==> feeds[k].0 in m && m[feeds[k].0] == feeds[k].1
      invariant forall k :: 0 <= k < |feeds| ==> feeds[k].0 in names[..i]
      invariant forall a, b :: 0 <= a < b < |feeds| ==> feeds[a].0 != feeds[b].0
      invariant forall k :: 0 <= k < i && names[k] in m ==> exists j :: 0 <= j < |feeds| && feeds[j].0 == names[k]
    {
      var n := names[i];
      assert n in multiset(names);
      ChildrenMembers(lake, dir, n);
      var metadata := ReadMetadata(lake, dir + [n]);
      assert n in m <==> metadata.Some? && metadata.value != map[];
      if metadata.Some? && metadata.value != map[] {
        assert n !in names[..i];
        ghost var before := feeds;
        feeds := feeds + [(n, metadata.value)];
        assert forall j :: 0 <= j < |before| ==> feeds[j] == before[j];
        assert feeds[|before|].0 == n;
      }
    }
    forall n | n in m ensures exists j :: 0 <= j < |feeds| && feeds[j].0 == n {
      assert n in multiset(names);
      var k :| 0 <= k < |names| && names[k] == n;
    }
  }

  /** The two groups of `list_all_metadata`, each in insertion order. */
  datatype Catalog = Catalog(streams: seq<(string, Doc)>, tables: seq<(string, Doc)>)

  /** `list_all_metadata`. */
  method ListAllMetadata(lake: Lake) returns (c: Catalog)
    ensures Lists(c.streams, FeedManifests(lake, StreamsDir)) && Lists(c.tables, FeedManifests(lake, TablesDir))
  {
    var streams := ListFeeds(lake, StreamsDir);
    var tables := ListFeeds(lake, TablesDir);
    c := Catalog(streams, tables);
  }

  /**
   * After the exporter has recorded an export of the stream `name`, whose
   * directory exists, `list_all_metadata` reports the stream with the
   * manifest just written.
   */
  lemma ExportedStreamListed(lake: Lake, name: string, init: Doc, rel: string, records: nat, nowIso: string)
    requires StreamPath(name) in lake.dirs && StreamsDir in lake.dirs
    requires ManifestWritten(lake, StreamPath(name), init, rel, records, nowIso).1 == None
    ensures var after := ManifestWritten(lake, StreamPath(name), init, rel, records, nowIso).0;
            && name in FeedManifests(after, StreamsDir)
            && FeedManifests(after, StreamsDir)[name] == after.manifests[StreamPath(name)]
  {
    var base := StreamPath(name);
    var doc := if base in lake.manifests then lake.manifests[base] else init;
    var d := UpdatedManifest(doc, rel, records, nowIso).value;
    assert "last_export" in d;
    ManifestWriteIsLocal(lake, base, init, rel, records, nowIso);
    ChildrenMembers(ManifestWritten(lake, base, init, rel, records, nowIso).0, StreamsDir, name);
  }

  // ---------------------------------------------------------------------------
  // Statistics

  /** `metadata.get("total_records", 0)` as a number; None when adding it raises. */
  function RecordsOf(d: Doc): Option<real> {
    AsNumber(Get(d, "total_records", JNum(0.0)))
  }

  /** `metadata.get("total_size_mb", 0)` as a number. */
  function SizeOf(d: Doc): Option<real> {
    AsNumber(Get(d, "total_size_mb", JNum(0.0)))
  }

  /** `len(metadata.get("partitions", []))`; None when `len` raises. */
  function PartitionCountOf(d: Doc): Option<nat> {
    PyLen(Get(d, "partitions", JArr([])))
  }

  /** A manifest whose three contributions can be added up. */
  predicate Countable(d: Doc) {
    RecordsOf(d).Some? && SizeOf(d).Some? && PartitionCountOf(d).Some?
  }

  predicate AllCountable(s: seq<(string, Doc)>) {
    forall i :: 0 <= i < |s| ==> Countable(s[i].1)
  }

  function RecordsValue(d: Doc): real {
    RecordsOf(d).GetOr(0.0)
  }

  function SizeValue(d: Doc): real {
    SizeOf(d).GetOr(0.0)
  }

  function PartitionsValue(d: Doc): real {
    PartitionCountOf(d).GetOr(0) as real
  }

  /** The contributions `f` of the documents of `s`, added up in order. */
  function Total(s: seq<(string, Doc)>, f: Doc -> real): real
    decreases |s|
  {
    if s == [] then 0.0 else Total(s[..|s| - 1], f) + f(s[|s| - 1].1)
  }

  /** An entry of `last_exports`. */
  datatype ExportEntry = ExportEntry(name: string, feedType: string, lastExport: Json)

  /** The `last_exports` entries of a group, one per manifest with a `last_export`, in order. */
  function ExportsOf(s: seq<(string, Doc)>, kind: string): seq<ExportEntry>
    decreases |s|
  {
    if s == [] then []
    else
      var (n, d) := s[|s| - 1];
      ExportsOf(s[..|s| - 1], kind) + (if "last_export" in d then [ExportEntry(n, kind, d["last_export"])] else [])
  }

  /** `get_statistics`' result. */
  datatype Statistics = Statistics(totalStreams: nat, totalTables: nat, totalRecords: real, totalSizeMb: real,
                                   totalPartitions: nat, lastExports: seq<ExportEntry>)

  /** The running totals of `get_statistics`. */
  datatype Tally = Tally(records: real, sizeMb: real, partitions: nat, exports: seq<ExportEntry>)

  /** The loop of `get_statistics` over one group; the first manifest whose value cannot be added raises TypeError. */
  method AddGroup(group: seq<(string, Doc)>, kind: string, acc: Tally) returns (r: Result<Tally>)
    ensures r.Ok? <==> AllCountable(group)
    ensures r.Raised? ==> r.exc == TypeError
    ensures r.Ok? ==> && r.value.records == acc.records + Total(group, RecordsValue)
                      && r.value.sizeMb == acc.sizeMb + Total(group, SizeValue)
                      && r.value.partitions as real == acc.partitions as real + Total(group, PartitionsValue)
                      && r.value.exports == acc.exports + ExportsOf(group, kind)
  {
    var t := acc;
    for i := 0 to |group|
      invariant AllCountable(group[..i])
      invariant t.records == acc.records + Total(group[..i], RecordsValue)
      invariant t.sizeMb == acc.sizeMb + Total(group[..i], SizeValue)
      invariant t.partitions as real == acc.partitions as real + Total(group[..i], PartitionsValue)
      invariant t.exports == acc.exports + ExportsOf(group[..i], kind)
    {
      var (n, d) := group[i];
      var records, size, parts := RecordsOf(d), SizeOf(d), PartitionCountOf(d);
      if records.None? || size.None? || parts.None? {
        return Raised(TypeError);
      }
      assert group[..i + 1][..i] == group[..i];
      var exports := t.exports + if "last_export" in d then [ExportEntry(n, kind, d["last_export"])] else [];
      t := Tally(t.records + records.value, t.sizeMb + size.value, t.partitions + parts.value, exports);
    }
    assert group[..|group|] == group;
    r := Ok(t);
  }

  /** The sort key of an entry: its `last_export` text. */
  function ExportKey(e: ExportEntry): string {
    if e.lastExport.JStr? then e.lastExport.s else ""
  }

  /** `key=lambda x: x["last_export"], reverse=True`: `a` may come before `b`. */
  predicate LaterOrSame(a: ExportEntry, b: ExportEntry) {
    StrLe(ExportKey(b), ExportKey(a))
  }

  lemma LaterOrSameOrders()
    ensures TotalPreorder(LaterOrSame)
  {
    forall a: ExportEntry, b: ExportEntry ensures LaterOrSame(a, b) || LaterOrSame(b, a) {
      StrLtTotal(ExportKey(a), ExportKey(b));
    }
    forall a: ExportEntry, b: ExportEntry, c: ExportEntry | LaterOrSame(a, b) && LaterOrSame(b, c)
      ensures LaterOrSame(a, c)
    {
      if ExportKey(c) != ExportKey(b) && ExportKey(b) != ExportKey(a) {
        StrLtTransitive(ExportKey(c), ExportKey(b), ExportKey(a));
      }
    }
  }

  /** Sorting compares every entry with another one, and a string with anything else raises TypeError. */
  predicate SortRaises(s: seq<ExportEntry>) {
    |s| >= 2 && exists i :: 0 <= i < |s| && !s[i].lastExport.JStr?
  }

  /** `last_exports.sort(key=..., reverse=True)`: latest first, the same entries. */
  method SortExports(exports: seq<ExportEntry>) returns (r: Result<seq<ExportEntry>>)
    ensures r.Ok? <==> !SortRaises(exports)
    ensures r.Raised? ==> r.exc == TypeError
    ensures r.Ok? ==> SortedBy(r.value, LaterOrSame) && multiset(r.value) == multiset(exports)
  {
    if |exports| >= 2 {
      for i := 0 to |exports|
        invariant forall k :: 0 <= k < i ==> exports[k].lastExport.JStr?
      {
        if !exports[i].lastExport.JStr? {
          return Raised(TypeError);
        }
      }
    }
    LaterOrSameOrders();
    SortBySorted(exports, LaterOrSame);
    r := Ok(SortBy(exports, LaterOrSame));
  }

  /**
   * `get_statistics`: the number of feeds with a manifest in each group,
   * the totals of their manifests, and their last exports, latest first.
   */
  method GetStatistics(lake: Lake) returns (r: Result<Statistics>, ghost c: Catalog)
    ensures Lists(c.streams, FeedManifests(lake, StreamsDir)) && Lists(c.tables, FeedManifests(lake, TablesDir))
    ensures var exports := ExportsOf(c.streams, "stream") + ExportsOf(c.tables, "table");
            && (r.Ok? <==> AllCountable(c.streams) && AllCountable(c.tables) && !SortRaises(exports))
            && (r.Raised? ==> r.exc == TypeError)
            && (r.Ok? ==>
                  && r.value.totalStreams == |FeedManifests(lake, StreamsDir)|
                  && r.value.totalTables == |FeedManifests(lake, TablesDir)|
                  && r.value.totalRecords == Total(c.streams, RecordsValue) + Total(c.tables, RecordsValue)
                  && r.value.totalSizeMb == Total(c.streams, SizeValue) + Total(c.tables, SizeValue)
                  && r.value.totalPartitions as real == Total(c.streams, PartitionsValue) + Total(c.tables, PartitionsValue)
                  && SortedBy(r.value.lastExports, LaterOrSame)
                  && multiset(r.value.lastExports) == multiset(exports))
  {
    var all := ListAllMetadata(lake);
    c := all;
    ListsSize(all.streams, FeedManifests(lake, StreamsDir));
    ListsSize(all.tables, FeedManifests(lake, TablesDir));
    var s := AddGroup(all.streams, "stream", Tally(0.0, 0.0, 0, []));
    if s.Raised? {
      return Raised(s.exc), c;
    }
    assert [] + ExportsOf(all.streams, "stream") == ExportsOf(all.streams, "stream");
    var t := AddGroup(all.tables, "table", s.value);
    if t.Raised? {
      return Raised(t.exc), c;
    }
    assert t.value.exports == ExportsOf(all.streams, "stream") + ExportsOf(all.tables, "table");
    var sorted := SortExports(t.value.exports);
    if sorted.Raised? {
      return Raised(sorted.exc), c;
    }
    r := Ok(Statistics(|all.streams|, |all.tables|, t.value.records, t.value.sizeMb, t.value.partitions, sorted.value));
  }

  /** Removing the entry at `j` takes its contribution out of the total. */
  lemma {:induction false} TotalWithout(s: seq<(string, Doc)>, f: Doc -> real, j: nat)
    requires j < |s|
    ensures Total(s, f) == Total(s[..j] + s[j + 1..], f) + f(s[j].1)
    decreases |s|
  {
    var n := |s|;
    if j < n - 1 {
      TotalWithout(s[..n - 1], f, j);
      var t := s[..j] + s[j + 1..];
      assert s[..n - 1][..j] + s[..n - 1][j + 1..] == t[..|t| - 1];
      assert t[|t| - 1] == s[n - 1];
    } else {
      assert s[..j] + s[j + 1..] == s[..n - 1];
    }
  }

  /** Dropping the entry at `j` from a listing of `m` lists `m` without that name. */
  lemma ListsWithout(s: seq<(string, Doc)>, m: map<string, Doc>, j: nat)
    requires Lists(s, m) && j < |s|
    ensures Lists(s[..j] + s[j + 1..], m - {s[j].0})
  {
    var s' := s[..j] + s[j + 1..];
    var m' := m - {s[j].0};
    forall i | 0 <= i < |s'| ensures s'[i].0 in m' && m'[s'[i].0] == s'[i].1 {
      var i0 := if i < j then i else i + 1;
      assert s'[i] == s[i0] && s[i0].0 != s[j].0;
    }
    forall a, b | 0 <= a < b < |s'| ensures s'[a].0 != s'[b].0 {
      var a0, b0 := if a < j then a else a + 1, if b < j then b else b + 1;
      assert s'[a] == s[a0] && s'[b] == s[b0] && a0 < b0;
    }
    StillCovers(s, m, j, s');
  }

  lemma StillCovers(s: seq<(string, Doc)>, m: map<string, Doc>, j: nat, s': seq<(string, Doc)>)
    requires Lists(s, m) && j < |s| && s' == s[..j] + s[j + 1..]
    ensures forall x :: x in m - {s[j].0} ==> exists i :: 0 <= i < |s'| && s'[i].0 == x
  {
    forall x | x in m - {s[j].0} ensures exists i :: 0 <= i < |s'| && s'[i].0 == x {
      var i :| 0 <= i < |s| && s[i].0 == x;
      if i < j { assert s'[i].0 == x; } else { assert s'[i - 1].0 == x; }
    }
  }

  /**
   * The totals do not depend on the order the directories were listed in:
   * any two orders of the same feeds give the same sum.
   */
  lemma {:induction false} TotalIgnoresOrder(s: seq<(string, Doc)>, t: seq<(string, Doc)>, m: map<string, Doc>, f: Doc -> real)
    requires Lists(s, m) && Lists(t, m)
    ensures Total(s, f) == Total(t, f)
    decreases |s|
  {
    if s == [] {
      ListsSize(s, m);
      ListsSize(t, m);
    } else {
      var n := |s|;
      var last := s[n - 1].0;
      var j :| 0 <= j < |t| && t[j].0 == last;
      ListsWithout(s, m, n - 1);
      ListsWithout(t, m, j);
      assert s[..n - 1] + s[n..] == s[..n - 1];
      TotalIgnoresOrder(s[..n - 1], t[..j] + t[j + 1..], m - {last}, f);
      TotalWithout(t, f, j);
      assert t[j].1 == m[last] == s[n - 1].1;
      assert Total(s, f) == Total(s[..n - 1], f) + f(s[n - 1].1);
    }
  }

  // ---------------------------------------------------------------------------
  // Partitions

  /** An entry of `get_partition_info`, without its size. */
  datatype PartitionEntry =
    | DatePartition(year: int, month: int, day: int, path: string, filesCount: nat)
    | VersionPartition(version: int, path: string, filesCount: nat)

  /** `len(list(p.glob("*.parquet")))`. */
  function FilesAt(lake: Lake, p: Path): nat {
    if p in lake.dirs then DirectParquetCount(lake, p) else 0
  }

  predicate DaysRead(lake: Lake, md: Path) {
    forall dn :: dn in Glob(lake, md, DayPrefix) ==> DateField(dn).Some?
  }

  predicate MonthsRead(lake: Lake, yd: Path) {
    forall mn :: mn in Glob(lake, yd, MonthPrefix) ==> DateField(mn).Some? && DaysRead(lake, yd + [mn])
  }

  /** Every year, month and day name under `base` reads as a number. */
  predicate DatesRead(lake: Lake, base: Path) {
    forall yn :: yn in Glob(lake, base, YearPrefix) ==> DateField(yn).Some? && MonthsRead(lake, base + [yn])
  }

  predicate VersionsRead(lake: Lake, base: Path) {
    forall vn :: vn in Glob(lake, base, VersionPrefix) ==> VersionField(vn).Some?
  }

  function DayEntry(lake: Lake, base: Path, yn: string, year: int, mn: string, month: int, dn: string): PartitionEntry
    requires DateField(dn).Some?
  {
    DatePartition(year, month, DateField(dn).value, RelativePath([yn, mn, dn]), FilesAt(lake, base + [yn, mn, dn]))
  }

  ghost predicate DayListed(lake: Lake, base: Path, yn: string, year: int, mn: string, month: int, e: PartitionEntry) {
    exists dn :: dn in Glob(lake, base + [yn, mn], DayPrefix) && DateField(dn).Some? && e == DayEntry(lake, base, yn, year, mn, month, dn)
  }

  ghost predicate MonthListed(lake: Lake, base: Path, yn: string, year: int, e: PartitionEntry) {
    exists mn :: mn in Glob(lake, base + [yn], MonthPrefix) && DateField(mn).Some?
                 && DayListed(lake, base, yn, year, mn, DateField(mn).value, e)
  }

  /** `e` is the entry of a day directory three levels (year, month, day) under `base`. */
  ghost predicate DateListed(lake: Lake, base: Path, e: PartitionEntry) {
    exists yn :: yn in Glob(lake, base, YearPrefix) && DateField(yn).Some?
                 && MonthListed(lake, base, yn, DateField(yn).value, e)
  }

  /** `e` is the entry of a `version=v*` directory under `base`. */
  ghost predicate VersionListed(lake: Lake, base: Path, e: PartitionEntry) {
    exists vn :: vn in Glob(lake, base, VersionPrefix) && VersionField(vn).Some?
                 && e == VersionPartition(VersionField(vn).value, vn, FilesAt(lake, base + [vn]))
  }

  /** The listing's names as a set, when the listing holds each of them once. */
  lemma ListingMembers(names: set<string>, s: seq<string>)
    requires multiset(s) == multiset(names)
    ensures forall n :: n in s <==> n in names
  {
    forall n ensures n in s <==> n in names {
      assert n in s <==> n in multiset(s);
    }
  }

  /** `p`, relative to `base`, is a `day=*` directory of the month directory `yn/mn`. */
  ghost predicate DayDirOf(lake: Lake, base: Path, yn: string, mn: string, p: Path) {
    |p| == 3 && p[0] == yn && p[1] == mn && p[2] in Glob(lake, base + [yn, mn], DayPrefix)
  }

  /** `p`, relative to `base`, is a day directory of a month directory of the year directory `yn`. */
  ghost predicate YearDayDirOf(lake: Lake, base: Path, yn: string, p: Path) {
    |p| == 3 && p[1] in Glob(lake, base + [yn], MonthPrefix) && DayDirOf(lake, base, yn, p[1], p)
  }

  /** `p`, relative to `base`, is a day directory of a month directory of a year directory: `year=`, `month=` and `day=` names, three levels down. */
  ghost predicate DayDir(lake: Lake, base: Path, p: Path) {
    |p| == 3 && p[0] in Glob(lake, base, YearPrefix) && YearDayDirOf(lake, base, p[0], p)
  }

  /** `p`, relative to `base`, is a `version=v*` directory. */
  ghost predicate VersionDir(lake: Lake, base: Path, p: Path) {
    |p| == 1 && p[0] in Glob(lake, base, VersionPrefix)
  }

  /** No directory occurs twice in `s`. */
  predicate Distinct(s: seq<Path>) {
    forall i, j :: 0 <= i < j < |s| ==> s[i] != s[j]
  }

  /** Paths two and three levels below `base`, built one segment at a time or at once. */
  lemma Below(base: Path, yn: string, mn: string, dn: string)
    ensures base + [yn] + [mn] == base + [yn, mn]
    ensures base + [yn, mn] + [dn] == base + [yn, mn, dn]
  {
  }

  /** The next name of a listing without repeats is not among those taken before it. */
  lemma NextListed(names: seq<string>, i: nat)
    requires i < |names| && forall a, b :: 0 <= a < b < |names| ==> names[a] != names[b]
    ensures names[..i + 1] == names[..i] + [names[i]] && names[i] !in names[..i]
  {
  }

  lemma WholeListing(names: seq<string>)
    ensures names[..|names|] == names
  {
  }

  /** Two listings without repeats and without a common directory list none twice together. */
  lemma DistinctConcat(a: seq<Path>, b: seq<Path>)
    requires Distinct(a) && Distinct(b)
    requires forall p :: p in a ==> p !in b
    ensures Distinct(a + b)
  {
    forall i, j | 0 <= i < j < |a + b| ensures (a + b)[i] != (a + b)[j] {
      if j < |a| {
        assert (a + b)[i] == a[i] && (a + b)[j] == a[j];
      } else if i < |a| {
        assert (a + b)[i] == a[i] && (a + b)[j] == b[j - |a|];
        assert a[i] in a;
      } else {
        assert (a + b)[i] == b[i - |a|] && (a + b)[j] == b[j - |a|];
      }
    }
  }

  /** `e` is the entry reported for the day directory `p` of a year read as `year` and a month read as `month`. */
  predicate DayEntryFor(lake: Lake, base: Path, year: int, month: int, p: Path, e: PartitionEntry) {
    |p| == 3 && DateField(p[2]).Some? && e == DayEntry(lake, base, p[0], year, p[1], month, p[2])
  }

  /** Every name on the partition directory `p` reads as a number, as its entry needs. */
  predicate PartitionRead(p: Path) {
    || (|p| == 3 && DateField(p[0]).Some? && DateField(p[1]).Some? && DateField(p[2]).Some?)
    || (|p| == 1 && VersionField(p[0]).Some?)
  }

  /** The entry `get_partition_info` reports for the partition directory `p` relative to `base`. */
  function PartitionAt(lake: Lake, base: Path, p: Path): PartitionEntry
    requires PartitionRead(p)
  {
    if |p| == 3 then DayEntry(lake, base, p[0], DateField(p[0]).value, p[1], DateField(p[1]).value, p[2])
    else VersionPartition(VersionField(p[0]).value, p[0], FilesAt(lake, base + [p[0]]))
  }

  /** The listing of a month's day directories, one path per listed name. */
  lemma DayDirsListed(lake: Lake, base: Path, yn: string, mn: string, names: seq<string>, dirs: seq<Path>)
    requires multiset(names) == multiset(Glob(lake, base + [yn, mn], DayPrefix))
    requires |dirs| == |names| && forall k :: 0 <= k < |names| ==> dirs[k] == [yn, mn, names[k]]
    ensures Distinct(dirs)
    ensures forall p :: p in dirs <==> DayDirOf(lake, base, yn, mn, p)
  {
    ListingDistinct(Glob(lake, base + [yn, mn], DayPrefix), names);
    ListingMembers(Glob(lake, base + [yn, mn], DayPrefix), names);
    forall i, j | 0 <= i < j < |dirs| ensures dirs[i] != dirs[j] {
      assert dirs[i][2] == names[i] && dirs[j][2] == names[j];
    }
    forall p | DayDirOf(lake, base, yn, mn, p) ensures p in dirs {
      var k :| 0 <= k < |names| && names[k] == p[2];
      assert p == [yn, mn, names[k]];
    }
  }

  /** The listing of the version directories, one path per listed name. */
  lemma VersionDirsListed(lake: Lake, base: Path, names: seq<string>, dirs: seq<Path>)
    requires multiset(names) == multiset(Glob(lake, base, VersionPrefix))
    requires |dirs| == |names| && forall k :: 0 <= k < |names| ==> dirs[k] == [names[k]]
    ensures Distinct(dirs)
    ensures forall p :: p in dirs <==> VersionDir(lake, base, p)
  {
    ListingDistinct(Glob(lake, base, VersionPrefix), names);
    ListingMembers(Glob(lake, base, VersionPrefix), names);
    forall i, j | 0 <= i < j < |dirs| ensures dirs[i] != dirs[j] {
      assert dirs[i][0] == names[i] && dirs[j][0] == names[j];
    }
    forall p | VersionDir(lake, base, p) ensures p in dirs {
      var k :| 0 <= k < |names| && names[k] == p[0];
      assert p == [names[k]];
    }
  }

  /** Entries in step with a listing of a month's day directories are that month's day partitions. */
  lemma DaysFromDirs(lake: Lake, base: Path, yn: string, year: int, mn: string, month: int,
                     out: seq<PartitionEntry>, dirs: seq<Path>)
    requires |dirs| == |out|
    requires forall p :: p in dirs <==> DayDirOf(lake, base, yn, mn, p)
    requires forall k :: 0 <= k < |dirs| ==> DayEntryFor(lake, base, year, month, dirs[k], out[k])
    ensures forall e :: e in out <==> DayListed(lake, base, yn, year, mn, month, e)
  {
    forall e | e in out ensures DayListed(lake, base, yn, year, mn, month, e) {
      var k :| 0 <= k < |out| && out[k] == e;
      assert dirs[k] in dirs;
    }
    forall e | DayListed(lake, base, yn, year, mn, month, e) ensures e in out {
      var dn :| dn in Glob(lake, base + [yn, mn], DayPrefix) && DateField(dn).Some? && e == DayEntry(lake, base, yn, year, mn, month, dn);
      assert DayDirOf(lake, base, yn, mn, [yn, mn, dn]);
      var k :| 0 <= k < |dirs| && dirs[k] == [yn, mn, dn];
    }
  }

  /** The entry of a day directory of the year `yn` is one of that year's day partitions. */
  lemma MonthEntryListed(lake: Lake, base: Path, yn: string, year: int, p: Path, e: PartitionEntry)
    requires YearDayDirOf(lake, base, yn, p) && DateField(p[1]).Some?
    requires DayEntryFor(lake, base, year, DateField(p[1]).value, p, e)
    ensures MonthListed(lake, base, yn, year, e)
  {
    assert DayListed(lake, base, yn, year, p[1], DateField(p[1]).value, e);
  }

  /** The day directory `yn/mn/dn` as a path relative to `base`. */
  lemma YearDayDirNamed(lake: Lake, base: Path, yn: string, mn: string, dn: string)
    requires mn in Glob(lake, base + [yn], MonthPrefix) && dn in Glob(lake, base + [yn, mn], DayPrefix)
    ensures YearDayDirOf(lake, base, yn, [yn, mn, dn])
  {
    var p := [yn, mn, dn];
    assert p[0] == yn && p[1] == mn && p[2] == dn;
  }

  /** A listing of the day directories of the year `yn` holds the directory `yn/mn/dn`. */
  lemma YearDayDirListed(lake: Lake, base: Path, yn: string, mn: string, dn: string, dirs: seq<Path>)
    requires forall p :: p in dirs <==> YearDayDirOf(lake, base, yn, p)
    requires mn in Glob(lake, base + [yn], MonthPrefix) && dn in Glob(lake, base + [yn, mn], DayPrefix)
    ensures exists k :: 0 <= k < |dirs| && dirs[k] == [yn, mn, dn]
  {
    YearDayDirNamed(lake, base, yn, mn, dn);
    assert [yn, mn, dn] in dirs;
  }

  /** Entries in step with a listing of a year's day directories are that year's day partitions. */
  lemma MonthsFromDirs(lake: Lake, base: Path, yn: string, year: int, out: seq<PartitionEntry>, dirs: seq<Path>)
    requires |dirs| == |out|
    requires forall p :: p in dirs <==> YearDayDirOf(lake, base, yn, p)
    requires forall k :: 0 <= k < |dirs| ==>
               (|dirs[k]| == 3 && DateField(dirs[k][1]).Some?
                && DayEntryFor(lake, base, year, DateField(dirs[k][1]).value, dirs[k], out[k]))
    ensures forall e :: e in out <==> MonthListed(lake, base, yn, year, e)
  {
    forall e | e in out ensures MonthListed(lake, base, yn, year, e) {
      var k :| 0 <= k < |out| && out[k] == e;
      assert dirs[k] in dirs;
      MonthEntryListed(lake, base, yn, year, dirs[k], e);
    }
    MonthsInDirs(lake, base, yn, year, out, dirs);
  }

  /** Every day partition of the year `yn` is among entries in step with a listing of its day directories. */
  lemma MonthsInDirs(lake: Lake, base: Path, yn: string, year: int, out: seq<PartitionEntry>, dirs: seq<Path>)
    requires |dirs| == |out|
    requires forall p :: p in dirs <==> YearDayDirOf(lake, base, yn, p)
    requires forall k :: 0 <= k < |dirs| ==>
               (|dirs[k]| == 3 && DateField(dirs[k][1]).Some?
                && DayEntryFor(lake, base, year, DateField(dirs[k][1]).value, dirs[k], out[k]))
    ensures forall e :: MonthListed(lake, base, yn, year, e) ==> e in out
  {
    forall e | MonthListed(lake, base, yn, year, e) ensures e in out {
      var mn :| mn in Glob(lake, base + [yn], MonthPrefix) && DateField(mn).Some?
                && DayListed(lake, base, yn, year, mn, DateField(mn).value, e);
      var dn :| dn in Glob(lake, base + [yn, mn], DayPrefix) && DateField(dn).Some?
                && e == DayEntry(lake, base, yn, year, mn, DateField(mn).value, dn);
      YearDayDirListed(lake, base, yn, mn, dn, dirs);
      var k :| 0 <= k < |dirs| && dirs[k] == [yn, mn, dn];
      assert out[k] == e;
    }
  }

  /** The entry of a day directory under `base` is one of its date partitions. */
  lemma DateEntryListed(lake: Lake, base: Path, p: Path)
    requires DayDir(lake, base, p) && PartitionRead(p)
    ensures DateListed(lake, base, PartitionAt(lake, base, p))
  {
    var e := PartitionAt(lake, base, p);
    assert DayListed(lake, base, p[0], DateField(p[0]).value, p[1], DateField(p[1]).value, e);
    assert MonthListed(lake, base, p[0], DateField(p[0]).value, e);
  }

  /** The day directory `yn/mn/dn` under `base`, with the entry reported for it. */
  lemma DayDirNamed(lake: Lake, base: Path, yn: string, mn: string, dn: string)
    requires yn in Glob(lake, base, YearPrefix) && DateField(yn).Some? && DateField(mn).Some? && DateField(dn).Some?
    requires mn in Glob(lake, base + [yn], MonthPrefix) && dn in Glob(lake, base + [yn, mn], DayPrefix)
    ensures DayDir(lake, base, [yn, mn, dn]) && PartitionRead([yn, mn, dn])
    ensures PartitionAt(lake, base, [yn, mn, dn]) == DayEntry(lake, base, yn, DateField(yn).value, mn, DateField(mn).value, dn)
  {
    var p := [yn, mn, dn];
    assert p[0] == yn && p[1] == mn && p[2] == dn;
  }

  /** Entries in step with a listing of the day directories under `base` are its date partitions. */
  lemma DatesFromDirs(lake: Lake, base: Path, out: seq<PartitionEntry>, dirs: seq<Path>)
    requires |dirs| == |out|
    requires forall p :: p in dirs <==> DayDir(lake, base, p)
    requires forall k :: 0 <= k < |dirs| ==> PartitionRead(dirs[k]) && out[k] == PartitionAt(lake, base, dirs[k])
    ensures forall e :: e in out <==> DateListed(lake, base, e)
  {
    forall e | e in out ensures DateListed(lake, base, e) {
      var k :| 0 <= k < |out| && out[k] == e;
      assert dirs[k] in dirs;
      DateEntryListed(lake, base, dirs[k]);
    }
    forall e | DateListed(lake, base, e) ensures e in out {
      var yn :| yn in Glob(lake, base, YearPrefix) && DateField(yn).Some? && MonthListed(lake, base, yn, DateField(yn).value, e);
      var mn :| mn in Glob(lake, base + [yn], MonthPrefix) && DateField(mn).Some?
                && DayListed(lake, base, yn, DateField(yn).value, mn, DateField(mn).value, e);
      var dn :| dn in Glob(lake, base + [yn, mn], DayPrefix) && DateField(dn).Some?
                && e == DayEntry(lake, base, yn, DateField(yn).value, mn, DateField(mn).value, dn);
      DayDirNamed(lake, base, yn, mn, dn);
      assert [yn, mn, dn] in dirs;
      var k :| 0 <= k < |dirs| && dirs[k] == [yn, mn, dn];
      assert out[k] == e;
    }
  }

  /** Entries in step with a listing of the version directories under `base` are its version partitions. */
  lemma VersionsFromDirs(lake: Lake, base: Path, out: seq<PartitionEntry>, dirs: seq<Path>)
    requires |dirs| == |out|
    requires forall p :: p in dirs <==> VersionDir(lake, base, p)
    requires forall k :: 0 <= k < |dirs| ==> PartitionRead(dirs[k]) && out[k] == PartitionAt(lake, base, dirs[k])
    ensures forall e :: e in out <==> VersionListed(lake, base, e)
  {
    forall e | e in out ensures VersionListed(lake, base, e) {
      var k :| 0 <= k < |out| && out[k] == e;
      assert dirs[k] in dirs;
    }
    forall e | VersionListed(lake, base, e) ensures e in out {
      var vn :| vn in Glob(lake, base, VersionPrefix) && VersionField(vn).Some?
                && e == VersionPartition(VersionField(vn).value, vn, FilesAt(lake, base + [vn]));
      assert VersionDir(lake, base, [vn]);
      var k :| 0 <= k < |dirs| && dirs[k] == [vn];
    }
  }

  /**
   * The innermost loop of `get_partition_info`: the days of one month, one
   * entry per day directory, in listing order (`dirs`).
   */
  method DayPartitions(lake: Lake, base: Path, yn: string, year: int, mn: string, month: int)
    returns (r: Result<seq<PartitionEntry>>, ghost dirs: seq<Path>)
    ensures r.Ok? <==> DaysRead(lake, base + [yn, mn])
    ensures r.Raised? ==> r.exc == ValueError
    ensures r.Ok? ==> forall e :: e in r.value <==> DayListed(lake, base, yn, year, mn, month, e)
    ensures r.Ok? ==> |dirs| == |r.value| && Distinct(dirs)
    ensures r.Ok? ==> forall p :: p in dirs <==> DayDirOf(lake, base, yn, mn, p)
    ensures r.Ok? ==> forall k :: 0 <= k < |dirs| ==> DayEntryFor(lake, base, year, month, dirs[k], r.value[k])
  {
    var md := base + [yn, mn];
    var names := ListDir(Glob(lake, md, DayPrefix));
    ListingMembers(Glob(lake, md, DayPrefix), names);
    var out := [];
    dirs := [];
    for i := 0 to |names|
      invariant forall k :: 0 <= k < i ==> DateField(names[k]).Some?
      invariant |dirs| == i && |out| == i
      invariant forall k :: 0 <= k < i ==> dirs[k] == [yn, mn, names[k]] && DayEntryFor(lake, base, year, month, dirs[k], out[k])
    {
      var dn := names[i];
      if DateField(dn).None? {
        assert dn in Glob(lake, md, DayPrefix);
        GlobbedNamesSplit(dn);
        assert SecondField(dn, "=").Some?;
        return Raised(ValueError), dirs;
      }
      Below(base, yn, mn, dn);
      out := out + [DayEntry(lake, base, yn, year, mn, month, dn)];
      dirs := dirs + [[yn, mn, dn]];
    }
    DayDirsListed(lake, base, yn, mn, names, dirs);
    DaysFromDirs(lake, base, yn, year, mn, month, out, dirs);
    r := Ok(out);
  }

  /** The middle loop: the months of one year, one entry per day directory. */
  method MonthPartitions(lake: Lake, base: Path, yn: string, year: int)
    returns (r: Result<seq<PartitionEntry>>, ghost dirs: seq<Path>)
    ensures r.Ok? <==> MonthsRead(lake, base + [yn])
    ensures r.Raised? ==> r.exc == ValueError
    ensures r.Ok? ==> forall e :: e in r.value <==> MonthListed(lake, base, yn, year, e)
    ensures r.Ok? ==> |dirs| == |r.value| && Distinct(dirs)
    ensures r.Ok? ==> forall p :: p in dirs <==> YearDayDirOf(lake, base, yn, p)
    ensures r.Ok? ==> forall k :: 0 <= k < |dirs| ==>
                        (|dirs[k]| == 3 && DateField(dirs[k][1]).Some?
                         && DayEntryFor(lake, base, year, DateField(dirs[k][1]).value, dirs[k], r.value[k]))
  {
    var yd := base + [yn];
    var names := ListDir(Glob(lake, yd, MonthPrefix));
    ListingMembers(Glob(lake, yd, MonthPrefix), names);
    ListingDistinct(Glob(lake, yd, MonthPrefix), names);
    var out := [];
    dirs := [];
    for i := 0 to |names|
      invariant forall k :: 0 <= k < i ==> DateField(names[k]).Some? && DaysRead(lake, yd + [names[k]])
      invariant MonthDirsSoFar(lake, base, yn, year, names[..i], out, dirs)
    {
      var mn := names[i];
      if DateField(mn).None? {
        assert mn in Glob(lake, yd, MonthPrefix);
        GlobbedNamesSplit(mn);
        assert SecondField(mn, "=").Some?;
        return Raised(ValueError), dirs;
      }
      Below(base, yn, mn, "");
      var days, dayDirs := DayPartitions(lake, base, yn, year, mn, DateField(mn).value);
      if days.Raised? {
        return Raised(days.exc), dirs;
      }
      NextListed(names, i);
      MonthDirsStep(lake, base, yn, year, names[..i], mn, out, dirs, days.value, dayDirs);
      out := out + days.value;
      dirs := dirs + dayDirs;
    }
    WholeListing(names);
    MonthsFromDirs(lake, base, yn, year, out, dirs);
    r := Ok(out);
  }

  /**
   * The month loop's invariant over the listed months `done`: one entry per
   * day directory of those months, in listing order (`dirs`).
   */
  ghost predicate MonthDirsSoFar(lake: Lake, base: Path, yn: string, year: int, done: seq<string>,
                                 out: seq<PartitionEntry>, dirs: seq<Path>)
  {
    && |dirs| == |out| && Distinct(dirs)
    && (forall p :: p in dirs <==> |p| == 3 && p[1] in done && DayDirOf(lake, base, yn, p[1], p))
    && (forall k :: 0 <= k < |dirs| ==>
          (|dirs[k]| == 3 && DateField(dirs[k][1]).Some?
           && DayEntryFor(lake, base, year, DateField(dirs[k][1]).value, dirs[k], out[k])))
  }

  lemma MonthDirsStep(lake: Lake, base: Path, yn: string, year: int, done: seq<string>, mn: string,
                      out: seq<PartitionEntry>, dirs: seq<Path>, more: seq<PartitionEntry>, moreDirs: seq<Path>)
    requires DateField(mn).Some? && mn !in done
    requires MonthDirsSoFar(lake, base, yn, year, done, out, dirs)
    requires |moreDirs| == |more| && Distinct(moreDirs)
    requires forall p :: p in moreDirs <==> DayDirOf(lake, base, yn, mn, p)
    requires forall k :: 0 <= k < |moreDirs| ==> DayEntryFor(lake, base, year, DateField(mn).value, moreDirs[k], more[k])
    ensures MonthDirsSoFar(lake, base, yn, year, done + [mn], out + more, dirs + moreDirs)
  {
    DistinctConcat(dirs, moreDirs);
    forall k | 0 <= k < |dirs + moreDirs|
      ensures |(dirs + moreDirs)[k]| == 3 && DateField((dirs + moreDirs)[k][1]).Some?
              && DayEntryFor(lake, base, year, DateField((dirs + moreDirs)[k][1]).value, (dirs + moreDirs)[k], (out + more)[k])
    {
      if k >= |dirs| {
        assert (dirs + moreDirs)[k] == moreDirs[k - |dirs|] && (out + more)[k] == more[k - |dirs|];
        assert moreDirs[k - |dirs|] in moreDirs;
      } else {
        assert (dirs + moreDirs)[k] == dirs[k] && (out + more)[k] == out[k];
      }
    }
  }

  /**
   * The year loop's invariant over the listed years `done`: one entry per
   * day directory of those years, in listing order (`dirs`).
   */
  ghost predicate YearDirsSoFar(lake: Lake, base: Path, done: seq<string>, out: seq<PartitionEntry>, dirs: seq<Path>) {
    && |dirs| == |out| && Distinct(dirs)
    && (forall p :: p in dirs <==> |p| == 3 && p[0] in done && YearDayDirOf(lake, base, p[0], p))
    && (forall k :: 0 <= k < |dirs| ==> PartitionRead(dirs[k]) && out[k] == PartitionAt(lake, base, dirs[k]))
  }

  lemma YearDirsStep(lake: Lake, base: Path, done: seq<string>, yn: string,
                     out: seq<PartitionEntry>, dirs: seq<Path>, more: seq<PartitionEntry>, moreDirs: seq<Path>)
    requires DateField(yn).Some? && yn !in done
    requires YearDirsSoFar(lake, base, done, out, dirs)
    requires |moreDirs| == |more| && Distinct(moreDirs)
    requires forall p :: p in moreDirs <==> YearDayDirOf(lake, base, yn, p)
    requires forall k :: 0 <= k < |moreDirs| ==>
               (|moreDirs[k]| == 3 && DateField(moreDirs[k][1]).Some?
                && DayEntryFor(lake, base, DateField(yn).value, DateField(moreDirs[k][1]).value, moreDirs[k], more[k]))
    ensures YearDirsSoFar(lake, base, done + [yn], out + more, dirs + moreDirs)
  {
    DistinctConcat(dirs, moreDirs);
    forall k | 0 <= k < |moreDirs| ensures moreDirs[k][0] == yn {
      assert moreDirs[k] in moreDirs;
    }
    YearEntriesStep(lake, base, yn, out, dirs, more, moreDirs);
  }

  /** The entries of one more year stay in step with its day directories. */
  lemma YearEntriesStep(lake: Lake, base: Path, yn: string,
                        out: seq<PartitionEntry>, dirs: seq<Path>, more: seq<PartitionEntry>, moreDirs: seq<Path>)
    requires DateField(yn).Some? && |dirs| == |out| && |moreDirs| == |more|
    requires forall k :: 0 <= k < |dirs| ==> PartitionRead(dirs[k]) && out[k] == PartitionAt(lake, base, dirs[k])
    requires forall k :: 0 <= k < |moreDirs| ==>
               (|moreDirs[k]| == 3 && moreDirs[k][0] == yn && DateField(moreDirs[k][1]).Some?
                && DayEntryFor(lake, base, DateField(yn).value, DateField(moreDirs[k][1]).value, moreDirs[k], more[k]))
    ensures forall k :: 0 <= k < |dirs + moreDirs| ==>
              PartitionRead((dirs + moreDirs)[k]) && (out + more)[k] == PartitionAt(lake, base, (dirs + moreDirs)[k])
  {
    forall k | 0 <= k < |dirs + moreDirs|
      ensures PartitionRead((dirs + moreDirs)[k]) && (out + more)[k] == PartitionAt(lake, base, (dirs + moreDirs)[k])
    {
      if k >= |dirs| {
        assert (dirs + moreDirs)[k] == moreDirs[k - |dirs|] && (out + more)[k] == more[k - |dirs|];
      } else {
        assert (dirs + moreDirs)[k] == dirs[k] && (out + more)[k] == out[k];
      }
    }
  }

  /** The outer loop over the years of `base`, one entry per day directory. */
  method DatePartitions(lake: Lake, base: Path) returns (r: Result<seq<PartitionEntry>>, ghost dirs: seq<Path>)
    ensures r.Ok? <==> DatesRead(lake, base)
    ensures r.Raised? ==> r.exc == ValueError
    ensures r.Ok? ==> forall e :: e in r.value <==> DateListed(lake, base, e)
    ensures r.Ok? ==> |dirs| == |r.value| && Distinct(dirs)
    ensures r.Ok? ==> forall p :: p in dirs <==> DayDir(lake, base, p)
    ensures r.Ok? ==> forall k :: 0 <= k < |dirs| ==> PartitionRead(dirs[k]) && r.value[k] == PartitionAt(lake, base, dirs[k])
  {
    var names := ListDir(Glob(lake, base, YearPrefix));
    ListingMembers(Glob(lake, base, YearPrefix), names);
    ListingDistinct(Glob(lake, base, YearPrefix), names);
    var out := [];
    dirs := [];
    for i := 0 to |names|
      invariant forall k :: 0 <= k < i ==> DateField(names[k]).Some? && MonthsRead(lake, base + [names[k]])
      invariant YearDirsSoFar(lake, base, names[..i], out, dirs)
    {
      var yn := names[i];
      if DateField(yn).None? {
        assert yn in Glob(lake, base, YearPrefix);
        GlobbedNamesSplit(yn);
        assert SecondField(yn, "=").Some?;
        return Raised(ValueError), dirs;
      }
      var months, monthDirs := MonthPartitions(lake, base, yn, DateField(yn).value);
      if months.Raised? {
        return Raised(months.exc), dirs;
      }
      NextListed(names, i);
      YearDirsStep(lake, base, names[..i], yn, out, dirs, months.value, monthDirs);
      out := out + months.value;
      dirs := dirs + monthDirs;
    }
    WholeListing(names);
    DatesFromDirs(lake, base, out, dirs);
    r := Ok(out);
  }

  /** The loop over the `version=v*` directories of `base`, one entry per directory. */
  method VersionPartitions(lake: Lake, base: Path) returns (r: Result<seq<PartitionEntry>>, ghost dirs: seq<Path>)
    ensures r.Ok? <==> VersionsRead(lake, base)
    ensures r.Raised? ==> r.exc == ValueError
    ensures r.Ok? ==> forall e :: e in r.value <==> VersionListed(lake, base, e)
    ensures r.Ok? ==> |dirs| == |r.value| && Distinct(dirs)
    ensures r.Ok? ==> forall p :: p in dirs <==> VersionDir(lake, base, p)
    ensures r.Ok? ==> forall k :: 0 <= k < |dirs| ==> PartitionRead(dirs[k]) && r.value[k] == PartitionAt(lake, base, dirs[k])
  {
    var names := ListDir(Glob(lake, base, VersionPrefix));
    ListingMembers(Glob(lake, base, VersionPrefix), names);
    var out := [];
    dirs := [];
    for i := 0 to |names|
      invariant forall k :: 0 <= k < i ==> VersionField(names[k]).Some?
      invariant |dirs| == i && |out| == i
      invariant forall k :: 0 <= k < i ==> dirs[k] == [names[k]] && PartitionRead(dirs[k]) && out[k] == PartitionAt(lake, base, dirs[k])
    {
      var vn := names[i];
      if VersionField(vn).None? {
        assert vn in Glob(lake, base, VersionPrefix);
        GlobbedNamesSplit(vn);
        assert SecondField(vn, "=v").Some?;
        return Raised(ValueError), dirs;
      }
      out := out + [VersionPartition(VersionField(vn).value, vn, FilesAt(lake, base + [vn]))];
      dirs := dirs + [[vn]];
    }
    VersionDirsListed(lake, base, names, dirs);
    VersionsFromDirs(lake, base, out, dirs);
    r := Ok(out);
  }

  /**
   * `get_partition_info(base)`: one entry per day directory, then one per
   * version directory, each directory once (`dirs`, relative to `base`); the
   * first name that does not read as a number raises ValueError.
   */
  method GetPartitionInfo(lake: Lake, base: Path) returns (r: Result<seq<PartitionEntry>>, ghost dirs: seq<Path>)
    ensures r.Ok? <==> DatesRead(lake, base) && VersionsRead(lake, base)
    ensures r.Raised? ==> r.exc == ValueError
    ensures r.Ok? ==> forall e :: e in r.value <==> DateListed(lake, base, e) || VersionListed(lake, base, e)
    ensures r.Ok? ==> forall i, j :: 0 <= i < j < |r.value| && r.value[i].VersionPartition? ==> r.value[j].VersionPartition?
    ensures r.Ok? ==> |dirs| == |r.value| && Distinct(dirs)
    ensures r.Ok? ==> forall p :: p in dirs <==> DayDir(lake, base, p) || VersionDir(lake, base, p)
    ensures r.Ok? ==> forall k :: 0 <= k < |dirs| ==> PartitionRead(dirs[k]) && r.value[k] == PartitionAt(lake, base, dirs[k])
  {
    var dates, dateDirs := DatePartitions(lake, base);
    if dates.Raised? {
      return dates, [];
    }
    var versions, versionDirs := VersionPartitions(lake, base);
    if versions.Raised? {
      return versions, [];
    }
    forall e | e in dates.value ensures e.DatePartition? {
      var yn :| yn in Glob(lake, base, YearPrefix) && DateField(yn).Some? && MonthListed(lake, base, yn, DateField(yn).value, e);
    }
    forall e | e in versions.value ensures e.VersionPartition? {
    }
    r := Ok(dates.value + versions.value);
    forall k | 0 <= k < |dates.value| ensures r.value[k].DatePartition? {
      assert r.value[k] == dates.value[k];
    }
    forall i, j | 0 <= i < j < |r.value| && r.value[i].VersionPartition? ensures r.value[j].VersionPartition? {
      assert r.value[j] == versions.value[j - |dates.value|];
    }
    dirs := dateDirs + versionDirs;
    DistinctConcat(dateDirs, versionDirs);
    forall k | 0 <= k < |dirs| ensures PartitionRead(dirs[k]) && r.value[k] == PartitionAt(lake, base, dirs[k]) {
      if k < |dateDirs| {
        assert dirs[k] == dateDirs[k] && r.value[k] == dates.value[k];
      } else {
        assert dirs[k] == versionDirs[k - |dateDirs|] && r.value[k] == versions.value[k - |dateDirs|];
      }
    }
  }

  /**
   * The day directory the exporter writes for a date is listed with that
   * date and its Parquet file count.
   */
  lemma DatePartitionListed(lake: Lake, base: Path, year: int, month: int, day: int)
    requires DatePartitionPath(base, year, month, day) in lake.dirs
    requires base + [YearSegment(year)] in lake.dirs && base + [YearSegment(year), MonthSegment(month)] in lake.dirs
    ensures DateListed(lake, base, DatePartition(year, month, day,
                                                 RelativePath([YearSegment(year), MonthSegment(month), DaySegment(day)]),
                                                 DirectParquetCount(lake, DatePartitionPath(base, year, month, day))))
  {
    var yn, mn, dn := YearSegment(year), MonthSegment(month), DaySegment(day);
    DateSegmentsRoundTrip(year, month, day);
    GlobMembers(lake, base, YearPrefix);
    GlobMembers(lake, base + [yn], MonthPrefix);
    GlobMembers(lake, base + [yn, mn], DayPrefix);
    assert base + [yn] + [mn] == base + [yn, mn];
    assert base + [yn, mn] + [dn] == base + [yn, mn, dn] == DatePartitionPath(base, year, month, day);
    var e := DayEntry(lake, base, yn, year, mn, month, dn);
    assert DayListed(lake, base, yn, year, mn, month, e);
    assert MonthListed(lake, base, yn, year, e);
  }

  /** The version directory the exporter writes is listed with its number and its Parquet file count. */
  lemma VersionPartitionListed(lake: Lake, base: Path, version: int)
    requires VersionPartitionPath(base, version) in lake.dirs
    ensures VersionListed(lake, base, VersionPartition(version, VersionSegment(version),
                                                      DirectParquetCount(lake, VersionPartitionPath(base, version))))
  {
    VersionSegmentRoundTrip(version);
    GlobMembers(lake, base, VersionPrefix);
    assert base + [VersionSegment(version)] == VersionPartitionPath(base, version);
  }
}
