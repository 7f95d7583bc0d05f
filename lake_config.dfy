/**
 * The data-lake layout: the enumerations a feed is described with, the
 * directories every feed lives in, and the partition path resolver that
 * names `year=Y/month=MM/day=DD` and `version=vN` directories, together with
 * the readers that parse those names back.
 */
module LakeConfig {
  import opened Wrappers
  import opened PyText
  import opened Lake

  datatype StorageMode = Append | Overwrite | Ignore
  datatype FeedType = Stream | Table
  datatype PartitioningType = Date | Version

  function StorageModeValue(m: StorageMode): string {
    match m
    case Append => "append"
    case Overwrite => "overwrite"
    case Ignore => "ignore"
  }

  function FeedTypeValue(t: FeedType): string {
    match t
    case Stream => "stream"
    case Table => "table"
  }

  function PartitioningValue(p: PartitioningType): string {
    match p
    case Date => "date"
    case Version => "version"
  }

  /** `StorageMode(s)`: the member whose value is `s`, or ValueError (None). */
  function ParseStorageMode(s: string): (r: Option<StorageMode>)
    ensures r.Some? <==> s in ["append", "overwrite", "ignore"]
    ensures r.Some? ==> StorageModeValue(r.value) == s
  {
    if s == "append" then Some(Append)
    else if s == "overwrite" then Some(Overwrite)
    else if s == "ignore" then Some(Ignore)
    else None
  }

  /** `FeedType(s)`. */
  function ParseFeedType(s: string): (r: Option<FeedType>)
    ensures r.Some? <==> s in ["stream", "table"]
    ensures r.Some? ==> FeedTypeValue(r.value) == s
  {
    if s == "stream" then Some(Stream)
    else if s == "table" then Some(Table)
    else None
  }

  /** `PartitioningType(s)`. */
  function ParsePartitioning(s: string): (r: Option<PartitioningType>)
    ensures r.Some? <==> s in ["date", "version"]
    ensures r.Some? ==> PartitioningValue(r.value) == s
  {
    if s == "date" then Some(Date)
    else if s == "version" then Some(Version)
    else None
  }

  /** Every member is found again from its value. */
  lemma EnumRoundTrips(m: StorageMode, t: FeedType, p: PartitioningType)
    ensures ParseStorageMode(StorageModeValue(m)) == Some(m)
    ensures ParseFeedType(FeedTypeValue(t)) == Some(t)
    ensures ParsePartitioning(PartitioningValue(p)) == Some(p)
  {
  }

  // ---------------------------------------------------------------------------
  // Directories

  const DataLakeRoot: Path := ["data_lake"]
  const StreamsDir: Path := DataLakeRoot + ["streams"]
  const TablesDir: Path := DataLakeRoot + ["tables"]
  const FeedsDir: Path := DataLakeRoot + ["feeds"]

  function StreamPath(name: string): Path {
    StreamsDir + [name]
  }

  function TablePath(name: string): Path {
    TablesDir + [name]
  }

  /** A stream's directory is never a table's, and each name has its own directory. */
  lemma FeedRootsDistinct(a: string, b: string)
    ensures StreamPath(a) != TablePath(b)
    ensures StreamPath(a) == StreamPath(b) ==> a == b
    ensures TablePath(a) == TablePath(b) ==> a == b
  {
    assert StreamPath(a)[1] == "streams" && TablePath(b)[1] == "tables";
    assert StreamPath(a)[2] == a && StreamPath(b)[2] == b;
    assert TablePath(a)[2] == a && TablePath(b)[2] == b;
  }

  // ---------------------------------------------------------------------------
  // Partition names and their readers

  const YearPrefix := "year="
  const MonthPrefix := "month="
  const DayPrefix := "day="
  const VersionPrefix := "version=v"

  function YearSegment(y: int): string {
    YearPrefix + IntToStr(y)
  }

  function MonthSegment(m: int): string {
    MonthPrefix + Pad2(m)
  }

  function DaySegment(d: int): string {
    DayPrefix + Pad2(d)
  }

  function VersionSegment(v: int): string {
    VersionPrefix + IntToStr(v)
  }

  /** `get_date_partition_path`: three levels below `base`. */
  function DatePartitionPath(base: Path, year: int, month: int, day: int): (r: Path)
    ensures |r| == |base| + 3 && Under(r, base)
  {
    base + [YearSegment(year), MonthSegment(month), DaySegment(day)]
  }

  /** `get_version_partition_path`: one level below `base`. */
  function VersionPartitionPath(base: Path, version: int): (r: Path)
    ensures |r| == |base| + 1 && Under(r, base)
  {
    base + [VersionSegment(version)]
  }

  /** `int(name.split("=")[1])`, as the retention sweep and the partition lister read date segments. */
  function DateField(name: string): Option<int> {
    match SecondField(name, "=")
    case Some(t) => ParseInt(t)
    case None => None
  }

  /** `int(name.replace("version=v", ""))`, as the version allocator and the cleanups read version names. */
  function VersionNumber(name: string): Option<int> {
    ParseInt(RemoveAll(name, VersionPrefix))
  }

  /** `int(name.split("=v")[1])`, as the partition lister reads version names. */
  function VersionField(name: string): Option<int> {
    match SecondField(name, "=v")
    case Some(t) => ParseInt(t)
    case None => None
  }

  /**
   * A name the partition globs list has the field `split` reads:
   * `name.split("=")[1]` exists for `year=*`, `month=*` and `day=*`, and
   * `name.split("=v")[1]` for `version=v*`.
   */
  lemma GlobbedNamesSplit(name: string)
    ensures (StartsWith(name, YearPrefix) || StartsWith(name, MonthPrefix) || StartsWith(name, DayPrefix))
            ==> SecondField(name, "=").Some?
    ensures StartsWith(name, VersionPrefix) ==> SecondField(name, "=v").Some?
  {
    if StartsWith(name, YearPrefix) {
      SplitAfterKey(name, "year", "=");
    } else if StartsWith(name, MonthPrefix) {
      SplitAfterKey(name, "month", "=");
    } else if StartsWith(name, DayPrefix) {
      SplitAfterKey(name, "day", "=");
    }
    if StartsWith(name, VersionPrefix) {
      SplitAfterKey(name, "version", "=v");
    }
  }

  lemma SegmentRoundTrip(key: string, t: string)
    requires Lacks(key, '=') && Lacks(t, '=') && ParseInt(t).Some?
    ensures DateField(key + "=" + t) == ParseInt(t)
  {
    SplitAround(key, "=", t);
  }

  /**
   * Each date segment the resolver writes is found by its glob and reads back
   * as the number it was built from, for every integer.
   */
  lemma DateSegmentsRoundTrip(year: int, month: int, day: int)
    ensures StartsWith(YearSegment(year), YearPrefix) && DateField(YearSegment(year)) == Some(year)
    ensures StartsWith(MonthSegment(month), MonthPrefix) && DateField(MonthSegment(month)) == Some(month)
    ensures StartsWith(DaySegment(day), DayPrefix) && DateField(DaySegment(day)) == Some(day)
  {
    YearSegmentReads(year);
    MonthSegmentReads(month);
    DaySegmentReads(day);
  }

  lemma YearSegmentReads(year: int)
    ensures StartsWith(YearSegment(year), YearPrefix) && DateField(YearSegment(year)) == Some(year)
  {
    NumbersLackSeparators(year);
    IntToStrRoundTrip(year);
    KeyedSegmentRoundTrip("year", IntToStr(year));
    assert YearSegment(year) == "year" + "=" + IntToStr(year);
  }

  lemma MonthSegmentReads(month: int)
    ensures StartsWith(MonthSegment(month), MonthPrefix) && DateField(MonthSegment(month)) == Some(month)
  {
    PaddedSegmentRoundTrip("month", month);
    assert MonthSegment(month) == "month" + "=" + Pad2(month);
  }

  lemma DaySegmentReads(day: int)
    ensures StartsWith(DaySegment(day), DayPrefix) && DateField(DaySegment(day)) == Some(day)
  {
    PaddedSegmentRoundTrip("day", day);
    assert DaySegment(day) == "day" + "=" + Pad2(day);
  }

  /** One `key=NN` segment, the number zero-padded to two digits. */
  lemma PaddedSegmentRoundTrip(key: string, i: int)
    requires Lacks(key, '=')
    ensures StartsWith(key + "=" + Pad2(i), key + "=") && DateField(key + "=" + Pad2(i)) == Some(i)
  {
    NumbersLackSeparators(i);
    Pad2RoundTrip(i);
    KeyedSegmentRoundTrip(key, Pad2(i));
  }

  /** A `key=t` segment starts with its key and reads back as the number `t` holds. */
  lemma KeyedSegmentRoundTrip(key: string, t: string)
    requires Lacks(key, '=') && Lacks(t, '=') && ParseInt(t).Some?
    ensures StartsWith(key + "=" + t, key + "=") && DateField(key + "=" + t) == ParseInt(t)
  {
    assert (key + "=" + t)[..|key + "="|] == key + "=";
    SegmentRoundTrip(key, t);
  }

  /** Month and day are written with at least two digits; the year and the version are not padded. */
  lemma SegmentWidths(year: int, month: int, day: int, version: int)
    ensures |MonthSegment(month)| >= |MonthPrefix| + 2 && |DaySegment(day)| >= |DayPrefix| + 2
    ensures YearSegment(year) == YearPrefix + IntToStr(year)
    ensures VersionSegment(version) == VersionPrefix + IntToStr(version)
    ensures 0 <= month < 10 ==> MonthSegment(month) == MonthPrefix + "0" + NatToStr(month)
  {
    Pad2RoundTrip(month);
    Pad2RoundTrip(day);
  }

  lemma VersionReplaceRoundTrip(t: string)
    requires Lacks(t, 'v')
    ensures RemoveAll(VersionPrefix + t, VersionPrefix) == t
  {
    assert VersionPrefix + t == "" + VersionPrefix + t;
    SplitAround("", VersionPrefix, t);
    assert Concat([t]) == t + Concat([]);
    assert Concat(["", t]) == "" + Concat([t]);
  }

  lemma VersionSplitRoundTrip(t: string)
    requires Lacks(t, '=')
    ensures SecondField(VersionPrefix + t, "=v") == Some(t)
  {
    assert VersionPrefix + t == "version" + "=v" + t;
    SplitAround("version", "=v", t);
  }

  /**
   * A version directory is found by `glob("version=v*")` and both readers,
   * `replace` and `split("=v")`, give back its number, for every integer.
   */
  lemma VersionSegmentRoundTrip(version: int)
    ensures StartsWith(VersionSegment(version), VersionPrefix)
    ensures VersionNumber(VersionSegment(version)) == Some(version)
    ensures VersionField(VersionSegment(version)) == Some(version)
  {
    NumbersLackSeparators(version);
    IntToStrRoundTrip(version);
    VersionReplaceRoundTrip(IntToStr(version));
    VersionSplitRoundTrip(IntToStr(version));
  }

  /** Distinct dates give distinct partition directories. */
  lemma DatePartitionInjective(base: Path, y1: int, m1: int, d1: int, y2: int, m2: int, d2: int)
    requires DatePartitionPath(base, y1, m1, d1) == DatePartitionPath(base, y2, m2, d2)
    ensures y1 == y2 && m1 == m2 && d1 == d2
  {
    var p := DatePartitionPath(base, y1, m1, d1);
    assert p[|base|] == YearSegment(y1) == YearSegment(y2);
    assert p[|base| + 1] == MonthSegment(m1) == MonthSegment(m2);
    assert p[|base| + 2] == DaySegment(d1) == DaySegment(d2);
    DateSegmentsRoundTrip(y1, m1, d1);
    DateSegmentsRoundTrip(y2, m2, d2);
  }

  /** Distinct versions give distinct partition directories. */
  lemma VersionPartitionInjective(base: Path, v1: int, v2: int)
    requires VersionPartitionPath(base, v1) == VersionPartitionPath(base, v2)
    ensures v1 == v2
  {
    assert VersionPartitionPath(base, v1)[|base|] == VersionSegment(v1) == VersionSegment(v2);
    VersionSegmentRoundTrip(v1);
    VersionSegmentRoundTrip(v2);
  }

  // ---------------------------------------------------------------------------
  // The configured feeds

  datatype FeedConfig = FeedConfig(
    name: string,
    feedType: FeedType,
    description: string,
    partitioning: PartitioningType,
    storageMode: StorageMode,
    retentionDays: Option<int>,
    retentionVersions: Option<int>,
    enabled: bool)

  const StreamsConfig: seq<FeedConfig> := [
    FeedConfig("transaction_stream", Stream, "Stream principal avec données brutes", Date, Append, Some(365), None, true),
    FeedConfig("transaction_flattened", Stream, "Stream avec schéma aplati", Date, Append, Some(365), None, true),
    FeedConfig("transaction_stream_anonymized", Stream, "Stream anonymisé + conversion EUR", Date, Append, Some(730), None, true),
    FeedConfig("transaction_stream_blacklisted", Stream, "Transactions des villes blacklistées", Date, Append, Some(365), None, true)
  ]

  const TablesConfig: seq<FeedConfig> := [
    FeedConfig("user_transaction_summary", Table, "Montants par utilisateur et type", Version, Overwrite, None, Some(7), true),
    FeedConfig("user_transaction_summary_eur", Table, "Montants en EUR par utilisateur", Version, Overwrite, None, Some(7), true),
    FeedConfig("payment_method_totals", Table, "Totaux par méthode de paiement", Version, Overwrite, None, Some(7), true),
    FeedConfig("product_purchase_counts", Table, "Compteurs par produit", Version, Overwrite, None, Some(7), true)
  ]
}
