/**
 * `FeedManager`: the registry of feed configurations. An active feed's
 * configuration lives in `feeds/active/<name>.json`, an archived one's in
 * `feeds/archived/<name>.json`. The manager adds, updates, enables,
 * disables, archives, restores and deletes them, and creates the
 * configured feeds that are missing.
 */
module Feeds {
  import opened Wrappers
  import opened JsonDoc
  import opened PyText
  import opened Lake
  import opened LakeConfig
  import Manifest

  /** The two configuration directories, as maps from feed name to the decoded file, and the data lake. */
  datatype Registry = Registry(active: map<string, Doc>, archived: map<string, Doc>, lake: Lake)

  // ---------------------------------------------------------------------------
  // Adding a feed

  /** `_get_partition_columns`. */
  function PartitionColumns(p: PartitioningType): seq<string> {
    match p
    case Date => ["year", "month", "day"]
    case Version => ["version"]
  }

  /** The partition columns are the keys of the directory segments the lake is partitioned by. */
  lemma PartitionColumnsNameSegments(base: Path, year: int, month: int, day: int, version: int)
    ensures |PartitionColumns(Date)| == 3 && |PartitionColumns(Version)| == 1
    ensures forall i :: 0 <= i < 3 ==>
              StartsWith(DatePartitionPath(base, year, month, day)[|base| + i], PartitionColumns(Date)[i] + "=")
    ensures StartsWith(VersionPartitionPath(base, version)[|base|], PartitionColumns(Version)[0] + "=")
  {
    ColumnKeys();
    DateSegmentsRoundTrip(year, month, day);
    VersionSegmentKeyed(version);
    var p := DatePartitionPath(base, year, month, day);
    var segments := [YearSegment(year), MonthSegment(month), DaySegment(day)];
    assert p == base + segments;
    forall i | 0 <= i < 3
      ensures StartsWith(p[|base| + i], PartitionColumns(Date)[i] + "=")
    {
      assert p[|base| + i] == segments[i];
      if i == 0 {
        assert StartsWith(segments[i], YearPrefix);
      } else if i == 1 {
        assert StartsWith(segments[i], MonthPrefix);
      } else {
        assert StartsWith(segments[i], DayPrefix);
      }
    }
  }

  lemma ColumnKeys()
    ensures PartitionColumns(Date)[0] + "=" == YearPrefix && PartitionColumns(Date)[1] + "=" == MonthPrefix
    ensures PartitionColumns(Date)[2] + "=" == DayPrefix && PartitionColumns(Version)[0] + "=" == "version="
  {
  }

  lemma VersionSegmentKeyed(version: int)
    ensures StartsWith(VersionSegment(version), "version=")
  {
    assert VersionSegment(version)[..|"version="|] == "version=";
  }

  /** The arguments of `add_feed`. */
  datatype FeedRequest = FeedRequest(name: string, feedType: string, source: string, description: string,
                                     partitioning: string, storageMode: string, retentionDays: int)

  /** The three enum arguments name members of their enums. */
  predicate ValidRequest(req: FeedRequest) {
    && ParseFeedType(req.feedType).Some?
    && ParsePartitioning(req.partitioning).Some?
    && ParseStorageMode(req.storageMode).Some?
  }

  function Strings(s: seq<string>): seq<Json> {
    seq(|s|, i requires 0 <= i < |s| => JStr(s[i]))
  }

  /** The configuration `add_feed` writes, both time stamps reading `nowIso`. */
  function NewFeedConfig(req: FeedRequest, p: PartitioningType, nowIso: string): Doc {
    map["feed_name" := JStr(req.name),
        "feed_type" := JStr(req.feedType),
        "ksqldb_source" := JStr(req.source),
        "description" := JStr(req.description),
        "partitioning" := JObj(map["type" := JStr(req.partitioning), "columns" := JArr(Strings(PartitionColumns(p)))]),
        "storage_mode" := JStr(req.storageMode),
        "format" := JStr(Manifest.StorageFormat),
        "retention_days" := JNum(req.retentionDays as real),
        "enabled" := JBool(true),
        "created_at" := JStr(nowIso),
        "updated_at" := JStr(nowIso)]
  }

  /** The directory of a feed in the data lake. */
  function FeedDir(t: FeedType, name: string): Path {
    match t
    case Stream => StreamPath(name)
    case Table => TablePath(name)
  }

  /**
   * `add_feed`: rejected when an enum argument is invalid or an active
   * feed has the name (an archived one does not count); otherwise the
   * configuration is written and the feed's directory created.
   */
  function Added(reg: Registry, req: FeedRequest, nowIso: string): (r: (Registry, bool))
    ensures r.1 <==> ValidRequest(req) && req.name !in reg.active
    ensures !r.1 ==> r.0 == reg
    ensures r.1 ==> && r.0.active.Keys == reg.active.Keys + {req.name}
                    && (forall n :: n in reg.active ==> r.0.active[n] == reg.active[n])
                    && "enabled" in r.0.active[req.name] && "retention_days" in r.0.active[req.name]
                    && r.0.active[req.name]["enabled"] == JBool(true)
                    && r.0.active[req.name]["retention_days"] == JNum(req.retentionDays as real)
                    && r.0.archived == reg.archived
                    && FeedDir(ParseFeedType(req.feedType).value, req.name) in r.0.lake.dirs
  {
    match (ParseFeedType(req.feedType), ParsePartitioning(req.partitioning), ParseStorageMode(req.storageMode))
    case (Some(t), Some(p), Some(_)) =>
      if req.name in reg.active then (reg, false)
      else
        var config := NewFeedConfig(req, p, nowIso);
        (Registry(reg.active[req.name := config], reg.archived, MkDirs(reg.lake, FeedDir(t, req.name))), true)
    case _ => (reg, false)
  }

  /** A new feed's partition columns follow its partitioning. */
  lemma NewFeedColumns(req: FeedRequest, nowIso: string)
    requires ParsePartitioning(req.partitioning).Some?
    ensures var c := NewFeedConfig(req, ParsePartitioning(req.partitioning).value, nowIso)["partitioning"];
            && c.JObj? && "columns" in c.fields
            && c.fields["columns"] == (if req.partitioning == "date" then JArr([JStr("year"), JStr("month"), JStr("day")])
                                       else JArr([JStr("version")]))
  {
    var p := ParsePartitioning(req.partitioning).value;
    if p == Date {
      assert Strings(PartitionColumns(p)) == [JStr("year"), JStr("month"), JStr("day")];
    } else {
      assert Strings(PartitionColumns(p)) == [JStr("version")];
    }
  }

  /** A feed cannot be added twice while it is active. */
  lemma AddedOnce(reg: Registry, req: FeedRequest, t1: string, t2: string)
    requires Added(reg, req, t1).1
    ensures Added(Added(reg, req, t1).0, req, t2) == (Added(reg, req, t1).0, false)
  {
  }

  // ---------------------------------------------------------------------------
  // Updating a feed

  /** An argument of `update_feed(name, **kwargs)`: a key and its value, None when the caller passed None. */
  type Update = (string, Option<Json>)

  /** The last value supplied for `key`, None when none was. */
  function LastValue(kwargs: seq<Update>, key: string): Option<Json>
    decreases |kwargs|
  {
    if kwargs == [] then None
    else
      var (k, v) := kwargs[|kwargs| - 1];
      if k == key && v.Some? then v else LastValue(kwargs[..|kwargs| - 1], key)
  }

  /** The loop of `update_feed`: each supplied value replaces an existing key; other keys are ignored. */
  function ApplyUpdates(config: Doc, kwargs: seq<Update>): (r: Doc)
    ensures r.Keys == config.Keys
    decreases |kwargs|
  {
    if kwargs == [] then config
    else
      var c := ApplyUpdates(config, kwargs[..|kwargs| - 1]);
      var (k, v) := kwargs[|kwargs| - 1];
      if v.Some? && k in c then c[k := v.value] else c
  }

  /** Some argument supplies a value for a key of the configuration. */
  predicate Supplied(config: Doc, kwargs: seq<Update>) {
    exists i :: 0 <= i < |kwargs| && kwargs[i].1.Some? && kwargs[i].0 in config
  }

  /**
   * After the updates every key keeps its place, and its value is the last
   * one supplied for it, or the old one when none was.
   */
  lemma {:induction false} UpdatesPerKey(config: Doc, kwargs: seq<Update>)
    ensures forall k :: k in config ==> ApplyUpdates(config, kwargs)[k] == LastValue(kwargs, k).GetOr(config[k])
    decreases |kwargs|
  {
    if kwargs != [] {
      UpdatesPerKey(config, kwargs[..|kwargs| - 1]);
    }
  }

  /** A value is supplied for a key of the configuration exactly when `Supplied` holds. */
  lemma {:induction false} SuppliedPerKey(config: Doc, kwargs: seq<Update>)
    ensures Supplied(config, kwargs) <==> exists k :: k in config && LastValue(kwargs, k).Some?
    decreases |kwargs|
  {
    if kwargs != [] {
      var n := |kwargs|;
      var init := kwargs[..n - 1];
      SuppliedPerKey(config, init);
      if Supplied(config, kwargs) {
        var i :| 0 <= i < n && kwargs[i].1.Some? && kwargs[i].0 in config;
        if i < n - 1 {
          assert init[i] == kwargs[i];
          var k :| k in config && LastValue(init, k).Some?;
          assert LastValue(kwargs, k).Some?;
        } else {
          assert LastValue(kwargs, kwargs[i].0).Some?;
        }
      }
      if exists k :: k in config && LastValue(kwargs, k).Some? {
        var k :| k in config && LastValue(kwargs, k).Some?;
        if kwargs[n - 1].0 == k && kwargs[n - 1].1.Some? {
          assert kwargs[n - 1].1.Some? && kwargs[n - 1].0 in config;
        } else {
          var i :| 0 <= i < n - 1 && init[i].1.Some? && init[i].0 in config;
          assert kwargs[i] == init[i];
        }
      }
    }
  }

  /**
   * `update_feed`: only an active feed can be updated; it is saved, with
   * `updated_at` stamped, exactly when some argument supplied a value for
   * one of its keys, even one equal to the old value.
   */
  function Updated(reg: Registry, name: string, kwargs: seq<Update>, nowIso: string): (r: (Registry, bool))
    ensures r.1 <==> name in reg.active && Supplied(reg.active[name], kwargs)
    ensures !r.1 ==> r.0 == reg
    ensures r.0.archived == reg.archived && r.0.lake == reg.lake && r.0.active.Keys == reg.active.Keys
    ensures forall n :: n in reg.active && n != name ==> r.0.active[n] == reg.active[n]
  {
    if name !in reg.active || !Supplied(reg.active[name], kwargs) then (reg, false)
    else
      var c := ApplyUpdates(reg.active[name], kwargs)["updated_at" := JStr(nowIso)];
      (reg.(active := reg.active[name := c]), true)
  }

  /** `enable_feed` and `disable_feed`. */
  function Toggle(on: bool): seq<Update> {
    [("enabled", Some(JBool(on)))]
  }

  /** Enabling or disabling an active feed sets its flag, and fails when its configuration has no `enabled` key. */
  lemma ToggleSetsFlag(reg: Registry, name: string, on: bool, nowIso: string)
    requires name in reg.active
    ensures var (r, ok) := Updated(reg, name, Toggle(on), nowIso);
            && (ok <==> "enabled" in reg.active[name])
            && (ok ==> r.active[name] == reg.active[name]["enabled" := JBool(on)]["updated_at" := JStr(nowIso)])
  {
    var c := reg.active[name];
    assert Toggle(on)[..0] == [];
    assert ApplyUpdates(c, Toggle(on)) == if "enabled" in c then c["enabled" := JBool(on)] else c;
    if "enabled" in c {
      assert Toggle(on)[0].1.Some? && Toggle(on)[0].0 in c;
    }
  }

  /** A feed just added can be disabled. */
  lemma AddedFeedCanBeDisabled(reg: Registry, req: FeedRequest, t1: string, t2: string)
    requires Added(reg, req, t1).1
    ensures var r := Added(reg, req, t1).0;
            && Updated(r, req.name, Toggle(false), t2).1
            && Updated(r, req.name, Toggle(false), t2).0.active[req.name]["enabled"] == JBool(false)
  {
    ToggleSetsFlag(Added(reg, req, t1).0, req.name, false, t2);
  }

  // ---------------------------------------------------------------------------
  // Archiving, restoring, deleting

  function ArchivedConfig(c: Doc, nowIso: string): Doc {
    c["enabled" := JBool(false)]["archived_at" := JStr(nowIso)]
  }

  function RestoredConfig(c: Doc, nowIso: string): Doc {
    c["enabled" := JBool(true)]["restored_at" := JStr(nowIso)] - {"archived_at"}
  }

  /**
   * `archive_feed`: an active feed moves to the archive (replacing an
   * archived file of the same name), disabled and stamped.
   */
  function Archived(reg: Registry, name: string, nowIso: string): (r: (Registry, bool))
    ensures r.1 <==> name in reg.active
    ensures !r.1 ==> r.0 == reg
    ensures r.1 ==> && name !in r.0.active && name in r.0.archived
                    && "enabled" in r.0.archived[name] && r.0.archived[name]["enabled"] == JBool(false)
                    && r.0.active == reg.active - {name}
                    && r.0.archived - {name} == reg.archived - {name}
  {
    if name !in reg.active then (reg, false)
    else (Registry(reg.active - {name}, reg.archived[name := ArchivedConfig(reg.active[name], nowIso)], reg.lake), true)
  }

  /** `restore_feed`: an archived feed moves back to the active ones, enabled, without `archived_at`. */
  function Restored(reg: Registry, name: string, nowIso: string): (r: (Registry, bool))
    ensures r.1 <==> name in reg.archived
    ensures !r.1 ==> r.0 == reg
    ensures r.1 ==> && name in r.0.active && name !in r.0.archived
                    && "enabled" in r.0.active[name] && r.0.active[name]["enabled"] == JBool(true)
                    && "archived_at" !in r.0.active[name]
                    && r.0.archived == reg.archived - {name}
                    && r.0.active - {name} == reg.active - {name}
  {
    if name !in reg.archived then (reg, false)
    else (Registry(reg.active[name := RestoredConfig(reg.archived[name], nowIso)], reg.archived - {name}, reg.lake), true)
  }

  /**
   * Archiving an active feed and restoring it brings its configuration
   * back to the active ones, enabled, with every other setting as it was,
   * and leaves no archived copy of it.
   */
  lemma ArchiveRestoreRoundTrip(reg: Registry, name: string, t1: string, t2: string)
    requires name in reg.active
    ensures var (a, ok1) := Archived(reg, name, t1);
            var (b, ok2) := Restored(a, name, t2);
            var c := reg.active[name];
            && ok1 && ok2
            && b.active.Keys == reg.active.Keys && b.archived == reg.archived - {name}
            && (forall n :: n in reg.active && n != name ==> b.active[n] == reg.active[n])
            && b.active[name].Keys == c.Keys + {"enabled", "restored_at"} - {"archived_at"}
            && b.active[name]["enabled"] == JBool(true)
            && forall k :: k in c && k !in {"enabled", "restored_at", "archived_at"} ==> b.active[name][k] == c[k]
  {
  }

  /**
   * `delete_feed`: the active configuration of that name, or else the
   * archived one, is removed, and only when `confirm` is set.
   */
  function Deleted(reg: Registry, name: string, confirm: bool): (r: (Registry, bool))
    ensures r.1 <==> confirm && (name in reg.active || name in reg.archived)
    ensures !r.1 ==> r.0 == reg
    ensures r.1 && name in reg.active ==> r.0 == reg.(active := reg.active - {name})
    ensures r.1 && name !in reg.active ==> r.0 == reg.(archived := reg.archived - {name})
  {
    if name in reg.active then
      if confirm then (reg.(active := reg.active - {name}), true) else (reg, false)
    else if name in reg.archived then
      if confirm then (reg.(archived := reg.archived - {name}), true) else (reg, false)
    else (reg, false)
  }

  // ---------------------------------------------------------------------------
  // Synchronising with the configuration

  /** The `add_feed` call `sync_from_config` makes for a configured feed; the type is the group's. */
  function SyncRequest(c: FeedConfig, kind: string): FeedRequest {
    FeedRequest(c.name, kind, c.name, c.description, PartitioningValue(c.partitioning),
                StorageModeValue(c.storageMode), c.retentionDays.GetOr(365))
  }

  /** The loop of `sync_from_config` over one group: every configured name without an active file is added and counted. */
  function SyncedGroup(reg: Registry, configs: seq<FeedConfig>, kind: string, nowIso: string): (Registry, nat)
    decreases |configs|
  {
    if configs == [] then (reg, 0)
    else
      var (r, n) := SyncedGroup(reg, configs[..|configs| - 1], kind, nowIso);
      var c := configs[|configs| - 1];
      if c.name in r.active then (r, n) else (Added(r, SyncRequest(c, kind), nowIso).0, n + 1)
  }

  /** `SyncedGroup` over one more configuration. */
  lemma SyncedGroupStep(reg: Registry, configs: seq<FeedConfig>, i: nat, kind: string, nowIso: string)
    requires i < |configs|
    ensures var before, after := SyncedGroup(reg, configs[..i], kind, nowIso), SyncedGroup(reg, configs[..i + 1], kind, nowIso);
            if configs[i].name in before.0.active then after == before
            else after.0 == Added(before.0, SyncRequest(configs[i], kind), nowIso).0 && after.1 == before.1 + 1
  {
    assert configs[..i + 1][..i] == configs[..i];
  }

  /** The configured names that have no active file. */
  function MissingNames(configs: seq<FeedConfig>, active: map<string, Doc>): set<string> {
    set c | c in configs && c.name !in active :: c.name
  }

  predicate NamesDistinct(configs: seq<FeedConfig>) {
    forall i, j :: 0 <= i < j < |configs| ==> configs[i].name != configs[j].name
  }

  /**
   * Synchronising a group whose names are distinct adds exactly the
   * configured names that were not active, and changes no feed that was
   * active and no archived one.
   */
  lemma {:induction false} SyncAddsMissing(reg: Registry, configs: seq<FeedConfig>, kind: string, nowIso: string)
    requires NamesDistinct(configs) && ParseFeedType(kind).Some?
    ensures SyncedGroup(reg, configs, kind, nowIso).0.active.Keys == reg.active.Keys + MissingNames(configs, reg.active)
    ensures forall m :: m in reg.active ==> SyncedGroup(reg, configs, kind, nowIso).0.active[m] == reg.active[m]
    ensures SyncedGroup(reg, configs, kind, nowIso).0.archived == reg.archived
    decreases |configs|
  {
    if configs != [] {
      var k := |configs|;
      var init, c := configs[..k - 1], configs[k - 1];
      SyncAddsMissing(reg, init, kind, nowIso);
      var r := SyncedGroup(reg, init, kind, nowIso).0;
      SyncOneMore(r, c, kind, nowIso);
      MissingNamesSnoc(configs, reg.active);
      if c.name in reg.active {
        assert SyncedGroup(reg, configs, kind, nowIso).0 == r;
      } else {
        assert SyncedGroup(reg, configs, kind, nowIso).0 == Added(r, SyncRequest(c, kind), nowIso).0;
      }
    }
  }

  /** Synchronising a group whose names are distinct counts each configured name that was not active once. */
  lemma {:induction false} SyncCountsMissing(reg: Registry, configs: seq<FeedConfig>, kind: string, nowIso: string)
    requires NamesDistinct(configs) && ParseFeedType(kind).Some?
    ensures SyncedGroup(reg, configs, kind, nowIso).1 == |MissingNames(configs, reg.active)|
    decreases |configs|
  {
    if configs != [] {
      var k := |configs|;
      var init, c := configs[..k - 1], configs[k - 1];
      SyncCountsMissing(reg, init, kind, nowIso);
      SyncCountStep(reg, configs, kind, nowIso);
      MissingCountSnoc(configs, reg.active);
    }
  }

  /** The number of missing names grows by one exactly when the last configured name is missing. */
  lemma MissingCountSnoc(configs: seq<FeedConfig>, active: map<string, Doc>)
    requires NamesDistinct(configs) && configs != []
    ensures var init, c := configs[..|configs| - 1], configs[|configs| - 1];
            |MissingNames(configs, active)| == |MissingNames(init, active)| + (if c.name in active then 0 else 1)
  {
    MissingNamesSnoc(configs, active);
  }

  /** The last configured feed of a group is counted exactly when its name was not active before the group. */
  lemma SyncCountStep(reg: Registry, configs: seq<FeedConfig>, kind: string, nowIso: string)
    requires NamesDistinct(configs) && ParseFeedType(kind).Some? && configs != []
    ensures var c := configs[|configs| - 1];
            SyncedGroup(reg, configs, kind, nowIso).1
            == SyncedGroup(reg, configs[..|configs| - 1], kind, nowIso).1 + (if c.name in reg.active then 0 else 1)
  {
    var init, c := configs[..|configs| - 1], configs[|configs| - 1];
    SyncAddsMissing(reg, init, kind, nowIso);
    MissingNamesSnoc(configs, reg.active);
    assert c.name in SyncedGroup(reg, init, kind, nowIso).0.active <==> c.name in reg.active;
  }

  /** One configured feed: nothing changes when it is active, otherwise it is added and nothing else changes. */
  lemma SyncOneMore(r: Registry, c: FeedConfig, kind: string, nowIso: string)
    requires ParseFeedType(kind).Some?
    ensures c.name !in r.active ==>
              var a := Added(r, SyncRequest(c, kind), nowIso);
              && a.1 && a.0.active.Keys == r.active.Keys + {c.name} && a.0.archived == r.archived
              && forall m :: m in r.active ==> a.0.active[m] == r.active[m]
  {
    EnumRoundTrips(c.storageMode, c.feedType, c.partitioning);
  }

  /** The missing names of a group with distinct names grow by the last name when that one is missing. */
  lemma MissingNamesSnoc(configs: seq<FeedConfig>, active: map<string, Doc>)
    requires NamesDistinct(configs) && configs != []
    ensures var init, c := configs[..|configs| - 1], configs[|configs| - 1];
            && NamesDistinct(init)
            && c.name !in MissingNames(init, active)
            && MissingNames(configs, active)
               == MissingNames(init, active) + (if c.name in active then {} else {c.name})
  {
    var k := |configs|;
    var init, c := configs[..k - 1], configs[k - 1];
    forall d | d in init ensures d.name != c.name {
      var i :| 0 <= i < k - 1 && init[i] == d;
      assert configs[i] == d;
    }
    assert configs == init + [c];
  }

  /** The configured names of the two groups. */
  lemma ConfiguredNamesDistinct()
    ensures NamesDistinct(StreamsConfig) && NamesDistinct(TablesConfig)
    ensures forall c, d :: c in StreamsConfig && d in TablesConfig ==> c.name != d.name
  {
  }

  /** The names of a group that an earlier group's synchronisation added are no longer missing, the others are. */
  lemma MissingAfterSync(configs: seq<FeedConfig>, before: map<string, Doc>, after: map<string, Doc>, added: set<string>)
    requires after.Keys == before.Keys + added
    requires forall c :: c in configs ==> c.name !in added
    ensures MissingNames(configs, after) == MissingNames(configs, before)
  {
  }

  // ---------------------------------------------------------------------------
  // The manager

  class FeedManager {
    var active: map<string, Doc>
    var archived: map<string, Doc>
    var lake: Lake

    function State(): Registry
      reads this
    {
      Registry(active, archived, lake)
    }

    constructor(reg: Registry)
      ensures State() == reg
    {
      active, archived, lake := reg.active, reg.archived, reg.lake;
    }

    /** `add_feed`. */
    method AddFeed(req: FeedRequest, nowIso: string) returns (ok: bool)
      modifies this
      ensures (State(), ok) == Added(old(State()), req, nowIso)
    {
      var t := ParseFeedType(req.feedType);
      if t.None? {
        return false;
      }
      var p := ParsePartitioning(req.partitioning);
      if p.None? {
        return false;
      }
      if ParseStorageMode(req.storageMode).None? {
        return false;
      }
      if req.name in active {
        return false;
      }
      active := active[req.name := NewFeedConfig(req, p.value, nowIso)];
      lake := MkDirs(lake, FeedDir(t.value, req.name));
      ok := true;
    }

    /** `update_feed`. */
    method UpdateFeed(name: string, kwargs: seq<Update>, nowIso: string) returns (ok: bool)
      modifies this
      ensures (State(), ok) == Updated(old(State()), name, kwargs, nowIso)
    {
      if name !in active {
        return false;
      }
      var original := active[name];
      var config := original;
      var updated := false;
      for i := 0 to |kwargs|
        invariant config == ApplyUpdates(original, kwargs[..i])
        invariant updated <==> Supplied(original, kwargs[..i])
      {
        assert kwargs[..i + 1][..i] == kwargs[..i];
        var (key, value) := kwargs[i];
        if value.Some? && key in config {
          config := config[key := value.value];
          updated := true;
        }
        assert forall j :: 0 <= j < i ==> kwargs[..i + 1][j] == kwargs[..i][j];
        if Supplied(original, kwargs[..i]) {
          var j :| 0 <= j < i && kwargs[..i][j].1.Some? && kwargs[..i][j].0 in original;
          assert kwargs[..i + 1][j] == kwargs[..i][j];
        }
        assert kwargs[..i + 1][i] == kwargs[i];
      }
      assert kwargs[..|kwargs|] == kwargs;
      if updated {
        active := active[name := config["updated_at" := JStr(nowIso)]];
        return true;
      }
      return false;
    }

    /** `enable_feed`. */
    method EnableFeed(name: string, nowIso: string) returns (ok: bool)
      modifies this
      ensures (State(), ok) == Updated(old(State()), name, Toggle(true), nowIso)
    {
      ok := UpdateFeed(name, Toggle(true), nowIso);
    }

    /** `disable_feed`. */
    method DisableFeed(name: string, nowIso: string) returns (ok: bool)
      modifies this
      ensures (State(), ok) == Updated(old(State()), name, Toggle(false), nowIso)
    {
      ok := UpdateFeed(name, Toggle(false), nowIso);
    }

    /** `archive_feed`. */
    method ArchiveFeed(name: string, nowIso: string) returns (ok: bool)
      modifies this
      ensures (State(), ok) == Archived(old(State()), name, nowIso)
    {
      if name !in active {
        return false;
      }
      var config := active[name];
      active := active - {name};
      config := config["enabled" := JBool(false)];
      config := config["archived_at" := JStr(nowIso)];
      archived := archived[name := config];
      ok := true;
    }

    /** `restore_feed`. */
    method RestoreFeed(name: string, nowIso: string) returns (ok: bool)
      modifies this
      ensures (State(), ok) == Restored(old(State()), name, nowIso)
    {
      if name !in archived {
        return false;
      }
      var config := archived[name];
      archived := archived - {name};
      config := config["enabled" := JBool(true)];
      config := config["restored_at" := JStr(nowIso)];
      if "archived_at" in config {
        config := config - {"archived_at"};
      } else {
        assert config - {"archived_at"} == config;
      }
      active := active[name := config];
      ok := true;
    }

    /** `delete_feed`. */
    method DeleteFeed(name: string, confirm: bool) returns (ok: bool)
      modifies this
      ensures (State(), ok) == Deleted(old(State()), name, confirm)
    {
      var inActive := name in active;
      if !inActive && name !in archived {
        return false;
      }
      if !confirm {
        return false;
      }
      if inActive {
        active := active - {name};
      } else {
        archived := archived - {name};
      }
      ok := true;
    }

    /** One group of `sync_from_config`. */
    method SyncGroup(configs: seq<FeedConfig>, kind: string, nowIso: string) returns (synced: nat)
      modifies this
      ensures (State(), synced) == SyncedGroup(old(State()), configs, kind, nowIso)
    {
      synced := 0;
      for i := 0 to |configs|
        invariant State() == SyncedGroup(old(State()), configs[..i], kind, nowIso).0
        invariant synced == SyncedGroup(old(State()), configs[..i], kind, nowIso).1
      {
        SyncedGroupStep(old(State()), configs, i, kind, nowIso);
        var c := configs[i];
        if c.name !in active {
          var _ := AddFeed(SyncRequest(c, kind), nowIso);
          synced := synced + 1;
        }
      }
      assert configs[..|configs|] == configs;
    }

    /**
     * `sync_from_config`: the configured streams, then the configured
     * tables, that have no active file are added; the count of added feeds
     * is returned (the script prints it).
     */
    method SyncFromConfig(nowIso: string) returns (synced: nat)
      modifies this
      ensures State() == SyncedGroup(SyncedGroup(old(State()), StreamsConfig, "stream", nowIso).0, TablesConfig, "table", nowIso).0
      ensures synced == |MissingNames(StreamsConfig, old(active))| + |MissingNames(TablesConfig, old(active))|
      ensures active.Keys == old(active).Keys + MissingNames(StreamsConfig, old(active)) + MissingNames(TablesConfig, old(active))
      ensures forall n :: n in old(active) ==> active[n] == old(active)[n]
      ensures archived == old(archived)
    {
      ConfiguredNamesDistinct();
      ghost var before := State();
      SyncAddsMissing(before, StreamsConfig, "stream", nowIso);
      SyncCountsMissing(before, StreamsConfig, "stream", nowIso);
      var streams := SyncGroup(StreamsConfig, "stream", nowIso);
      ghost var middle := State();
      SyncAddsMissing(middle, TablesConfig, "table", nowIso);
      SyncCountsMissing(middle, TablesConfig, "table", nowIso);
      MissingAfterSync(TablesConfig, before.active, middle.active, MissingNames(StreamsConfig, before.active));
      var tables := SyncGroup(TablesConfig, "table", nowIso);
      synced := streams + tables;
    }
  }
}
