# Data-lake ingestion, versioning and retention — a Dafny model

This project models the core of a pipeline that moves Kafka and ksqlDB feeds into two destinations. The first is a partitioned Parquet data lake: streams are written under `streams/<feed>/year=Y/month=MM/day=DD/` and tables under `tables/<feed>/version=vN/`, each feed with a `_metadata.json` manifest. The second is a MySQL star-schema warehouse. The model covers:

- the partition path resolver and the feed, partitioning and storage-mode enums (`LakeConfig`);
- the Kafka topic routing tables (`KafkaConfig`);
- the per-topic buffers of the data-lake consumer, with the flush trigger, stream writes, table version allocation and version cleanup (`DataLakeConsumer`);
- the per-topic buffers of the warehouse consumer and its upsert translation into `dim_users` and the fact tables, one transaction per batch (`WarehouseConsumer` over `WarehouseDb` and `Upserts`);
- the batch warehouse sync, which commits each statement separately (`SyncToMysql`);
- the exporter's stream and table exports, next-version allocation, version cleanup and manifest read-modify-write (`Exporter`, `Manifest`);
- the retention sweep: age cutoff on the date encoded in day directory names, keep-the-newest-N versions, dry run, and the deletion log and policy stamps (`Retention`);
- manifest aggregation: reading, listing, statistics and partition info (`Metadata`);
- the feed registry: add, update, enable, disable, archive, restore, delete and sync from configuration (`Feeds`).

Shared modules carry the modelling vocabulary:

- `Wrappers` holds Option, Result and the Python exceptions that matter.
- `PyText` holds Python's `int()` on an optional sign and ASCII digits, `str.split` and `str.replace`, and zero padding.
- `Calendar` holds proleptic Gregorian dates and the second count of `datetime`.
- `JsonDoc` holds JSON documents.
- `Lake` holds the file tree. It maps each existing directory, as a path of segments, to the names of the files directly in it, and keeps the manifests' contents apart.
- `Frames` holds the DataFrame, as a sequence of records.
- `Versions` holds the version-number parsing, the allocator and the keep-last-N selection.
- `Sorting` holds a stable insertion sort used where the source sorts.

The clock, the date, failures of a file write or of a database write, and the order in which a directory is listed are parameters of the operations. The payment-method lookup is the exception: it never fails in the model. Everything is proved for every value they take.

Code that mutates state is modelled as classes with `modifies` clauses. These are the consumers, the warehouse connection, the retention manager and the feed manager. Their loops carry invariants, and each method's `ensures` ties its new state to a specification function. The properties are proved about those functions as lemmas.

## Model

| member | source | states |
|---|---|---|
| LakeConfig.ParseStorageMode | data_lake_config.py:10-14 | `StorageMode(s)` succeeds exactly for "append", "overwrite", "ignore", and the member found has `s` as its value |
| LakeConfig.ParseFeedType | data_lake_config.py:17-20 | `FeedType(s)` succeeds exactly for "stream" and "table", and the member found has `s` as its value |
| LakeConfig.ParsePartitioning | data_lake_config.py:23-26 | `PartitioningType(s)` succeeds exactly for "date" and "version", and the member found has `s` as its value |
| LakeConfig.EnumRoundTrips | data_lake_config.py:10-26 | every enum member is found again from its value |
| LakeConfig.FeedRootsDistinct | data_lake_config.py:33-34 | a stream's root is never a table's root, and distinct names give distinct roots (`get_stream_path` and `get_table_path` at lines 131-138) |
| LakeConfig.DatePartitionPath | data_lake_config.py:141-143 | the date partition is exactly three levels below the base path |
| LakeConfig.VersionPartitionPath | data_lake_config.py:146-148 | the version partition is exactly one level below the base path |
| LakeConfig.DateSegmentsRoundTrip | data_lake_config.py:141-143 | each date segment starts with its `year=`/`month=`/`day=` key, and splitting it at `=` and parsing gives back the number it was built from, for every integer |
| LakeConfig.SegmentWidths | data_lake_config.py:141-148 | month and day are written with at least two digits, single digits zero-padded; the year and the version are not padded |
| LakeConfig.VersionSegmentRoundTrip | data_lake_config.py:146-148 | a version segment starts with `version=v`, and both readers (removing `version=v`, or splitting at `=v`) give back its number |
| LakeConfig.GlobbedNamesSplit | metadata_utils.py:109-134 | every name the `year=*`, `month=*`, `day=*` and `version=v*` globs keep has a second field at its separator, so reading it can raise ValueError but never IndexError |
| LakeConfig.DatePartitionInjective | data_lake_config.py:141-143 | distinct dates give distinct partition paths |
| LakeConfig.VersionPartitionInjective | data_lake_config.py:146-148 | distinct versions give distinct partition paths |
| KafkaConfig.GetAllTopics | kafka_config.py:127-136 | the enabled stream topics in declaration order, then the enabled table topics in declaration order |
| KafkaConfig.EnabledTopicsMembers | kafka_config.py:127-136 | a topic is listed exactly when an enabled entry carries it |
| KafkaConfig.GetTopicConfig | kafka_config.py:139-151 | the result is the first entry for the topic, searching the streams before the tables |
| KafkaConfig.FindTopicFirstMatch | kafka_config.py:139-151 | the lookup gives None exactly when no entry has the topic; otherwise it gives an entry that has it, and no earlier entry does |
| KafkaConfig.GetTopicsForDestination | kafka_config.py:154-169 | the enabled streams routed to the destination or to "both", then the tables routed the same way, in order |
| KafkaConfig.RoutedTopicsMembers | kafka_config.py:154-169 | a topic is routed to a destination exactly when an enabled entry for that destination or for "both" carries it |
| KafkaConfig.DestinationTopicsWithinAll | kafka_config.py:127-169 | what `get_topics_for_destination(d)` returns is a subsequence of what `get_all_topics()` returns |
| KafkaConfig.ShippedRouting | kafka_config.py:20-96 | with the shipped table, "data_lake" routes the four stream topics and then the four table topics, "data_warehouse" routes the four table topics, and all eight are enabled |
| PyText.NatToStr | data_lake_config.py:143 | the decimal text of a number is non-empty, all digits, and one character long exactly for numbers below ten |
| PyText.IntToStrRoundTrip | data_lake_config.py:148 | `int(str(i)) == i` for every integer, the text `int()` reads back from an f-string |
| PyText.Pad2RoundTrip | data_lake_config.py:143 | `f"{i:02d}"` has at least two characters, `int()` reads back `i`, and it equals `str(i)` from ten on and for negatives |
| PyText.NumbersLackSeparators | data_lake_config.py:143-148 | no number's text holds `=` or `v`, so the segment separators cannot occur inside it |
| PyText.Split | data_retention_manager.py:109 | `str.split` always yields at least one field |
| PyText.SplitAround | data_retention_manager.py:109-115 | `(p + sep + t).split(sep) == [p, t]` when neither part holds the separator's first character |
| PyText.SplitAfterKey | metadata_utils.py:110-134 | a name that starts with a key and the separator, the key lacking the separator's first character, splits into at least two fields, so `split(sep)[1]` exists |
| PyText.StrLtTotal | metadata_utils.py:97-99 | string order, as `sorted` compares `last_export` values, is total |
| PyText.StrLtTransitive | metadata_utils.py:97-99 | string order is transitive |
| Calendar.YearLength | data_retention_manager.py:117-118 | a year of `datetime(year, month, day)` has 366 days when leap and 365 otherwise |
| Calendar.OrdinalAscends | data_retention_manager.py:117-120 | an earlier valid date has a smaller day number |
| Calendar.MidnightOrder | data_retention_manager.py:117-120 | comparing midnights of valid dates as `partition_date < cutoff_date` does agrees with calendar order, both ways |
| Sorting.SortBy | metadata_utils.py:97-99 | `sorted` returns a permutation of its input |
| Sorting.SortBySorted | metadata_utils.py:97-99 | `sorted` under a total preorder returns an ordered sequence |
| Sorting.InsertKeepsSorted | export_to_data_lake.py:254 | inserting into an ordered sequence keeps it ordered, the step of the sorts of version lists |
| Lake.ChildrenMembers | data_retention_manager.py:108-114 | a name is a child of a directory exactly when the directory holds a sub-directory of that name |
| Lake.GlobMembers | kafka_consumer_datalake.py:211-212 | `glob(prefix + "*")` lists exactly the sub-directories whose names start with the prefix |
| Lake.PruneEffect | data_retention_manager.py:130 | after `shutil.rmtree` of some roots, a directory or manifest remains exactly when it was there and lies under none of them, with its contents unchanged |
| Lake.PruneNothing | data_retention_manager.py:126-131 | removing no trees changes nothing and counts no file |
| Lake.MkDirs | kafka_consumer_datalake.py:153 | `mkdir(parents=True, exist_ok=True)` leaves the directory existing and touches no manifest |
| Lake.MkDirsEffect | kafka_consumer_datalake.py:153 | after `mkdir(parents=True)` every ancestor of the path exists, existing directories keep their files, and no other directory appears |
| Lake.WriteFile | kafka_consumer_datalake.py:156-168 | a file write adds its name to an existing directory and creates or removes no directory |
| Lake.WriteFileEffect | kafka_consumer_datalake.py:156-168 | after a write the directory lists exactly its old files and the new name; every other directory is untouched |
| Lake.Without | export_to_data_lake.py:263-264 | a file listing after unlinks holds exactly the names not unlinked |
| Lake.WithoutTwice | export_to_data_lake.py:263-264 | unlinking two sets of names one after another is unlinking their union |
| Lake.WithoutNothing | export_to_data_lake.py:263-264 | unlinking no name keeps the listing |
| Lake.Unlink | export_to_data_lake.py:263-264 | `unlink` never removes a directory |
| Lake.UnlinkEffect | export_to_data_lake.py:263-264 | `unlink` of some entries of a directory removes exactly the files and manifest of those names and changes no other directory or manifest |
| Lake.UnlinkTwice | export_to_data_lake.py:263-264 | unlinking entries batch after batch is unlinking all of them at once |
| Lake.UnlinkNothing | export_to_data_lake.py:263-264 | unlinking nothing changes nothing |
| Lake.UnlinkKeepsChildren | export_to_data_lake.py:263-264 | `unlink` never removes a sub-directory |
| Lake.PruneAfterUnlink | export_to_data_lake.py:263-265 | unlinking a directory's files and then `rmdir` leaves the tree `rmtree` of it would |
| Lake.PruneTwice | data_retention_manager.py:126-131 | removing trees one after another is removing all of them at once |
| Lake.SameDepthDisjoint | data_retention_manager.py:126-131 | two partitions of the same depth never contain each other's files |
| Lake.PruneKeepsOthers | data_retention_manager.py:126-131 | removing other partitions of the same depth leaves a partition's parquet files as they were |
| Lake.ParquetFilesAddUp | data_retention_manager.py:127-136 | the parquet files of disjoint partitions add up, so the running `files_deleted` is their total |
| Lake.ChildrenAfterPrune | data_retention_manager.py:108-131 | removing day directories deeper down leaves the listing of an upper directory unchanged |
| Lake.DeleteTree | data_retention_manager.py:126-136 | one `rglob("*.parquet")` count and `rmtree` (skipped in a dry run): the count is the partition's parquet files and the tree is gone |
| Lake.DeleteTrees | data_retention_manager.py:173-189 | deleting a list of distinct same-depth partitions removes all of them (nothing in a dry run) and counts all their parquet files |
| Lake.ChildPaths | data_retention_manager.py:157-166 | the child paths of distinct names are distinct, of one depth, and cover exactly the named sub-directories |
| Lake.PruneSparesSibling | kafka_consumer_datalake.py:217-220 | deleting some version directories leaves a sibling that is not among them as it was |
| Lake.PruneSparesNephews | export_to_data_lake.py:262-265 | deleting some version directories leaves the sub-directories of a sibling that is not among them |
| Lake.ListingDistinct | data_retention_manager.py:108 | a directory listing holds each name once |
| Lake.SomeNameKept | kafka_consumer_datalake.py:216-217 | deleting fewer names than a listing has leaves one of them |
| Lake.ListDir | data_retention_manager.py:108 | `glob` enumerates each entry of the directory exactly once, in some order |
| Frames.EmptyIffAllRecordsEmpty | kafka_consumer_datalake.py:122-126 | `pd.DataFrame(messages).empty` holds exactly when there are no messages or every message has no field |
| Ingest.AppendIsLocal | kafka_consumer_datalake.py:94 | appending a message puts it at the end of its own topic's buffer and changes no other topic's buffer |
| Ingest.ThirdRecordFlushes | kafka_consumer_datalake.py:97-100 | with a batch size of 3 and no timeout, the flush fires exactly from the third buffered record on |
| Versions.MaxOf | kafka_consumer_datalake.py:185 | `max` of a non-empty list is one of its elements and no element exceeds it |
| Versions.NextVersion | kafka_consumer_datalake.py:177-185 | the allocated version is above every version that parses and one more than the highest of them, or 1 when none parses; names that do not parse are skipped |
| Versions.NextVersionUnique | kafka_consumer_datalake.py:185 | at most one number satisfies the allocation rule |
| Versions.NextVersionIsFresh | kafka_consumer_datalake.py:185-188 | the directory of the allocated version does not exist yet |
| Versions.NumberLeIsPreorder | kafka_consumer_datalake.py:211-214 | ordering by the parsed version number is a total preorder, the sort key of the cleanups |
| Versions.RankGeIsPreorder | export_to_data_lake.py:254 | the descending order the exporter sorts versions in is a total preorder |
| Versions.RankIsStrict | export_to_data_lake.py:254 | two distinct version names never rank equal |
| Versions.SortAscending | kafka_consumer_datalake.py:211-214 | the sort raises ValueError exactly when some `version=v*` name does not parse; otherwise it is a permutation of the listing, ascending by number |
| Versions.PrefixDeletesLowest | kafka_consumer_datalake.py:216-217 | a prefix of an ascending listing holds only the lowest versions |
| Versions.SuffixDeletesLowest | export_to_data_lake.py:259-260 | a suffix of a descending listing holds only the lowest versions |
| Versions.HighestVersionKept | kafka_consumer_datalake.py:216-220 | with a retention of at least one, the highest version is never deleted by the ascending cleanup |
| Versions.HighestVersionKeptDescending | export_to_data_lake.py:259-263 | with a retention of at least one, the highest version is never deleted by the descending cleanup |
| Versions.SliceIndex | data_retention_manager.py:166 | Python's normalisation of a slice bound never leaves the list |
| Versions.DropCountsCompared | data_retention_manager.py:162-166 | `version_dirs[:-r]` (applied only above `r`) and `versions[r:]` delete the same number for positive and negative `r`; at 0 the first deletes nothing and the second everything; nine versions with retention 7 lose two |
| DataLakeConsumer.AfterWrite | kafka_consumer_datalake.py:128-140 | a flush ends written exactly when the write raised nothing, and otherwise fails with the write's exception |
| DataLakeConsumer.WriteStreamData | kafka_consumer_datalake.py:142-169 | today's `year/month/day` partition of the topic exists, the `data_<stamp>.parquet` file is in it unless the write fails with OSError, and no manifest changes |
| DataLakeConsumer.StreamWriteIsLocal | kafka_consumer_datalake.py:142-169 | a stream write changes no other directory, creates only ancestors of the partition, and adds only the new file to it |
| DataLakeConsumer.CleanupOldVersions | kafka_consumer_datalake.py:210-220 | a `version=v*` name that does not parse raises ValueError and deletes nothing; otherwise exactly the lowest versions beyond the kept count are removed with their subtrees |
| DataLakeConsumer.WriteTableData | kafka_consumer_datalake.py:171-208 | the table directory, then the directory of the allocated version, then (unless the write fails) the snapshot file, then the cleanup keeping seven versions |
| DataLakeConsumer.NewVersionListed | kafka_consumer_datalake.py:187-188 | creating the new version's directory adds exactly its segment to the version listing |
| DataLakeConsumer.SnapshotSurvivesCleanup | kafka_consumer_datalake.py:171-208 | after a table write and cleanup that raise nothing, the new snapshot is still in its version directory |
| DataLakeConsumer.BadVersionNameFailsAfterWrite | kafka_consumer_datalake.py:128-140 | a `version=v*` directory whose suffix does not parse makes the cleanup raise ValueError after the snapshot is written, so the flush fails though the file is there |
| DataLakeConsumer.WriteBatch | kafka_consumer_datalake.py:131-134 | a "stream" entry writes to today's date partition; any other entry writes a new table version |
| DataLakeConsumer.Consumer.constructor | kafka_consumer_datalake.py:36-63 | the given topics, or those routed to "data_lake"; each starts with an empty buffer, flushed `now` |
| DataLakeConsumer.Consumer.FlushBuffer | kafka_consumer_datalake.py:105-140 | nothing for an empty buffer, an unknown topic or an empty frame; otherwise the write for the topic's feed type, and the buffer is emptied and its flush time reset exactly when the write returns |
| DataLakeConsumer.Consumer.ProcessMessage | kafka_consumer_datalake.py:89-103 | the record is appended to its topic's buffer, which is flushed exactly when it reaches the batch size or its last flush is at least the timeout ago |
| DataLakeConsumer.Consumer.FlushAllBuffers | kafka_consumer_datalake.py:222-225 | every subscribed topic is flushed in turn, each flush starting from the buffers, flush times and tree the previous one left; the final buffers and flush times are those the last flush left |
| DataLakeConsumer.FlushedInTurnStep | kafka_consumer_datalake.py:222-225 | the `j`-th flush of the sweep took the `j`-th state to the next one, emptying its buffer and resetting its flush time to `now` exactly when it wrote |
| WarehouseDb.ApplyAllOverrides | kafka_consumer_warehouse.py:214-222 | replaying upserts over a table is the table overridden by the rows the upserts alone produce: `ON DUPLICATE KEY UPDATE` replaces, never accumulates |
| WarehouseDb.UpsertsIdempotent | kafka_consumer_warehouse.py:214-222 | replaying the same upserts a second time changes nothing |
| WarehouseDb.UnnamedKeyKept | kafka_consumer_warehouse.py:214-222 | a row no upsert names is neither added nor changed |
| WarehouseDb.LastUpsertWins | sync_to_mysql.py:161-168 | after a batch a key holds exactly the values of its last upsert |
| WarehouseDb.Accepted | sync_to_mysql.py:129-135 | the number of statements the server accepts before its first rejection is at most the number sent |
| WarehouseDb.AcceptedIsFirstRejection | sync_to_mysql.py:129-135 | the accepted statements are those before the first rejected one, and the one after them is rejected |
| WarehouseDb.Trace | kafka_consumer_warehouse.py:203-250 | one event per executed statement |
| WarehouseDb.RunStatementsStep | kafka_consumer_warehouse.py:240-248 | executing statements stops at the first rejection with an error and otherwise goes on with the rest |
| WarehouseDb.RunStatementsEffect | kafka_consumer_warehouse.py:203-250 | executing a batch leaves the committed rows alone, adds the accepted prefix to the pending statements, and raises exactly when a statement is rejected |
| WarehouseDb.TraceHasOnlyRuns | kafka_consumer_warehouse.py:203-250 | the trace of executed statements lists them in order |
| WarehouseDb.Connection.Execute | kafka_consumer_warehouse.py:240-248 | `cursor.execute` adds the statement to the open transaction, or raises a database error when the server rejects it |
| WarehouseDb.Connection.Commit | kafka_consumer_warehouse.py:250 | `commit` applies the pending upserts to the committed tables, in order |
| WarehouseDb.Connection.Rollback | kafka_consumer_warehouse.py:172 | `rollback` drops the pending statements and keeps the committed tables |
| WarehouseDb.Connection.PaymentMethodId | kafka_consumer_warehouse.py:192-201 | the id of the payment method name in `dim_payment_methods`, None when there is none |
| Upserts.FactOf | kafka_consumer_warehouse.py:152-162 | exactly the four handled topic names have a fact table |
| Upserts.FactOfInjective | sync_to_mysql.py:291-296 | distinct handled names go to distinct fact tables |
| Upserts.UserRowsCount | kafka_consumer_warehouse.py:230-248 | a user fact batch executes two statements per row |
| Upserts.UserRow | kafka_consumer_warehouse.py:230-248 | each row of a user fact gives the `dim_users` upsert and then the fact upsert, both for the row's `user_id` |
| Upserts.UserBeforeFact | kafka_consumer_warehouse.py:230-248 | in the statements of a batch, row `j`'s user upsert comes right before its fact upsert, at positions `2j` and `2j+1` |
| Upserts.UserSuffix | kafka_consumer_warehouse.py:230-248 | for a user fact, the statements from row `j` on start right after the two statements of each earlier row |
| Upserts.FactsTagged | kafka_consumer_warehouse.py:70-71 | every fact statement carries the snapshot (date and version 1) and every other statement is a `dim_users` upsert of a user fact (lines 245-246) |
| Upserts.UnknownMethodsSkipped | kafka_consumer_warehouse.py:311-328 | the payment totals statements are exactly those of the rows whose method has a non-zero id, the others skipped |
| Upserts.ExchangeRateDefaultsToOne | kafka_consumer_warehouse.py:287 | without an `exchange_rate` column, the EUR fact stores 1.0 |
| Upserts.MissingUserFields | kafka_consumer_warehouse.py:230-237 | a user column absent from the frame reads as the default, one absent from the row only as None, and one present as its value |
| WarehouseDb.Connection.constructor | kafka_consumer_warehouse.py:75-82 | a new connection opens on the rows already in the warehouse, with nothing pending and no event yet |
| WarehouseConsumer.InsertCommitsOnce | kafka_consumer_warehouse.py:203-250 | an `insert_*` batch that raises nothing commits all its upserts at once, in order, with a single commit after the last row; one that raises leaves the committed tables as they were |
| WarehouseConsumer.FlushAllOrNothing | kafka_consumer_warehouse.py:130-172 | a flush leaves no open transaction; when it inserts, the batch is committed whole, when it fails it raised a database error, was rolled back and committed nothing; otherwise nothing was executed |
| WarehouseConsumer.RedeliveryHarmless | kafka_consumer_warehouse.py:214-222 | flushing the same buffered batch twice leaves the tables as one flush did, since duplicate keys replace |
| WarehouseConsumer.FlushEachEmptiesOrKeeps | kafka_consumer_warehouse.py:365-369 | after flushing every topic, each buffer is either emptied with its flush time reset or kept whole with its old flush time, and no transaction is open |
| WarehouseConsumer.Consumer.constructor | kafka_consumer_warehouse.py:30-71 | the given topics, or the enabled table topics routed to "data_warehouse" or "both"; each starts with an empty buffer flushed `now`; the snapshot is version 1 of today |
| WarehouseConsumer.Consumer.InsertRow | kafka_consumer_warehouse.py:230-248 | one loop iteration executes the row's user upsert and then its fact upsert (skipped for an unknown payment method), stopping at the first rejection |
| WarehouseConsumer.Consumer.InsertRows | kafka_consumer_warehouse.py:203-363 | an `insert_*` method executes the statements of every row in order and commits once at the end; a rejection raises before the commit |
| WarehouseConsumer.Consumer.FlushBuffer | kafka_consumer_warehouse.py:130-172 | nothing for an empty buffer, a topic without configuration, an empty frame or an unhandled topic; otherwise the topic's insert, the buffer emptied only when it returns, and a rollback when it raises |
| WarehouseConsumer.Consumer.ProcessMessage | kafka_consumer_warehouse.py:114-128 | the record is appended to its topic's buffer, which is flushed exactly when it reaches the batch size or its last flush is at least the timeout ago |
| WarehouseConsumer.Consumer.FlushAllBuffers | kafka_consumer_warehouse.py:365-369 | every subscribed topic is flushed in turn, from the state the previous flush left |
| SyncToMysql.CommitTrace | sync_to_mysql.py:129-135 | each statement committed on its own leaves two events, its execution and its commit |
| SyncToMysql.CommitEachStep | sync_to_mysql.py:129-135 | per-statement commits stop at the first rejected statement and otherwise go on with the rest |
| SyncToMysql.CommitOneAccepted | sync_to_mysql.py:129-131 | an accepted statement is applied to the committed tables at once |
| SyncToMysql.EarlierRowsStayCommitted | sync_to_mysql.py:129-135 | after a rejection the statements before it stay committed, the rejected one is rolled back, and the error is re-raised |
| SyncToMysql.TableNames | sync_to_mysql.py:275 | the tables synchronised are the configured table names, in order |
| SyncToMysql.SyncTableEffect | sync_to_mysql.py:288-434 | an unknown name only logs; a failed fetch raises; an empty result writes nothing; otherwise the rows' upserts are committed one by one |
| SyncToMysql.SyncTableClosesTransaction | sync_to_mysql.py:288-301 | a table sync leaves no open transaction and only adds events |
| SyncToMysql.SyncAllClosesTransactions | sync_to_mysql.py:267-286 | syncing all tables leaves no open transaction and only adds events |
| SyncToMysql.MySqlWarehouse.constructor | sync_to_mysql.py:92-96 | the warehouse wraps its connection |
| SyncToMysql.MySqlWarehouse.Write | sync_to_mysql.py:116-135 | each upsert is executed and committed on its own; on a rejection it is rolled back and the error re-raised |
| SyncToMysql.Syncer.constructor | sync_to_mysql.py:260-264 | every fact row will be tagged with today's date and version 1 |
| SyncToMysql.Syncer.SyncRow | sync_to_mysql.py:315-339 | one loop iteration commits the row's user upsert and then its fact upsert (skipped for an unknown payment method) one by one, stopping at the first rejection |
| SyncToMysql.Syncer.SyncRows | sync_to_mysql.py:315-339 | a `sync_*` loop commits the statements of every row in order, each on its own |
| SyncToMysql.Syncer.SyncTable | sync_to_mysql.py:288-301 | `sync_table` runs the one handler registered for the name, and nothing for another name |
| SyncToMysql.Syncer.SyncAllTables | sync_to_mysql.py:267-286 | the configured tables are synced in order, stopping at the first error, which is re-raised |
| Manifest.FirstPathMatch | export_to_data_lake.py:309-312 | the `next(...)` search returns an index in range whose entry has a path |
| Manifest.FirstPathMatchIsFirst | export_to_data_lake.py:309-312 | it finds the first entry for the path, all earlier ones readable and for other paths; it finds none exactly when every entry is readable and for another path; it raises at the first unreadable entry |
| Manifest.FirstPathMatchFinds | export_to_data_lake.py:309-312 | the search stops at the first entry for the path when all earlier entries are readable and for other paths |
| Manifest.FirstExport | export_to_data_lake.py:283-298 | a fresh manifest starts with `total_records` 0 and no partition, and after the first export it counts exactly the export's rows and holds exactly its partition |
| Manifest.TotalCountsEveryExport | export_to_data_lake.py:297-298 | each successful update adds exactly `len(df)` to `total_records` and stamps `last_export` |
| Manifest.UpsertReplaces | export_to_data_lake.py:314-320 | an existing entry for the path is updated in place with `records` the latest count, every other entry unchanged, paths still unique |
| Manifest.UpsertAppends | export_to_data_lake.py:314-322 | an entry for a new path is appended after all the others, paths still unique |
| Exporter.FindPartition | export_to_data_lake.py:309-312 | the loop behind `next(...)` finds what the first-match search specifies |
| Exporter.UpdateMetadata | export_to_data_lake.py:267-328 | the manifest is read or initialised, updated and written back at the feed's base directory, keyed by the partition's path relative to the base |
| Exporter.ManifestWriteIsLocal | export_to_data_lake.py:274-326 | a manifest update touches no directory and no other manifest, and a failed one changes nothing |
| Exporter.Candidates | export_to_data_lake.py:249-255 | the exporter's cleanup considers only version names that parse, a subset of the listing |
| Exporter.ParseableVersions | export_to_data_lake.py:249-255 | the listing loop collects each parseable version once and skips the others |
| Exporter.UnlinkEntries | export_to_data_lake.py:263-264 | the entries `glob` lists are unlinked in any order; it raises OSError exactly when some entry is a sub-directory, having unlinked only entries that are not, and unlinks every entry when it does not raise |
| Exporter.CleanupDescending | export_to_data_lake.py:247-265 | the parseable versions sorted descending, and everything from position `retention` on removed, up to the first victim holding a sub-directory: that one keeps its directory and loses only the entries listed before the sub-directory, and OSError is raised |
| Exporter.RemoveVersionsStopsAtSubdir | export_to_data_lake.py:262-265 | when a victim holds a sub-directory the cleanup raises OSError, and some such victim keeps its directory with no file it did not have before |
| Exporter.FirstVictimPruned | export_to_data_lake.py:262-265 | removing one victim leaves every other victim, its files and its sub-directories in place |
| Exporter.ChildrenShrink | export_to_data_lake.py:262-265 | removing trees never adds a sub-directory |
| Exporter.RemoveVersionsEffect | export_to_data_lake.py:262-265 | unlinking the files of distinct version directories without sub-directories, then each directory, removes exactly those trees and raises nothing |
| Exporter.TailRemovable | export_to_data_lake.py:262-265 | every tail of the sorted versions can be removed without error when none has a sub-directory |
| Exporter.DescendingCleanupKeepsHighest | export_to_data_lake.py:247-265 | the cleanup raises nothing and deletes exactly the lowest versions beyond the retention, all of them when retention is 0 |
| Exporter.SortedTailIsLowest | export_to_data_lake.py:257-263 | `versions[retention:]` of the descending order holds only the lowest versions, as many as the slice says |
| Exporter.UnparseableVersionsKept | export_to_data_lake.py:249-255 | a `version=v*` directory whose suffix does not parse is never touched |
| Exporter.RemoveVersionsSpares | export_to_data_lake.py:262-265 | a directory not among the victims is left as it was, with all its files, even when the cleanup raises after a partial unlink |
| Exporter.StreamExportRecorded | export_to_data_lake.py:105-158 | a non-empty stream export whose write succeeds leaves the data file in the day's partition, and on the feed's first export a manifest counting exactly its rows in exactly that partition |
| Exporter.ExportStream | export_to_data_lake.py:105-158 | nothing for a disabled feed or an empty result; a failed query raises; otherwise the file is written into the partition of `date` and the manifest records the export |
| Exporter.WriteSnapshot | export_to_data_lake.py:184-206 | the version directory, the snapshot file, the manifest update, then the cleanup with `retention_versions` defaulting to 7 |
| Exporter.NewSnapshotSurvives | export_to_data_lake.py:177-206 | with a retention of at least one, the snapshot just written to the next version survives the cleanup |
| Exporter.HighestVersionSurvives | export_to_data_lake.py:247-265 | with a retention of at least one, the highest parseable version is never removed |
| Exporter.ExportTable | export_to_data_lake.py:160-212 | nothing for a disabled feed or an empty result; a failed query raises; otherwise the snapshot goes to the given version unchanged, or to the next one after the versions on disk |
| Retention.UnionInIsUnionOf | data_retention_manager.py:108-115 | the paths gathered along a listing are those picked from the set of names it lists, whatever its order |
| Retention.AllOkIff | data_retention_manager.py:108-115 | a listing is read without an error exactly when every name it lists parses |
| Retention.DayPickMember | data_retention_manager.py:114-121 | a day directory is picked only when its name reads as a day and its date is before the cutoff |
| Retention.ExpiredFits | data_retention_manager.py:117-121 | a date that can expire has year, month and day within a C int, so the OverflowError never stops the sweep at a day it would remove |
| Retention.SweepDay | data_retention_manager.py:114-136 | one `day=*` directory: ValueError exactly when its name is not an integer, otherwise OverflowError exactly when its year, month or day lies outside a C int (`datetime`'s argument conversion, not caught by the `except`); otherwise it is removed (kept in a dry run) when expired, and its Parquet files are counted |
| Retention.DayTurn | data_retention_manager.py:114-136 | one turn of the day loop raises ValueError at a non-integer name and OverflowError at numbers outside a C int, and only then; otherwise it extends the swept set by that day's pick and the count by its Parquet files |
| Retention.SweepDays | data_retention_manager.py:114-139 | the day loop raises (ValueError or OverflowError) exactly when some day name does not parse or some day's numbers do not fit a C int; without an error it removes exactly the expired days of the month and counts their files |
| Retention.SweepMonth | data_retention_manager.py:111-139 | one `month=*` directory: ValueError when its name does not parse; it raises exactly when its name or a day name does not parse or a day's numbers do not fit a C int; otherwise its expired days swept |
| Retention.MonthTurn | data_retention_manager.py:111-139 | one turn of the month loop raises (ValueError or OverflowError) exactly when that month's name or a day name below it does not parse or a day's numbers do not fit a C int; otherwise it extends the swept set by that month's expired days |
| Retention.SweepMonths | data_retention_manager.py:111-139 | the month loop raises exactly when some month or day name does not parse or some day's numbers do not fit a C int; without an error it sweeps exactly the expired days of the year |
| Retention.SweepYear | data_retention_manager.py:108-139 | one `year=*` directory: ValueError when its name does not parse; it raises exactly when a year, month or day name does not parse or a day's numbers do not fit a C int; otherwise its expired days swept |
| Retention.YearTurn | data_retention_manager.py:108-139 | one turn of the year loop raises (ValueError or OverflowError) exactly when a name under that year does not parse or a day's numbers do not fit a C int; otherwise it extends the swept set by that year's expired days |
| Retention.SweepYears | data_retention_manager.py:108-141 | the whole sweep raises (ValueError or OverflowError) exactly when some name under the stream does not parse or some day's year, month or day does not fit a C int, removes only selected day directories (all of them without an error, none in a dry run) and counts exactly their Parquet files |
| Retention.Cutoff | data_retention_manager.py:101 | the cutoff is `now` less the retention in days, and exists exactly when it is a representable date-time |
| Retention.CleanupStreamData | data_retention_manager.py:88-141 | a missing stream directory yields nothing; a missing or overflowing retention raises; otherwise the expired day partitions are removed (none in a dry run), a ValueError stops at a non-numeric name and an OverflowError at a day whose numbers do not fit a C int, and the count is their Parquet files |
| Retention.SelectedAreExpiredDays | data_retention_manager.py:108-121 | every selected path is a `year=/month=/day=` directory three levels under the stream whose date is before the cutoff |
| Retention.ExpiredDateSelected | data_retention_manager.py:108-121 | every existing date partition before the cutoff is selected |
| Retention.DatePartitionSelected | data_retention_manager.py:108-121 | an existing date partition is selected if and only if its date is before the cutoff |
| Retention.RemovedOnlyExpiredDays | data_retention_manager.py:128-129 | every directory the sweep removes lies inside a selected day partition |
| Retention.ExpiredDaysGone | data_retention_manager.py:119-129 | after a full sweep an existing date partition is gone if and only if its date is before the cutoff |
| Retention.YearAndMonthDirectoriesKept | data_retention_manager.py:108-129 | the year and month directories, and everything outside the stream, are kept with their contents |
| Retention.CleanupTableData | data_retention_manager.py:143-191 | a missing table directory yields nothing; a non-numeric version name raises ValueError before any removal; otherwise the versions beyond the newest `retention_versions` in numeric order are removed (none in a dry run) and their Parquet files counted |
| Retention.TableCleanupKeepsNewest | data_retention_manager.py:157-166 | the highest-numbered version survives a cleanup that keeps at least one version |
| Retention.TableCleanupCount | data_retention_manager.py:162-166 | the cleanup deletes `n - retention_versions` versions when there are more than that many, and none otherwise |
| Retention.ActivePolicies | data_retention_manager.py:67-86 | the policy query returns no more rows than the table holds |
| Retention.ActivePoliciesMembers | data_retention_manager.py:79 | a policy is returned if and only if it is in the table, active and marked for automatic deletion |
| Retention.Logged | data_retention_manager.py:193-217 | logging a deletion keeps the policies and earlier log entries and appends at most one entry |
| Retention.StampRows | data_retention_manager.py:219-234 | stamping sets `last_cleanup_at` to `now` on exactly the rows with the policy id and changes nothing else |
| Retention.Stamped | data_retention_manager.py:219-234 | stamping a policy leaves the deletion log unchanged |
| Retention.AfterPolicyLog | data_retention_manager.py:273-275 | after a policy at most one entry is appended, only when files were deleted, and it names the feed, its type, its folder and the count |
| Retention.DryRunPolicyKeepsLake | data_retention_manager.py:88-191 | in a dry run a policy's cleanup removes nothing |
| Retention.DryRunChangesNothing | data_retention_manager.py:196-198 | a dry-run pass leaves both the lake and the audit tables as they were |
| Retention.LoggedEntriesCountFiles | data_retention_manager.py:253-278 | a pass only appends to the deletion log, and every entry it appends counts deleted files of one of the policies processed |
| Retention.EveryDeletionLogged | data_retention_manager.py:253-278 | a pass that is not a dry run and whose writes all succeed logs exactly one entry per policy that deleted files, in policy order |
| Retention.SweptInTurnExtend | data_retention_manager.py:253-278 | one more policy processed extends the run by its cleanup and audit writes and adds its files to the total |
| Retention.RetentionManager.constructor | data_retention_manager.py:33-46 | a manager starts with the given dry-run flag and audit tables |
| Retention.RetentionManager.GetRetentionPolicies | data_retention_manager.py:67-86 | the query result is the active, auto-delete policies in table order |
| Retention.RetentionManager.LogDeletion | data_retention_manager.py:193-217 | the audit state becomes the one `Logged` describes: nothing in a dry run, one `retention` entry unless the insert fails |
| Retention.RetentionManager.UpdateLastCleanup | data_retention_manager.py:219-234 | the audit state becomes the one `Stamped` describes: nothing in a dry run, the policy's `last_cleanup_at` set unless the update fails |
| Retention.RetentionManager.CleanupPolicy | data_retention_manager.py:256-271 | a stream policy runs the stream cleanup, a table policy without a version count is skipped, any other the table cleanup |
| Retention.RetentionManager.SweepPolicy | data_retention_manager.py:247-270 | one turn of the policy loop: the policy's cleanup as `PolicySwept` describes; if it raises the audit tables are untouched, otherwise the log entry and the stamp follow exactly when files were deleted |
| Retention.RetentionManager.RunCleanup | data_retention_manager.py:236-285 | the policies are processed in turn, each cleanup followed by its log and stamp when it deleted files; the total is the sum of the counts, and an exception stops the pass at the policy that raised |
| Metadata.ReadMetadata | metadata_utils.py:19-27 | a feed's metadata is found exactly when its `_metadata.json` exists, and it is that file's document |
| Metadata.ReadsBackExport | metadata_utils.py:19-27 | after a successful manifest write, reading the feed's metadata returns the updated manifest |
| Metadata.ListsSize | metadata_utils.py:30-53 | a listing of the feeds with metadata has one entry per feed |
| Metadata.ListFeeds | metadata_utils.py:38-51 | the listing of one directory holds exactly the sub-directories that have metadata, each once, paired with its document |
| Metadata.ListAllMetadata | metadata_utils.py:30-53 | the catalog lists exactly the streams and the tables that have metadata |
| Metadata.ExportedStreamListed | metadata_utils.py:38-43 | a stream whose manifest was written appears in the catalog with that manifest |
| Metadata.AddGroup | metadata_utils.py:69-93 | a group raises TypeError exactly when some manifest's counts cannot be added; otherwise records, size and partitions grow by the group's totals and its `last_export` entries are appended in listing order |
| Metadata.LaterOrSameOrders | metadata_utils.py:96-99 | the descending order on `last_export` is a total preorder |
| Metadata.SortExports | metadata_utils.py:96-99 | the sort raises TypeError exactly when there are two or more entries and some `last_export` is not a string; otherwise the result is the same entries, latest export first |
| Metadata.GetStatistics | metadata_utils.py:56-101 | the feed counts are the numbers of streams and tables with metadata, the three totals are the sums over them, and the exports are all of them sorted latest first; TypeError exactly when a count cannot be added or the sort raises |
| Metadata.TotalWithout | metadata_utils.py:70-86 | a total is the total of the other entries plus the entry's own contribution |
| Metadata.ListsWithout | metadata_utils.py:39-51 | removing one entry from a listing lists the catalog without that feed |
| Metadata.TotalIgnoresOrder | metadata_utils.py:70-86 | the totals do not depend on the order in which the directory is listed |
| Metadata.DayPartitions | metadata_utils.py:115-130 | one month's days are read exactly when every day name parses, and a name that does not raises ValueError; on success there is one entry per `day=*` directory of the month and no other, each directory once, with its day, relative path and direct Parquet count |
| Metadata.MonthPartitions | metadata_utils.py:112-130 | one year's months are read exactly when every month and day name parses (ValueError otherwise); on success there is one entry per `month=*/day=*` directory of the year, each directory once, with its month, day, path and count |
| Metadata.DatePartitions | metadata_utils.py:109-130 | the date scan succeeds exactly when every year, month and day name parses, and raises ValueError otherwise (never IndexError); on success there is one entry per day directory three levels down, each directory once, and the entries are exactly the date partitions |
| Metadata.VersionPartitions | metadata_utils.py:133-146 | the version scan succeeds exactly when every `version=v*` name parses (ValueError otherwise); on success there is one entry per version directory, each directory once, with its number, name and count |
| Metadata.GetPartitionInfo | metadata_utils.py:104-148 | one entry per day directory and one per version directory, each directory once and no other, every date entry before every version entry; an unparsable name raises ValueError |
| Metadata.DayDirsListed | metadata_utils.py:115 | a listing of a month's `day=*` glob names each day directory of that month exactly once |
| Metadata.VersionDirsListed | metadata_utils.py:133 | a listing of the `version=v*` glob names each version directory exactly once |
| Metadata.DaysFromDirs | metadata_utils.py:115-130 | entries in step with a month's day directories are exactly that month's day partitions |
| Metadata.MonthsFromDirs | metadata_utils.py:112-130 | entries in step with a year's day directories are exactly that year's day partitions |
| Metadata.DatesFromDirs | metadata_utils.py:109-130 | entries in step with the day directories under the base are exactly its date partitions |
| Metadata.VersionsFromDirs | metadata_utils.py:133-146 | entries in step with the version directories are exactly the version partitions |
| Metadata.DateEntryListed | metadata_utils.py:109-130 | the entry reported for a day directory carries the year, month and day read from its three names |
| Metadata.DatePartitionListed | metadata_utils.py:109-130 | every existing day partition is reported with its date, relative path and Parquet count |
| Metadata.VersionPartitionListed | metadata_utils.py:133-146 | every existing version partition is reported with its number, relative path and Parquet count |
| Feeds.PartitionColumnsNameSegments | manage_feeds.py:141-147 | the declared partition columns are the names of the path segments the exporter writes: `year`, `month`, `day` for date partitioning and `version` for version partitioning |
| Feeds.Added | manage_feeds.py:65-139 | a feed is added exactly when the request is valid and no active feed has the name; on success the registry gains that one name, enabled with the requested retention, every other feed and the archive are unchanged and the feed's data directory exists; on failure nothing changes |
| Feeds.NewFeedColumns | manage_feeds.py:114-116 | the new configuration declares the partition columns of its partitioning |
| Feeds.AddedOnce | manage_feeds.py:101-104 | adding the same feed a second time is refused and changes nothing |
| Feeds.ApplyUpdates | manage_feeds.py:162-166 | applying the keyword arguments never adds or removes a configuration key |
| Feeds.UpdatesPerKey | manage_feeds.py:162-166 | each existing key ends with the last non-None value supplied for it, or keeps its value |
| Feeds.SuppliedPerKey | manage_feeds.py:162-168 | the feed counts as updated exactly when some existing key received a non-None value |
| Feeds.Updated | manage_feeds.py:149-180 | an update succeeds exactly when the feed is active and some existing key is supplied; on failure nothing changes; the archive, the lake, the set of feeds and every other feed are unchanged |
| Feeds.ToggleSetsFlag | manage_feeds.py:182-188 | enabling or disabling succeeds exactly when the configuration has `enabled`, and then sets it and stamps `updated_at` |
| Feeds.AddedFeedCanBeDisabled | manage_feeds.py:107-122 | a freshly added feed can be disabled, after which it is not enabled |
| Feeds.Archived | manage_feeds.py:190-213 | archiving succeeds exactly when the feed is active; it then leaves the active set, enters the archive disabled, and no other feed changes; on failure nothing changes |
| Feeds.Restored | manage_feeds.py:215-240 | restoring succeeds exactly when the feed is archived; it then returns to the active set enabled and without `archived_at`, and no other feed changes; on failure nothing changes |
| Feeds.ArchiveRestoreRoundTrip | manage_feeds.py:190-240 | archiving then restoring an active feed gives back the same set of feeds and the same configuration except for `enabled` (true), `restored_at` added and `archived_at` removed |
| Feeds.Deleted | manage_feeds.py:242-263 | deletion happens exactly when confirmed and the feed is active or archived; the active copy is removed in preference to the archived one, and nothing else changes |
| Feeds.SyncAddsMissing | manage_feeds.py:265-305 | syncing a group adds exactly the configured feeds that were not active, keeps every existing feed's configuration, and leaves the archive alone |
| Feeds.SyncCountsMissing | manage_feeds.py:265-305 | the synced count of a group is the number of configured feeds that were missing |
| Feeds.ConfiguredNamesDistinct | data_lake_config.py:46-115 | the configured stream and table names (dictionary keys) are distinct within and across the two groups |
| Feeds.MissingAfterSync | manage_feeds.py:285-299 | adding the streams does not change which tables are missing |
| Feeds.FeedManager.constructor | manage_feeds.py:22-25 | a manager starts from the given registry |
| Feeds.FeedManager.AddFeed | manage_feeds.py:65-139 | the registry and result become those `Added` describes |
| Feeds.FeedManager.UpdateFeed | manage_feeds.py:149-180 | the registry and result become those `Updated` describes, through the loop over the keyword arguments |
| Feeds.FeedManager.EnableFeed | manage_feeds.py:182-184 | enabling is the update with `enabled=True` |
| Feeds.FeedManager.DisableFeed | manage_feeds.py:186-188 | disabling is the update with `enabled=False` |
| Feeds.FeedManager.ArchiveFeed | manage_feeds.py:190-213 | the registry and result become those `Archived` describes |
| Feeds.FeedManager.RestoreFeed | manage_feeds.py:215-240 | the registry and result become those `Restored` describes |
| Feeds.FeedManager.DeleteFeed | manage_feeds.py:242-263 | the registry and result become those `Deleted` describes |
| Feeds.FeedManager.SyncGroup | manage_feeds.py:270-282 | one group's loop adds the configs in order, as `SyncedGroup` describes |
| Feeds.FeedManager.SyncFromConfig | manage_feeds.py:265-305 | the new registry is the stream group's sync followed by the table group's; the count is the number of configured streams and tables that were missing, the active feeds grow by exactly those, existing feeds and the archive are unchanged |

## Left out

- Logging and `print` output, `argparse` `main` functions, `ensure_directories`, `list_feeds`, `_display_feed`, `generate_report` formatting and `export_to_csv`: output only, no state the core reads.
- The `KsqlDBClient` HTTP clients (export_to_data_lake.py, sync_to_mysql.py): a query result is a parameter (a DataFrame as a sequence of records, or None for a failed query).
- Kafka `consume` loops, `KafkaConsumer` construction and offset auto-commit: the input is a sequence of `(topic, value)` messages handed to `process_message`.
- Parquet, pyarrow and pandas: a write adds one file name to its partition directory; file contents are not modelled.
- Sizes in MB: `size_mb`, `total_size_mb`, `partition_size` and `size_deleted` are floating-point and are not carried. Only file and record counts are. `total_size_mb` is summed in `GetStatistics` as a number read from the manifest.
- The wall clock: `datetime.now()` is an integer `now` (seconds) and, where an ISO text is written, a string parameter; the two `datetime.now()` calls in `add_feed` are modelled as one value. `CURRENT_TIMESTAMP` in `update_last_cleanup` is the same `now`.
- File names with one-second resolution may coincide for two flushes in the same second; the model keeps the write as adding the name, and no property claims stream files are distinct.
- Directory listings are read once per loop. Concurrent changes to the tree during a sweep are not modelled, and the listing order is an arbitrary permutation.
- `glob` is modelled as matching sub-directories only; a regular file named like `year=2024` is not matched.
- `shutil.rmtree` failing with OSError is not modelled: removal always succeeds. The `except (ValueError, OSError)` in `cleanup_stream_data` therefore only catches the ValueError of an impossible calendar date, which the model expresses by not selecting that day; the OverflowError `datetime` raises for a number outside a C int is not caught and is modelled.
- The order of the policy rows returned by the SQL query is taken as the table order; `ORDER BY` is absent in the source, so no other order is assumed.
- `json.load` of a manifest or feed file that is not a JSON object is not modelled: documents are maps from keys to JSON values.
- Retention.LoggedEntriesCountFiles: an audit write the database rejects is skipped (as the source logs and continues), so only inclusion of the entries is stated, not that every deletion is logged. `EveryDeletionLogged` states the full log when no write is rejected.
- PyText.ParseInt: reads only an optional sign followed by ASCII digits. Python's `int()` also strips surrounding whitespace, accepts single underscores between digits, and reads non-ASCII decimal digits. So a directory named `version=v 3`, `version=v1_0` or `year=２０２４` parses in the source but is skipped, or raises ValueError, in the model. This affects Versions.NextVersion, the sorts and cleanups of version directories, the retention sweep's date parsing and Metadata.GetPartitionInfo. The exporter and the consumers never write such names.
- WarehouseDb.RowKey: the table schemas are not part of the source, so each table's unique key is taken to be the columns that its `ON DUPLICATE KEY UPDATE` clause leaves alone, as follows:
  - `dim_users`: `user_id`;
  - both user transaction summaries: `user_id`, `transaction_type` and the snapshot;
  - `fact_payment_method_totals`: `payment_method_id`, `payment_method_name` and the snapshot;
  - `fact_product_purchase_counts`: `product_id`, `product_name`, `product_category` and the snapshot.

  With a narrower key, such as one without the names, a row whose name changed would overwrite the stored row and keep its old name, where the model adds a second row. WarehouseDb.UpsertsIdempotent, WarehouseDb.LastUpsertWins and WarehouseConsumer.RedeliveryHarmless are stated over these keys.
- WarehouseDb.Connection.PaymentMethodId: the lookup's SELECT never fails in the model. In the source, an `Error` from it is caught and yields None (kafka_consumer_warehouse.py:199-201, sync_to_mysql.py:145-147), which skips that payment row as if its method were unknown. The model skips a payment row only when its name is absent from `dim_payment_methods` or maps to id 0. The batches that Upserts.BatchUpserts, WarehouseConsumer.Consumer.InsertRows and SyncToMysql.Syncer.SyncTable state therefore do not cover a lookup that fails.
- Metadata.SortExports: the sort is taken to raise TypeError whenever two or more entries are sorted and one `last_export` is not a string. Two numbers, or two lists, would compare in Python; such manifests are not written by the exporter. The stability of Python's sort is not stated, only sortedness and permutation.
- Metadata.GetStatistics: inherits the TypeError approximation of `SortExports`.
- Feeds.FeedManager.SyncFromConfig: the source prints the synced count and returns None; the model returns the count so the property can be stated.
- Orchestrators (`kafka_consumer_orchestrator.py`, `beam_orchestrator.py`), the producer (`kafka_producer.py`), `test_setup.py` and `permissions_manager.py`: process supervision, synthetic load, environment checks and plain CRUD, outside the core.
- `sync_to_mysql.py` uses `json` without importing it inside its HTTP client; that client is not part of this model.
