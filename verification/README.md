# Verification of Obstor's stateful cores

This project models the parts of Obstor, an S3-compatible object store, whose correctness depends on
state: the per-node activity log with its segment files and distributed pagination, the streaming
bitrot format, bucket metadata on many nodes, the heal registry and its result queue, the encoding of
names in listings, and object-lock retention. `dafny verify dfyconfig.toml` checks everything.

## How the model is built

**Activity log.** `ActivitySteps` is a step system. Each step is one region of the source that holds
`mu`, or one storage call between two such regions, so appends come between any two steps of a flush,
writes and deletes fail at will, a crash may come anywhere, and each file is readable or not at the next
load. `ActivityInvariant` states what every step keeps, in two layers: names, prefixes and places of events,
which hold in every run, and sequence numbers. `ActivityKeeps`, `ActivityAppend` and `ActivityLoad` prove the
first layer step by step, `ActivityNumbers` the second; `ActivityRuns`, `ActivityRecovery`, `ActivityPacking`
and `ActivityOversize` hold the theorems about all runs. A history variable `known` maps each sequence number to
its event and to the one segment that may hold it, which turns statements about all segments into statements
about one. `ActivityLog` is the object with its ring array and fields; every method is proved to take steps of
the step system. `ActivityOrder`, `ActivityPages`, `ActivityLive`, `ActivityRing`, `ActivityCluster` and
`SegmentNames` cover the order of events, queries, merging, cursors over logs that stand still or change between
the requests, the ring and file names.

**Bitrot.** `Bitrot` has the writer, the reader and the verifier as objects and loops over bytes, and
`Encode` and `Payload` as the two directions of the format. The hash is any function with a 32-byte result.

**Bucket metadata.** `BucketTags` has the record, its parsing and the protocol-flag migration;
`BucketMetadata` the load with its two kinds of migration, as a function of what storage does;
`BucketCaches` the interleaving of updates and reloads on any number of nodes; `BucketDocuments` what each
document of the saved record holds; `BucketMetadataSys` the per-node object and the proof that its updates and
reloads are runs of those steps; `BucketConvergence` when all caches come to equal the saved record. The XML
and JSON libraries are parameters that read back what they wrote.

**Heal, encoding, retention.** `HealRegistry` and `HealResults` are step systems with objects that refine
them. `UrlEncode` proves the buffer-filling loops against a byte-wise encoding. `Retention` has the three
decisions as functions; a request reads the version, decides and writes in three steps, because no lock spans
them in the source, and requests interleave. A delete or expiry also says whether its look-ups told it of the
lock.

Four promises turned out to hold only under a condition, which is proved to be exact:

- A retention date is stored in whole seconds when it is changed, but with milliseconds when an object is
  uploaded, so requesting the same date again can move it back by a fraction of a second. And a request that
  has read the version before a period was stored or extended writes the old metadata back, or removes the
  version, afterwards. And deletes and expiries drop the error of the look-up of the bucket's object-lock
  configuration, so one that learns nothing of the lock goes ahead. Mode and date are kept if and only if none of
  the three can happen (`Retention.RetentionKept`, `Retention.HalfSecondLost`, `Retention.HoldTakesExtensionBack`,
  `Retention.DeleteOvertakesRetention`, `Retention.UnsightedRemoves`). For a legal hold, which has no date, only
  deletes count, and the condition is exact again (`Retention.HoldKept`).
- Where no configuration file of the old format is left that cannot be deleted, all caches equal the saved record
  once reloads are served if and only if no update puts protocol flags among the tags: the next reload rewrites
  such a record without the updating node being told (`BucketConvergence.ConvergesExactly`). Where one is left,
  one update of its document is enough for a run that ends with different records
  (`BucketConvergence.LeftoverDiverges`). Public tag updates refuse the reserved prefix
  (cmd/bucket-tagging.go:133-137), so they never do (`BucketConvergence.PublicTagsAreSafe`).
- A configuration file of the old format that cannot be deleted overwrites a later update at the next load
  (`BucketDocuments.UpdateSurvivesLoad`, `BucketDocuments.OthersSurviveLoad`, `BucketMetadata.LeftoverFileWins`).
- An oversized event uses a sequence number up without being stored. Numbers are unique in all runs of some
  events if and only if none of them is oversized, or none is small enough to share a segment
  (`ActivityOversize.UniqueExactly`).

## Model

| member | source | states |
|---|---|---|
| `ActivityRuns.NumbersUnique` | cmd/activity-store.go:190-236 | In every persistent state that runs of fitting events reach, two events with one number in the ring, in memory, in flight or in any file are the same event, and the next number is above all of them. |
| `ActivityRuns.SegmentShape` | cmd/activity-store.go:94-119 | In every such state each open, pending, in-flight and saved segment is a non-empty run of at most 1000 consecutive numbers from its name; all its texts and 64 bytes for each event are within 1 MiB. |
| `ActivityRuns.SegmentsDisjoint` | cmd/activity-store.go:200-232 | Segments with different names do not overlap and are ordered by name; two with one name are versions of one file, one a prefix of the other. |
| `ActivityRuns.FilesOnlyGrow` | cmd/activity-store.go:263-290 | In every reachable state, also with oversized events, any step keeps a file or extends its content, and only pruning removes one, namely the oldest listed. |
| `ActivityRuns.UnreadFilesKept` | cmd/activity-store.go:197-203 | A file that load could not or did not read is never rewritten by the process, and does not come back once it is pruned. |
| `ActivityRuns.MemoryOnlyNeverWrites` | cmd/activity-store.go:142-153 | A process whose listing failed leaves the disk unchanged and stays in memory. |
| `ActivityRuns.CleanMeansSaved` | cmd/activity-store.go:319-334 | When no flush runs and `dirty` is false, nothing is pending and the open segment is empty or equal to its file. |
| `ActivityRuns.CleanFlushWritesNothing` | cmd/activity-store.go:247-261 | A flush that begins then has nothing to write. |
| `ActivityRuns.NothingVanishes` | cmd/activity-store.go:94-130 | In every reachable state every event of the process, oversized ones included, is open, pending, in flight, on disk, pruned or counted by `dropped`; no sealed segment is empty, `openBytes` is exact and below the limit, and at most 50 segments are pending (50 more in flight). |
| `ActivityRuns.SegmentsListFiles` | cmd/activity-store.go:304-316 | The list of names is sorted, free of repetitions and equal to the set of files on disk. |
| `ActivityRuns.CleanFlushKeepsNewest` | cmd/activity-store.go:283-290 | After an error-free flush the disk holds exactly the newest 50, or fewer, of all names found or written. |
| `ActivityRuns.LoadReadsNewest` | cmd/activity-store.go:178-212 | A load reads exactly the files than which fewer than 50 are newer: its history is made of the events of those that can be read, and it is marked failed if and only if one of them cannot. |
| `ActivityRuns.BaseStep` | cmd/activity-store.go:94-301 | Every step (append of any size, begin, write, prune, end, crash, load, failed listing) keeps names, prefixes and places of events, whether it succeeds or fails. |
| `ActivityRuns.StepKeeps` | cmd/activity-store.go:94-301 | Every step that appends no oversized event keeps both layers of the invariant, whether it succeeds or fails. |
| `ActivityRuns.RunKeeps` | cmd/activity-store.go:94-301 | Every run of fitting events from a state with the invariant ends in one. |
| `ActivityRuns.NoWrap` | cmd/activity.go:289-291 | In every run of fewer than 2^64 / 1000 steps all numbers fit 64 bits, so modelling the counter without a bound loses nothing there. |
| `ActivityAppend.AppendKeeps` | cmd/activity-store.go:93-119 | Appending, with up to two seals or an oversized event dropped, keeps names, prefixes and places also while a flush is running. |
| `ActivityKeeps.BeginKeeps` | cmd/activity-store.go:247-261 | Taking the snapshot of a flush keeps them. |
| `ActivityKeeps.WriteSealedKeeps` | cmd/activity-store.go:269-275 | Writing one sealed segment, or failing to, keeps them. |
| `ActivityKeeps.WriteCopyKeeps` | cmd/activity-store.go:276-282 | Writing the copy of the open segment, or failing to, keeps them although the segment may have grown or been sealed meanwhile. |
| `ActivityKeeps.PruneKeeps` | cmd/activity-store.go:283-290 | Removing the oldest file, or failing to, keeps them. |
| `ActivityKeeps.EndKeeps` | cmd/activity-store.go:292-300 | Merging failed segments back before newly sealed ones keeps them. |
| `ActivityLoad.LoadKeeps` | cmd/activity-store.go:159-236 | Loading after any crash, with any set of readable files, establishes them for a running process. |
| `ActivityNumbers.StepNumbers` | cmd/activity-store.go:94-301 | Every step keeps the sequence numbers in order: runs of at most 1000 from each name, known numbers below the next one, the history ascending and continued by the next number. |
| `ActivityRecovery.RestartContinues` | cmd/activity-store.go:178-236 | After an error-free flush with every file readable and nothing dropped, a restart has the same next number, a history that is the end of the old one, the same file names, and the newest file open exactly when it is not full. |
| `ActivityRecovery.CleanFlushIsClean` | cmd/activity-store.go:292-300 | An error-free flush without appends meanwhile leaves the state that RestartContinues asks for. |
| `ActivityRecovery.DiskIsHistory` | cmd/activity-store.go:283-290 | In that state the files hold exactly the events of the history from the oldest file on. |
| `ActivityPacking.DropsOldest` | cmd/activity-store.go:92-130 | In every reachable state: an append seals what is open if the event does not fit, and what is open then if it has reached a limit; of the pending list it leaves the newest 50 segments and counts exactly the events of the others; the end of a flush does the same to the failed segments followed by the others; an oversized event counts one and changes no segment; no other step drops anything. |
| `ActivityPacking.DropsOnlyWhenFull` | cmd/activity-store.go:121-130 | In every reachable state a step counts an event that fits a segment as dropped only if 50 pending segments with newer events only remain. |
| `ActivityPacking.DroppedWhenFull` | cmd/activity-store.go:121-130 | So for every such event counted in a run, some step of the run left 50 pending segments with newer events only. |
| `ActivityPacking.SealedForAReason` | cmd/activity-store.go:101-113 | In every reachable state a pending segment has reached a limit, or the next event of the history that was stored does not fit it. |
| `ActivityOversize.OversizedRepeatsNumber` | cmd/activity-store.go:95-100 | For every node, every oversized event and every event of at most half a segment, a run that appends nothing else gives one number to two different events. |
| `ActivityOversize.UniqueExactly` | cmd/activity-store.go:94-113 | Numbers are unique in all runs of a set of events if and only if none of them is oversized, or none is small enough to share a segment. |
| `SegmentNames.NameRoundTrip` | cmd/activity-store.go:43-55 | Parsing a printed name gives the number back for every 64-bit number. |
| `SegmentNames.NameIsCanonical` | cmd/activity-store.go:47-55 | A name that parses is the printed name of its number, so no two names share one. |
| `SegmentNames.NameOrder` | cmd/activity-store.go:42-45 | Names sort like their numbers. |
| `ActivityOrder.NewerTotal` | cmd/activity.go:169-178 | The order by time, node and number is irreflexive, antisymmetric and total on distinct keys. |
| `ActivityOrder.NewerTransitive` | cmd/activity.go:169-178 | The order is transitive. |
| `SegmentNames.LessMeans` | cmd/activity.go:169-178 | One name is below another if and only if they agree up to a place where the first ends or has the smaller character. |
| `ActivityOrder.SortUnique` | cmd/activity.go:180-183 | Any sorted permutation of events with distinct keys is the one the model computes, so the sorting algorithm does not matter. |
| `ActivityOrder.NewestDescends` | cmd/activity.go:169-183 | In a sorted page times never rise, at equal times nodes never rise, and at equal times on one node numbers fall. |
| `ActivityPages.MergeActivity` | cmd/activity-query.go:181-195 | The merge loop returns the newest `limit` of all pages and a cursor when there are more; nothing for a limit below one. |
| `ActivityPages.FetchIsNewest` | cmd/activity-query.go:96-101 | The newest `limit` of the nodes' `limit+1` pages are the newest `limit` matches of all logs, and the cursor is there if and only if there are more. |
| `ActivityPages.CursorSkips` | cmd/activity.go:355-370 | Asking again with the returned cursor matches exactly the events after the ones already shown. |
| `ActivityPages.FollowReturnsEverything` | cmd/activity-query.go:229-238 | Following cursors over any number of unchanged logs with distinct keys ends and returns every match exactly once, newest first by time, node and number. |
| `ActivityPages.ListingShows` | cmd/activity.go:355-370 | Condition by condition (API, kind, bucket, access key, group, cursor): an event that misses one is not shown, and one that is not shown misses one. |
| `ActivityCluster.RingsDistinct` | cmd/activity.go:281-297 | The rings of any running nodes with different names, persistent or in memory only, each in any state that a run reaches whose events are all not oversized, or all too large to share a segment, hold events with distinct keys. |
| `ActivityCluster.ClusterPagination` | cmd/activity-query.go:229-238 | So following cursors over those rings returns every matching event exactly once, newest first. |
| `ActivityLive.LivePaging` | cmd/activity-query.go:229-238 | When the logs change in any way between the requests, a client that follows the cursors sees no event twice and none out of order, and only matches that were recorded; once it gets no further cursor it has seen every match that was there at all its requests. |
| `ActivityLive.GrowingLogs` | cmd/activity.go:355-370 | If the events that come in are not older than the first cursor, the client sees only events of the first request, is done after at most one request more than there were matches, and then, unless one of them was dropped meanwhile, has seen exactly the matches of the first request, newest first. |
| `ActivityCluster.ClusterLivePaging` | cmd/activity-query.go:96-101 | The promises of LivePaging for the rings of nodes that record, flush, crash, restart, come and go between the requests. |
| `ActivityRing.PutHolds` | cmd/activity.go:299-306 | Writing the next slot keeps the slots equal to the newest events of the longer history. |
| `ActivityRing.SnapshotAt` | cmd/activity.go:332-342 | The modular index of the ring copy reads the i-th oldest of the newest events. |
| `ActivityRing.SlotsRotate` | cmd/activity.go:389-393 | The raw slots in use are a permutation of the newest events. |
| `ActivityRing.PageIgnoresOrder` | cmd/activity.go:388-399 | A page over a permutation of events with distinct keys is the same page. |
| `ActivityLog.ActivityLog.constructor` | cmd/activity.go:226-232 | A new log is empty, its ring holds the empty history. |
| `ActivityLog.ActivityLog.PutRing` | cmd/activity.go:299-306 | The ring holds the newest events of the history with the event added. |
| `ActivityLog.ActivityLog.Snapshot` | cmd/activity.go:332-342 | Returns the last ring-length events of the full history in order. |
| `ActivityLog.ActivityLog.Query` | cmd/activity.go:379-400 | Returns the newest `Limit` matches of the last ring-length events, although it scans raw slots: as many as asked for or there are, falling by time, node and number; with equal keys too no match left out has a later time, or at equal times a greater node or number, than one returned. |
| `ActivityLog.ActivityLog.TrimPendingSegments` | cmd/activity-store.go:121-130 | Leaves the newest 50 of the pending segments, or all if there are fewer, and adds exactly the number of events of the others to `dropped`. |
| `ActivityLog.ActivityLog.SealSegment` | cmd/activity-store.go:115-119 | Seals as the step system does. |
| `ActivityLog.ActivityLog.FeedSegment` | cmd/activity-store.go:93-113 | Adds to the open segment, sealing before or after at either limit, as the step system does. |
| `ActivityLog.ActivityLog.Append` | cmd/activity.go:280-297 | Takes the append step: stamps node and number, fills the ring, feeds persistence. |
| `ActivityLog.ActivityLog.WriteSegment` | cmd/activity-store.go:303-316 | Saves the file and inserts its name at its place by binary search, or changes nothing on failure. |
| `ActivityLog.ActivityLog.WriteSealedSegments` | cmd/activity-store.go:269-275 | The write loop is a run of write steps; failed segments are collected in order. |
| `ActivityLog.ActivityLog.WriteOpenCopy` | cmd/activity-store.go:276-282 | Writing the open copy is the corresponding step. |
| `ActivityLog.ActivityLog.PruneSegments` | cmd/activity-store.go:283-290 | The pruning loop is a run of prune steps that ends with at most 50 names or an error. |
| `ActivityLog.ActivityLog.MergeFailures` | cmd/activity-store.go:292-299 | Puts failed segments before newly sealed ones, trims, and marks the log dirty exactly as the end step does. |
| `ActivityLog.ActivityLog.Flush` | cmd/activity-store.go:239-301 | A whole flush is a run of the step system from any state that keeps names, prefixes and places, ends in one, and reports an error as recorded; without an error nothing is dirty or pending, the open segment is saved and at most 50 names are left; and without a failing write or delete there is no error. |
| `ActivityLog.ActivityLog.FillRing` | cmd/activity-store.go:222-228 | Refills the ring with the newest loaded events. |
| `ActivityLog.ActivityLog.LoadSegments` | cmd/activity-store.go:158-236 | Loading from a listing and any set of readable files yields the state of the load step. |
| `ActivityLog.ActivityLog.Start` | cmd/activity-store.go:132-156 | Takes the load step, or stays in memory when the listing fails. |
| `ActivityLog.ListedNames` | cmd/activity-store.go:162-178 | Exactly the numbers of the valid names of a listing, sorted. |
| `ActivityLog.ReadSegments` | cmd/activity-store.go:184-212 | The read loop returns the events of the readable files, the newest file's events, the next number and whether a file failed. |
| `ActivityLog.RestoreFiles` | cmd/activity-store.go:162-218 | Listing, choosing the newest 50, reading and deciding on reopening together give the fields of the load step. |
| `Bitrot.SizesAgree` | cmd/bitrot-streaming.go:82-88 | The writer's announced size, the reader's end offset and the third size formula all equal the real stream length. |
| `Bitrot.CeilFracRoundsUp` | cmd/utils.go:698-713 | The quotient is rounded up for every numerator and denominator, negative ones too, and is zero for a zero denominator. |
| `Bitrot.Writer.Write` | cmd/bitrot-streaming.go:41-53 | Appends the hash of the bytes and the bytes, up to where the sink fails; reports the bytes written and whether all were; writes nothing for no bytes. |
| `Bitrot.WriteShards` | cmd/bitrot-streaming.go:41-53 | Writing data a shard at a time appends its encoding, up to where the sink fails, and succeeds exactly when all of it fits. |
| `Bitrot.Reader.constructor` | cmd/bitrot-streaming.go:163-176 | A new reader has not opened its stream and ends at the encoded end offset. |
| `Bitrot.Reader.OpenStream` | cmd/bitrot-streaming.go:125-137 | Opens inline data or the file at the encoded offset up to the end offset; fails if and only if the file is needed and the storage call fails. |
| `Bitrot.Reader.ReadAt` | cmd/bitrot-streaming.go:118-161 | Refuses unaligned and out-of-order offsets unchanged; otherwise reports a short read if and only if fewer bytes are there than a hash and the bytes asked for, corruption if and only if they are there and do not match the hash, and else returns them and moves on by their number. |
| `Bitrot.ReadShards` | cmd/bitrot-streaming.go:118-161 | Successive reads of one reader return what reading on through its stream returns: all bytes, or the first failure. |
| `Bitrot.EncodeDrop` | cmd/bitrot-streaming.go:125-137 | The stream from the encoded offset of an aligned position on is the encoding of the data from there on. |
| `Bitrot.EncodeTake` | cmd/bitrot-streaming.go:164-175 | The stream up to the reader's end offset is the encoding of the data up to there. |
| `Bitrot.ReadsBack` | cmd/bitrot-streaming.go:118-161 | Reading successive shards from any aligned offset to any shard border returns exactly the bytes written there. |
| `Bitrot.ReaderReturnsData` | cmd/bitrot-streaming.go:118-161 | So does a new reader over the written stream, whether it opens a file or inline data. |
| `Bitrot.ReadIsChecked` | cmd/bitrot-streaming.go:143-160 | A successful read returns bytes whose hash stands before them in the stream. |
| `Bitrot.ReadsLikeVerify` | cmd/bitrot-streaming.go:143-158 | On a stream that is long enough, reading reports corruption if and only if the verifier does and otherwise returns the payload; on a shorter one it reports a short read or corruption. |
| `Bitrot.CorruptionIsReported` | cmd/bitrot-streaming.go:143-158 | So a new reader of a whole stream of the right size, from a file or inline, reports corruption if and only if the verifier does. |
| `Bitrot.Verify` | cmd/bitrot.go:166-214 | The verifier's branches and its loop with shrinking counter and shard size compute the recursive check; a shard size of zero is allowed only where the empty copy buffer is not used. |
| `Bitrot.CheckedIff` | cmd/bitrot.go:190-213 | The loop accepts a stream exactly when it starts with the encoding of its payload. |
| `Bitrot.VerifyMeansEncoded` | cmd/bitrot.go:184-213 | Success if and only if the size matches the formula and the first bytes are hash-prefixed shards that all match; then reading back returns that payload. |
| `Bitrot.VerifyAcceptsWritten` | cmd/bitrot.go:184-213 | Everything that was written is accepted. |
| `Bitrot.CheckedShort` | cmd/bitrot.go:193-211 | A stream that ends within a shard is rejected, even if the cut shard matches its hash. |
| `Bitrot.LeftCountsDown` | cmd/bitrot.go:190-212 | With a matching size the counter falls in every round and never goes below zero, whatever the stream holds. |
| `BucketTags.MigrationKeepsMeaning` | cmd/bucket-tagging.go:93-117 | Migrating, saving and parsing again always works, keeps the settings in force, drops exactly the two flags from the tags, leaves dedicated protocol metadata and every other document alone, and a second migration does nothing. |
| `BucketTags.MigratesOnlyFlags` | cmd/bucket-tagging.go:93-102 | A record is migrated if and only if one of the two flags is among its tags. |
| `BucketTags.UserTagsKept` | cmd/bucket-tagging.go:119-130 | Migration does not change the tags a user sees. |
| `BucketTags.PartitionBucketTags` | cmd/bucket-tagging.go:119-130 | Splits tags into user tags and reserved ones: disjoint, complete, the reserved ones being exactly those whose key starts with the prefix. |
| `BucketTags.BucketMetadata.ParseAllConfigs` | cmd/bucket-metadata.go:193-287 | Succeeds if and only if every document of the record it leaves is missing or read by its library; sets the parsed tags, and switches versioning on for the plain object-lock document. |
| `BucketTags.SettingsInForce` | cmd/bucket-tagging.go:39-55 | For every protocol document and every combination of the two flags: a document alone counts; without one S3 is on unless its flag says false, and SFTP is off unless its flag is there and says anything else. |
| `BucketTags.BucketMetadata.MigrateBucketProtocolTags` | cmd/bucket-tagging.go:93-117 | The in-place migration computes the migrated record, leaves an unaffected record alone, and reports errors. |
| `BucketMetadata.LoadReturnsStored` | cmd/bucket-metadata.go:167-189 | Under any storage faults a load saves exactly the changes it reports, and a successful one returns what is stored then. |
| `BucketMetadata.LoadIsQuiet` | cmd/bucket-metadata.go:178-186 | Without old files a load leaves the record unchanged if and only if no flags are among its tags. |
| `BucketMetadata.LeftoverFileWins` | cmd/bucket-metadata.go:369-380 | A concrete old file that could not be deleted undoes an update. |
| `BucketMetadata.FlagIsMovedByLoad` | cmd/bucket-metadata.go:178-186 | A concrete record with a flag among its tags is rewritten by a load. |
| `BucketDocuments.NoLostUpdate` | cmd/bucket-metadata-sys.go:119-166 | In every interleaving the saved record is the result of all saved changes in lock order, and each of its documents is exactly what the changes of documents leave: what was last written, except that object lock switches versioning on and that moving flags rewrites tags and a missing protocol document. |
| `BucketDocuments.PlainDocument` | cmd/bucket-metadata-sys.go:124-164 | A document that no migration rewrites holds what was last written to it. |
| `BucketDocuments.TagsLastWritten` | cmd/bucket-tagging.go:93-117 | The tags are those last written, up to the two flags. |
| `BucketDocuments.WrittenProtocolStays` | cmd/bucket-tagging.go:107-112 | A protocol document that was written stays, whatever is migrated. |
| `BucketDocuments.VersioningWithoutLock` | cmd/bucket-metadata.go:240-242 | In a bucket that never had object lock, versioning is what was last written to it. |
| `BucketDocuments.OnlyUpdatesWrite` | cmd/bucket-metadata.go:312-336 | Without old files at the start no run takes any over, so only updates write documents. |
| `BucketDocuments.OnlyReadableDocuments` | cmd/bucket-metadata.go:384-387 | In every interleaving every document of the saved record and of every cached one is missing or read by its library. |
| `BucketDocuments.UpdateSurvivesLoad` | cmd/bucket-metadata.go:338-378 | A document other than tagging, protocol and versioning keeps its value over the next load if and only if no old file of it is left, or one with the same content. |
| `BucketDocuments.OthersSurviveLoad` | cmd/bucket-metadata.go:338-378 | Tags, up to the flags, survive the next load if and only if no old file with other tags is left; a protocol document always does; versioning does if and only if it is on or no old object-lock file is left. |
| `BucketCaches.StepKeeps` | cmd/bucket-metadata-sys.go:107-178 | Every step of every update, reload and removal keeps the invariant: the holder of the lock works on the saved record, each cache is the outcome of a first part of the changes, and caches behind the last update will be told. |
| `BucketCaches.CachedCopiesMoveForward` | cmd/bucket-metadata-sys.go:406-420 | In every interleaving a cached record is the outcome of a first part of the changes, and a later cached record on that node has seen at least as many. |
| `BucketCaches.ServedCaches` | cmd/bucket-metadata-sys.go:170-175 | When the lock is free and all told nodes have reloaded, every cache has seen the last update, and equals the saved record unless a load saved a migration since. |
| `BucketConvergence.ConvergesExactly` | cmd/bucket-metadata-sys.go:170-175 | With at least two nodes, a record that loads, and no old file at the start among those that loads may fail to delete: in every interleaving of some updates all caches equal the saved record whenever the reloads are served, if and only if none of the updates is a tagging document with flags that a load would move. |
| `BucketConvergence.RiskyDiverges` | cmd/bucket-metadata.go:178-186 | For every such document, a run in which all told nodes have reloaded and the updating node still caches another record. |
| `BucketConvergence.LeftoverDiverges` | cmd/bucket-metadata.go:338-380 | With an old file that cannot be deleted, of any document but the tags, and any readable update of that document to other content, some run ends with all reloads served and a cache that differs from the saved record. |
| `BucketConvergence.PublicTagsAreSafe` | cmd/bucket-tagging.go:132-168 | Tag updates whose keys lack the reserved prefix never put flags among the tags. |
| `BucketMetadataSys.BucketMetadataSys.Update` | cmd/bucket-metadata-sys.go:103-178 | Refuses the internal bucket; otherwise leaves storage and cache of that bucket alone changed, the cache only on success. |
| `BucketMetadataSys.BucketMetadataSys.GetConfig` | cmd/bucket-metadata-sys.go:383-404 | Returns a cached record without touching storage; loads and caches a missing one, which is then the stored one; leaves the cache alone when the load fails. |
| `BucketMetadataSys.UpdateIsRun` | cmd/bucket-metadata-sys.go:107-178 | A call of Update is a run of the step system with the same storage, the same cache entry, no other cache changed, and all peers told. |
| `BucketMetadataSys.ReloadIsRun` | cmd/bucket-metadata-sys.go:406-420 | A call of Reload is a run of the step system: the same storage, and on success the loaded record in the cache of its node, which need not be told any more; on failure no cache changes. |
| `HealRegistry.RunningNeverOverlap` | cmd/admin-heal-ops.go:279-316 | Over every run of launches, stops, ends and cleanings, no two registered running sequences have paths of which one is a prefix of the other. |
| `HealRegistry.LaunchIsExact` | cmd/admin-heal-ops.go:301-313 | A launch is refused if and only if it would replace a running sequence or break that separation, that is, if and only if a sequence without an end, or the background one, is registered at a path that is a prefix of its path or has it as a prefix. |
| `HealRegistry.LeavesOnlyWhen` | cmd/admin-heal-ops.go:187-211 | A sequence leaves the registry only by a finished stop of its path, a launch there after it ended, or cleaning more than 600 seconds after it ended. |
| `HealRegistry.CleanIsExact` | cmd/admin-heal-ops.go:199-203 | A cleaning keeps a sequence if and only if it is the background one, has not ended, or ended at most 600 seconds ago. |
| `HealRegistry.StaysRegistered` | cmd/admin-heal-ops.go:187-211 | So in every run without a launch or finished stop at its path an ended sequence is registered for 600 seconds. |
| `HealRegistry.AllHealState.FindOverlap` | cmd/admin-heal-ops.go:303-310 | The loop over the registry finds an overlapping running sequence if and only if there is one. |
| `HealRegistry.AllHealState.LaunchNewHealSequence` | cmd/admin-heal-ops.go:279-333 | Takes the launch step; registers the new sequence at its path exactly when nothing running overlaps, and else changes nothing, telling a running one at the same path apart. |
| `HealRegistry.AllHealState.ForceLaunch` | cmd/admin-heal-ops.go:282-286 | With the force flag: a run of stop, end and launch steps; registers the sequence exactly when no other path with a running sequence overlaps. Over the background sequence it waits for ever, with nothing but the stop request made. |
| `HealRegistry.AllHealState.StopHealSequence` | cmd/admin-heal-ops.go:235-267 | A run of stop and end steps: removes the path, if it is registered, and no other one, and keeps every other overlapping path running or not as it was; or waits for ever, exactly on a background sequence. |
| `HealRegistry.AllHealState.StopRequested` | cmd/admin-heal-ops.go:235-243 | Looks the sequence up and changes no registration. |
| `HealRegistry.AllHealState.StopFinished` | cmd/admin-heal-ops.go:255-263 | Removes the path when the awaited sequence has ended. |
| `HealRegistry.AllHealState.SequenceEnded` | cmd/admin-heal-ops.go:657-678 | Sets the end time of that sequence and changes nothing else. |
| `HealRegistry.AllHealState.CleanEnded` | cmd/admin-heal-ops.go:197-204 | The cleaning loop removes exactly the sequences that ended more than 600 seconds ago. |
| `HealResults.NothingLostOrRepeated` | cmd/admin-heal-ops.go:358-382 | Over every run of pushes and polls, the polled batches and then the unpolled items are all accepted results in order with indices 1, 2, 3 and so on, and at most 1000 are unpolled. |
| `HealResults.RunDelivers` | cmd/admin-heal-ops.go:593-634 | The same from any consistent queue. |
| `HealResults.HealSequence.PushHealResultItem` | cmd/admin-heal-ops.go:579-635 | Stores the result, after one poll if the queue was full; gives up if and only if the queue is full and the wait is ended by a stop, which it reports as such, or by the timeout, which it reports as such, before the client polls. |
| `HealResults.HealSequence.PopHealStatus` | cmd/admin-heal-ops.go:352-382 | With the right token returns all items and empties the queue, which then continues the numbering; with another token changes nothing. |
| `UrlEncode.S3UrlEncode` | cmd/api-utils.go:40-94 | Both shortcuts and the general loop return the byte-wise encoding. |
| `UrlEncode.CountEscapes` | cmd/api-utils.go:41-51 | Counts the bytes that take three places, and finds spaces. |
| `UrlEncode.ReplaceSpaces` | cmd/api-utils.go:67-75 | The shortcut copies the text with '+' for each space. |
| `UrlEncode.FillEscaped` | cmd/api-utils.go:77-93 | The general loop fills the buffer exactly, with the encoding. |
| `UrlEncode.EncodedLength` | cmd/api-utils.go:60-60 | The computed buffer size is the length of the encoding. |
| `UrlEncode.EncodeIsExact` | cmd/api-utils.go:24-94 | A text is the encoding of s if and only if it consists of unescaped characters, '+' and needed upper-case escapes and form decoding gives s. |
| `UrlEncode.EncodeIsInjective` | cmd/api-utils.go:24-94 | Different inputs have different encodings. |
| `UrlEncode.ByteText` | cmd/api-utils.go:24-34 | Letters, digits and the characters - _ . / * stand for themselves, a space becomes '+', and every other byte three characters that begin with '%'. |
| `UrlEncode.TextCharacters` | cmd/api-utils.go:24-94 | An encoded text holds only those characters, '+' and '%'. |
| `Retention.RetentionKept` | cmd/bucket-object-lock.go:200-233 | Mode and date are kept until the date in every interleaving with a non-decreasing clock if and only if the date is reached already, or the look-ups of all deletes and expiries work, the stored date is not below it without its fraction of a second, and no request in flight was approved, or can still be approved, to remove the version or to write a weaker period back; for compliance over all requests, for governance over those without bypass. |
| `Retention.ComplianceKept` | cmd/bucket-object-lock.go:223-233 | Compliance until a whole second is kept in every interleaving of requests that begin once it is stored, whatever the permissions and the bypass header, if the look-ups of deletes and expiries work. |
| `Retention.UnsightedRemoves` | cmd/object-handlers.go:3053-3100 | For every version under any lock, at any time, a delete or expiry that learns nothing of the lock removes the version. |
| `Retention.DeletesRefused` | cmd/bucket-object-lock.go:60-131 | Before its date the lock of a version under retention, once looked up, refuses lifecycle and quota deletes and every user delete (under governance, those without bypass), also when the clock cannot be read. |
| `Retention.WeakeningNeedsBypass` | cmd/bucket-object-lock.go:107-233 | Up to its date a version under retention accepts a change if and only if it is permitted and keeps mode and period, or bypasses governance with permission; and it can be deleted if and only if it is under governance, without legal hold, with the bypass header and both permissions. |
| `Retention.DeleteIsExact` | cmd/bucket-object-lock.go:107-170 | The answer to a delete for every lock, clock, bypass header and permission: a legal hold refuses it; without a period it is approved; under governance with the bypass header both permissions decide; otherwise the end of the period does. |
| `Retention.ExpiryIsExact` | cmd/bucket-object-lock.go:60-80 | Lifecycle and quota leave a version alone if and only if it is under legal hold, or under a period that has not ended or whose end cannot be told. |
| `Retention.PutIsExact` | cmd/bucket-object-lock.go:186-241 | The answer to a change of the retention for every lock, clock, bypass header and permission. |
| `Retention.BodyIsExact` | pkg/bucket/object/lock/lock.go:376-398 | A request body is accepted if and only if the clock can be read and mode and date are both missing, or both there with a date that is not past. |
| `Retention.AloneDoes` | cmd/object-handlers.go:3418-3450 | A request that nobody interrupts changes exactly the entry it is about, with the date in whole seconds, or removes the version, if its body is accepted and it is approved, and else changes nothing. |
| `Retention.HoldKept` | cmd/bucket-object-lock.go:107-110 | A version under legal hold stays there under it in every interleaving, until metadata with the hold off is written back, if and only if the look-ups of all deletes and expiries work and none in flight was approved or can still be approved. |
| `Retention.StepKeeps` | cmd/object-handlers.go:3418-3450 | Every read, decision and write of retention changes, hold changes, and deletes and expiries whose look-ups work, before the date, keeps mode, date and version, and leaves no dangerous request in flight. |
| `Retention.HalfSecondLost` | cmd/object-handlers.go:3427-3433 | A concrete date with half a second is not kept: requested again, it is stored as a whole second. |
| `Retention.HoldTakesExtensionBack` | cmd/object-handlers.go:3239-3265 | For any two dates, a run in which a legal-hold request that read the version before an extension takes the extension back. |
| `Retention.DeleteOvertakesRetention` | cmd/object-handlers.go:3060-3113 | For any date, a run in which a delete approved before the retention was stored removes the version under it. |

## Left out

- Sequence numbers and sizes are unbounded integers; `ActivityRuns.NoWrap` bounds them for runs shorter than 2^64 / 1000 steps.
- A failed write or delete leaves the disk as it was; partly applied writes are not modelled.
- ActivityLog.ActivityLog.Flush: one call without appends in between, because a method cannot be interrupted here; the step system covers appends and crashes at every lock boundary.
- Waits, timers and goroutine scheduling appear only as steps: at lock boundaries, and for retention at the reads, decisions and writes of a request.
- The gob and MessagePack encodings are taken to read back what they wrote; a damaged file is one that cannot be read.
- Paging of the object listing in `load`, the bounded event queue, denied counters, truncation of names and temporary-user lookup in `append`.
- `activityViewer.visible` and `mask`, missing peers and partial replies: they act on a merged page.
- Bitrot: read errors other than a short stream, the whole-file writer, and the hash functions themselves. Part sizes are non-negative and shard sizes positive in the theorems about the format.
- BucketTags.BucketMetadata.ParseAllConfigs: the parsed forms of documents other than tags, because each is a library's own type that only its readers look at.
- BucketMetadata.LoadReturnsStored: the third migration of a load, which encrypts replication targets, because it depends on a key service.
- BucketMetadata.LoadIsQuiet: the same, and records with old files, which `BucketDocuments.UpdateSurvivesLoad` and `BucketDocuments.OthersSurviveLoad` cover.
- BucketMetadataSys.BucketMetadataSys.Update: backend mode, the erasure-only restriction of three documents and encryption of replication targets, because they depend on global settings and a key service.
- The old object-lock flag file and the `LockEnabled` field: they set the same document as another old file, in map order.
- The creation time of a new record, and lock timeouts beyond giving up.
- BucketMetadataSys.BucketMetadataSys.GetConfig: backend mode and a missing object layer, which are refused before anything is looked up.
- HealRegistry.AllHealState.FindOverlap: case-insensitive prefixes on Windows.
- HealResults.HealSequence.PopHealStatus: the branch that discards a batch when it cannot be encoded, and a path without a sequence.
- Retention: overwriting by version and replica requests, replication of deletes, and buckets without object lock. The look-ups of a delete or expiry either return the stored lock or leave it unaware of any; those of other requests return the stored lock, because a failed one ends the request.
- HTTP handlers, IAM, policies, erasure coding, replication, lifecycle and quota computations.
