/** The saved bucket record, the caches of the nodes, and the read-modify-write under one lock per
    bucket. One bucket is modelled. */
module BucketMetadata {
  import opened Common
  import opened BucketTags

  // ---------------------------------------------------------------- storage

  /** The record file and the files of the format before it. */
  datatype Storage = Storage(saved: Option<Metadata>, legacy: map<ConfigFile, Data>)

  function Current(s: Storage): Metadata {
    if s.saved.Some? then s.saved.value else NEW_METADATA
  }

  function Convert(m: Metadata, legacy: map<ConfigFile, Data>): Metadata {
    Metadata(
      if Policy in legacy then legacy[Policy] else m.policy,
      if Notification in legacy then legacy[Notification] else m.notification,
      if Lifecycle in legacy then legacy[Lifecycle] else m.lifecycle,
      if ObjectLock in legacy then legacy[ObjectLock] else m.objectLock,
      if ObjectLock in legacy then ENABLED_VERSIONING else m.versioning,
      if Encryption in legacy then legacy[Encryption] else m.encryption,
      if Tagging in legacy then legacy[Tagging] else m.tagging,
      m.protocol,
      if Quota in legacy then legacy[Quota] else m.quota,
      if Replication in legacy then legacy[Replication] else m.replication,
      if Targets in legacy then legacy[Targets] else m.targets)
  }

  /** A saved change of the record: an update of one document, old files taken over, or flags moved out
      of the tags. */
  datatype Change = Updated(file: ConfigFile, data: Data) | Converted(legacy: map<ConfigFile, Data>) | FlagsMoved

  /** The record a change makes of `m` before it is parsed and saved; none if there is nothing to change. */
  function Draft(c: Codec, m: Metadata, change: Change): Option<Metadata> {
    match change
    case Updated(file, data) => Some(Put(m, file, data))
    case Converted(legacy) => Some(Convert(m, legacy))
    case FlagsMoved =>
      if ParseAll(c, m).Some? && Migrate(c, ParseAll(c, m).value).Migrated?
      then Some(Migrate(c, ParseAll(c, m).value).meta) else None
  }

  /** The record a change saves. */
  function Apply(c: Codec, m: Metadata, change: Change): Option<Metadata> {
    var draft := Draft(c, m, change);
    if draft.None? || ParseAll(c, draft.value).None? then None else Some(ParseAll(c, draft.value).value.meta)
  }

  /** The record after all changes, one after the other; none if one of them cannot be saved. */
  function Replay(c: Codec, m: Metadata, log: seq<Change>): Option<Metadata> {
    if log == [] then Some(m)
    else
      var before := Replay(c, m, log[..|log| - 1]);
      if before.None? then None else Apply(c, before.value, log[|log| - 1])
  }

  lemma ReplaySnoc(c: Codec, m: Metadata, log: seq<Change>, change: Change)
    requires Replay(c, m, log).Some?
    ensures Replay(c, m, log + [change]) == Apply(c, Replay(c, m, log).value, change)
  {
    assert (log + [change])[..|log|] == log;
  }

  /** What may go wrong while loading. */
  datatype Fault = NoFault | ReadFails | ConvertedSaveFails | MigratedSaveFails

  /** The changes a load saved, in order, and the record it returns. */
  datatype Load = Load(storage: Storage, changes: seq<Change>, loaded: Option<Metadata>)

  /** The old files that cannot be deleted. */
  function Undeleted(legacy: map<ConfigFile, Data>, kept: set<ConfigFile>): map<ConfigFile, Data> {
    map f | f in legacy && f in kept :: legacy[f]
  }

  lemma NothingLeft(legacy: map<ConfigFile, Data>)
    ensures Undeleted(legacy, {}) == map[]
  {
  }

  /** Load and migrate; the old files in `kept` cannot be deleted. */
  function LoadLocked(c: Codec, s: Storage, fault: Fault, kept: set<ConfigFile>): Load {
    if fault == ReadFails then Load(s, [], None)
    else if s.legacy == map[] then
      match ParseAll(c, Current(s))
      case None => Load(s, [], None)
      case Some(p) => MigrateLoaded(c, s, [], p, fault)
    else
      match ParseAll(c, Convert(Current(s), s.legacy))
      case None => Load(s, [], None)
      case Some(p) =>
        if fault == ConvertedSaveFails then Load(s, [], None)
        else MigrateLoaded(c, Storage(Some(p.meta), Undeleted(s.legacy, kept)), [Converted(s.legacy)], p, fault)
  }

  function MigrateLoaded(c: Codec, s: Storage, changes: seq<Change>, p: Parsed, fault: Fault): Load {
    match Migrate(c, p)
    case Failed => Load(s, changes, None)
    case Unchanged => Load(s, changes, Some(p.meta))
    case Migrated(m) =>
      match ParseAll(c, m)
      case None => Load(s, changes, None)
      case Some(q) =>
        if fault == MigratedSaveFails then Load(s, changes, None)
        else Load(s.(saved := Some(q.meta)), changes + [FlagsMoved], Some(q.meta))
  }

  /** The record is as Save writes it. */
  predicate WasSaved(c: Codec, m: Metadata) {
    ParseAll(c, m).Some? && Versioned(m) == m
  }

  /** A record without flags among its tags. */
  predicate NoFlags(c: Codec, m: Metadata) {
    ParseAll(c, m).Some? && Migrate(c, ParseAll(c, m).value) == Unchanged
  }

  lemma VersionedTwice(m: Metadata)
    ensures Versioned(Versioned(m)) == Versioned(m)
  {
  }

  /** Parsing what was parsed changes nothing. */
  lemma ParsedIsSaved(c: Codec, m: Metadata)
    requires ParseAll(c, m).Some?
    ensures WasSaved(c, ParseAll(c, m).value.meta)
    ensures ParseAll(c, ParseAll(c, m).value.meta) == ParseAll(c, m)
  {
    hide OthersRead, ParseTags, ProtocolSettings;
    VersionedTwice(m);
  }

  /** A load saves exactly the changes it reports, and a successful one returns what is stored then. */
  lemma LoadReturnsStored(c: Codec, s: Storage, fault: Fault, kept: set<ConfigFile>)
    requires WasSaved(c, Current(s))
    ensures var r := LoadLocked(c, s, fault, kept);
            && Replay(c, Current(s), r.changes) == Some(Current(r.storage))
            && (r.loaded.Some? ==> r.loaded.value == Current(r.storage))
            && (r.changes == [] ==> r.storage == s)
            && WasSaved(c, Current(r.storage))
  {
    hide ParseAll, MigrateLoaded, Replay, Apply, Convert, Versioned;
    var m := if s.legacy == map[] then Current(s) else Convert(Current(s), s.legacy);
    ReplayNothing(c, Current(s));
    if ParseAll(c, m).Some? {
      ParsedIsSaved(c, m);
      ParseMeta(c, m);
      var p := ParseAll(c, m).value;
      if s.legacy == map[] {
        MigrateReturnsStored(c, Current(s), s, [], p, fault);
      } else {
        ReplayOne(c, Current(s), Converted(s.legacy));
        ApplyConverted(c, Current(s), s.legacy);
        var left := Storage(Some(p.meta), Undeleted(s.legacy, kept));
        MigrateReturnsStored(c, Current(s), left, [Converted(s.legacy)], p, fault);
      }
    }
  }

  lemma MigrateReturnsStored(c: Codec, init: Metadata, s: Storage, changes: seq<Change>, p: Parsed, fault: Fault)
    requires Replay(c, init, changes) == Some(p.meta) && Current(s) == p.meta
    requires ParseAll(c, p.meta) == Some(p) && WasSaved(c, p.meta)
    ensures var r := MigrateLoaded(c, s, changes, p, fault);
            && Replay(c, init, r.changes) == Some(Current(r.storage))
            && (r.loaded.Some? ==> r.loaded.value == Current(r.storage))
            && (r.changes == changes ==> r.storage == s)
            && changes <= r.changes
            && WasSaved(c, Current(r.storage))
  {
    hide ParseAll, Migrate, Replay, Apply, WasSaved;
    if Migrate(c, p).Migrated? && ParseAll(c, Migrate(c, p).meta).Some? {
      ParsedIsSaved(c, Migrate(c, p).meta);
      ReplaySnoc(c, init, changes, FlagsMoved);
      ApplyFlagsMoved(c, p);
    }
  }

  lemma ReplayNothing(c: Codec, m: Metadata)
    ensures Replay(c, m, []) == Some(m)
  {
  }

  lemma ReplayOne(c: Codec, m: Metadata, change: Change)
    ensures Replay(c, m, [change]) == Apply(c, m, change)
  {
    ReplaySnoc(c, m, [], change);
    assert [] + [change] == [change];
  }

  lemma ApplyConverted(c: Codec, m: Metadata, legacy: map<ConfigFile, Data>)
    requires ParseAll(c, Convert(m, legacy)).Some?
    ensures Apply(c, m, Converted(legacy)) == Some(ParseAll(c, Convert(m, legacy)).value.meta)
  {
  }

  lemma ApplyFlagsMoved(c: Codec, p: Parsed)
    requires ParseAll(c, p.meta) == Some(p) && Migrate(c, p).Migrated? && ParseAll(c, Migrate(c, p).meta).Some?
    ensures Apply(c, p.meta, FlagsMoved) == Some(ParseAll(c, Migrate(c, p).meta).value.meta)
  {
    hide ParseAll, Migrate;
  }

  lemma ParseMeta(c: Codec, m: Metadata)
    requires ParseAll(c, m).Some?
    ensures ParseAll(c, m).value.meta == Versioned(m)
  {
  }

  /** Without old files, loading leaves the record alone if and only if no flags are among its tags. */
  lemma LoadIsQuiet(c: Codec, s: Storage, kept: set<ConfigFile>)
    requires WasSaved(c, Current(s)) && s.legacy == map[]
    requires LoadLocked(c, s, NoFault, kept).loaded.Some?
    ensures Current(LoadLocked(c, s, NoFault, kept).storage) == Current(s) <==> NoFlags(c, Current(s))
    ensures NoFlags(c, Current(s)) ==> LoadLocked(c, s, NoFault, kept).storage == s
  {
    var p := ParseAll(c, Current(s)).value;
    ParseMeta(c, Current(s));
    if Migrate(c, p).Migrated? {
      MigrationKeepsMeaning(c, Current(s));
    }
  }

  /** The old files a load takes over, if there are any. */
  function Takeover(s: Storage): seq<Change> {
    if s.legacy == map[] then [] else [Converted(s.legacy)]
  }

  /** A successful load takes old files over, and then moves flags if there are any. */
  lemma LoadChanges(c: Codec, s: Storage, fault: Fault, kept: set<ConfigFile>)
    requires LoadLocked(c, s, fault, kept).loaded.Some?
    ensures var r := LoadLocked(c, s, fault, kept);
            && (r.changes == Takeover(s) || r.changes == Takeover(s) + [FlagsMoved])
            && (kept == {} ==> r.storage.legacy == map[])
  {
    hide ParseAll, Migrate;
    NothingLeft(s.legacy);
  }

  /** An old file that could not be deleted undoes a later update of its document. */
  lemma LeftoverFileWins()
    ensures var s := Storage(Some(NEW_METADATA.(policy := "new")), map[Policy := "old"]);
            && WasSaved(SMALL_LIBRARIES, Current(s))
            && Current(LoadLocked(SMALL_LIBRARIES, s, NoFault, {Policy}).storage).policy == "old"
  {
    hide Migrate;
    var s := Storage(Some(NEW_METADATA.(policy := "new")), map[Policy := "old"]);
    var m := NEW_METADATA.(policy := "old");
    assert Policy in s.legacy;
    assert Convert(Current(s), s.legacy) == m;
    assert ParseAll(SMALL_LIBRARIES, m) == Some(Parsed(m, None));
    NothingToMigrate(SMALL_LIBRARIES, m);
  }

  lemma NothingToMigrate(c: Codec, m: Metadata)
    ensures Migrate(c, Parsed(m, None)) == Unchanged
  {
  }

  /** An update that puts a flag among the tags is changed by the next load. */
  lemma FlagIsMovedByLoad()
    ensures var s := Storage(Some(NEW_METADATA.(tagging := "s3 off")), map[]);
            && WasSaved(SMALL_LIBRARIES, Current(s))
            && Current(LoadLocked(SMALL_LIBRARIES, s, NoFault, {}).storage) == NEW_METADATA.(protocol := "00")
  {
    var s := Storage(Some(NEW_METADATA.(tagging := "s3 off")), map[]);
    var p := Parsed(NEW_METADATA.(tagging := "s3 off"), Some(map[S3_ENABLED := "false"]));
    SmallParses();
    SmallMigrates(p);
    hide ParseAll, Migrate;
  }

  lemma SmallParses()
    ensures ParseAll(SMALL_LIBRARIES, NEW_METADATA.(tagging := "s3 off")) ==
              Some(Parsed(NEW_METADATA.(tagging := "s3 off"), Some(map[S3_ENABLED := "false"])))
    ensures ParseAll(SMALL_LIBRARIES, NEW_METADATA.(protocol := "00")) ==
              Some(Parsed(NEW_METADATA.(protocol := "00"), None))
  {
    hide FromTags;
  }

  lemma SmallMigrates(p: Parsed)
    requires p == Parsed(NEW_METADATA.(tagging := "s3 off"), Some(map[S3_ENABLED := "false"]))
    ensures Migrate(SMALL_LIBRARIES, p) == Migrated(NEW_METADATA.(protocol := "00"))
  {
    assert WithoutLegacy(p.tags.value) == map[];
    assert FromTags(p.tags.value) == Protocols(false, false) by { assert IsFalse("false"); }
    hide FromTags, IsFalse;
  }
}
