/** No update is lost: what every document of the saved record holds, in terms of what was written to it. */
module BucketDocuments {
  import opened Common
  import opened BucketTags
  import opened BucketMetadata
  import opened BucketCaches

  /** The documents that had a file of their own in the old format. */
  predicate HadOldFile(file: ConfigFile) {
    file != Protocol && file != Versioning
  }

  /** What a change writes to a document, which holds `before`. */
  function WrittenBy(change: Change, file: ConfigFile, before: Data): Data {
    if change.Updated? && change.file == file then change.data
    else if change.Converted? && HadOldFile(file) && file in change.legacy then change.legacy[file]
    else before
  }

  /** The document last written, or the first one. */
  function LastWritten(log: seq<Change>, file: ConfigFile, first: Data): Data {
    if log == [] then first
    else WrittenBy(log[|log| - 1], file, LastWritten(log[..|log| - 1], file, first))
  }

  /** The tagging document without the flags. */
  function WithoutFlags(c: Codec, tagging: Data): Data {
    var document := MarshalBucketTags(c, WithoutLegacy(TagsIn(c, tagging)));
    if document.Some? then document.value else []
  }

  /** What a change leaves in a document: what it writes, except that object lock switches versioning on,
      and that moving flags takes them out of the tags and into a missing protocol document. */
  function DocumentAfter(c: Codec, change: Change, file: ConfigFile, before: ConfigFile -> Data): Data {
    var written := WrittenBy(change, file, before(file));
    match file
    case Versioning =>
      if || (change.Converted? && ObjectLock in change.legacy)
         || WrittenBy(change, ObjectLock, before(ObjectLock)) == ENABLED_OBJECT_LOCK
      then ENABLED_VERSIONING else written
    case Tagging => if change.FlagsMoved? then WithoutFlags(c, before(Tagging)) else written
    case Protocol =>
      if change.FlagsMoved? && before(Protocol) == [] then c.marshalProtocols(FromTags(TagsIn(c, before(Tagging))))
      else written
    case _ => written
  }

  /** A document after all changes. */
  function LastDocument(c: Codec, log: seq<Change>, file: ConfigFile, init: Metadata): Data
    decreases |log|
  {
    if log == [] then Get(init, file)
    else
      var front := log[..|log| - 1];
      DocumentAfter(c, log[|log| - 1], file, f => LastDocument(c, front, f, init))
  }

  // ---------------------------------------------------------------- one change

  lemma AppliedDraft(c: Codec, m: Metadata, change: Change)
    requires Apply(c, m, change).Some?
    ensures Draft(c, m, change).Some? && Apply(c, m, change).value == Versioned(Draft(c, m, change).value)
  {
    ParseMeta(c, Draft(c, m, change).value);
  }

  lemma UpdatedDocument(c: Codec, m: Metadata, change: Change, file: ConfigFile)
    requires change.Updated?
    ensures Get(Versioned(Put(m, change.file, change.data)), file) == DocumentAfter(c, change, file, f => Get(m, f))
  {
    var n := Put(m, change.file, change.data);
    PutDocument(m, change, file);
    PutDocument(m, change, ObjectLock);
    VersionedDocument(n, file);
    hide WithoutFlags, FromTags, Put, Versioned, Get;
  }

  lemma PutDocument(m: Metadata, change: Change, file: ConfigFile)
    requires change.Updated?
    ensures Get(Put(m, change.file, change.data), file) == WrittenBy(change, file, Get(m, file))
  {
  }

  lemma VersionedDocument(m: Metadata, file: ConfigFile)
    ensures Get(Versioned(m), file) ==
              if file == Versioning && Get(m, ObjectLock) == ENABLED_OBJECT_LOCK then ENABLED_VERSIONING
              else Get(m, file)
  {
  }

  lemma ConvertedDocument(c: Codec, m: Metadata, change: Change, file: ConfigFile)
    requires change.Converted?
    ensures Get(Versioned(Convert(m, change.legacy)), file) == DocumentAfter(c, change, file, f => Get(m, f))
  {
    hide WithoutFlags, FromTags, Convert, Versioned, Get;
    ConvertDocument(m, change, file);
    ConvertDocument(m, change, ObjectLock);
    VersionedDocument(Convert(m, change.legacy), file);
  }

  lemma ConvertDocument(m: Metadata, change: Change, file: ConfigFile)
    requires change.Converted?
    ensures Get(Convert(m, change.legacy), file) ==
              if file == Versioning && ObjectLock in change.legacy then ENABLED_VERSIONING
              else WrittenBy(change, file, Get(m, file))
  {
  }

  lemma MovedDocument(c: Codec, m: Metadata, file: ConfigFile)
    requires Draft(c, m, FlagsMoved).Some? && Versioned(m) == m
    ensures Get(Versioned(Draft(c, m, FlagsMoved).value), file) == DocumentAfter(c, FlagsMoved, file, f => Get(m, f))
  {
    hide Draft, WithoutFlags, FromTags, Versioned, Get;
    MovedDraft(c, m);
    var n := Draft(c, m, FlagsMoved).value;
    VersionedDocument(m, Versioning);
    VersionedDocument(n, file);
    OthersKept(m, n.tagging, n.protocol, file);
    OthersKept(m, n.tagging, n.protocol, ObjectLock);
    OthersKept(m, m.tagging, m.protocol, file);
  }

  lemma OthersKept(m: Metadata, tagging: Data, protocol: Data, file: ConfigFile)
    ensures Get(m.(tagging := tagging, protocol := protocol), file) ==
              if file == Tagging then tagging else if file == Protocol then protocol else Get(m, file)
    ensures Get(m, Tagging) == m.tagging && Get(m, Protocol) == m.protocol
  {
  }

  /** The record with its flags moved. */
  lemma MovedDraft(c: Codec, m: Metadata)
    requires Draft(c, m, FlagsMoved).Some? && Versioned(m) == m
    ensures Draft(c, m, FlagsMoved).value ==
              m.(tagging := WithoutFlags(c, m.tagging),
                 protocol := if m.protocol != [] then m.protocol
                             else c.marshalProtocols(FromTags(TagsIn(c, m.tagging))))
    ensures m.objectLock == ENABLED_OBJECT_LOCK ==> m.versioning == ENABLED_VERSIONING
  {
    ParseMeta(c, m);
    assert TagsIn(c, m.tagging) == ParseAll(c, m).value.tags.value by { hide Migrate; }
    hide ParseAll, FromTags, TagsIn;
  }

  lemma ApplyDocument(c: Codec, m: Metadata, change: Change, file: ConfigFile)
    requires Apply(c, m, change).Some? && Versioned(m) == m
    ensures Get(Apply(c, m, change).value, file) == DocumentAfter(c, change, file, f => Get(m, f))
  {
    AppliedDraft(c, m, change);
    hide Apply, Versioned, Put, Convert, DocumentAfter, Get, ParseAll, Migrate;
    match change
    case Updated(f, data) => UpdatedDocument(c, m, change, file);
    case Converted(legacy) => ConvertedDocument(c, m, change, file);
    case FlagsMoved => MovedDocument(c, m, file);
  }

  lemma SameBefore(c: Codec, change: Change, file: ConfigFile, a: ConfigFile -> Data, b: ConfigFile -> Data)
    requires forall f :: a(f) == b(f)
    ensures DocumentAfter(c, change, file, a) == DocumentAfter(c, change, file, b)
  {
  }

  // ---------------------------------------------------------------- all changes

  lemma {:induction false} ReplayVersioned(c: Codec, init: Metadata, log: seq<Change>)
    requires Versioned(init) == init && Replay(c, init, log).Some?
    ensures Versioned(Replay(c, init, log).value) == Replay(c, init, log).value
  {
    hide Apply, Versioned;
    if log == [] {
    } else {
      var m := Replay(c, init, log[..|log| - 1]).value;
      AppliedDraft(c, m, log[|log| - 1]);
      VersionedTwice(Draft(c, m, log[|log| - 1]).value);
    }
  }

  /** Every document of a replayed record is the outcome of the changes of the documents. */
  lemma {:induction false} ReplayDocument(c: Codec, init: Metadata, log: seq<Change>, file: ConfigFile)
    requires Versioned(init) == init && Replay(c, init, log).Some?
    ensures Get(Replay(c, init, log).value, file) == LastDocument(c, log, file, init)
    decreases |log|
  {
    hide Apply, Get, DocumentAfter, Versioned;
    if log == [] {
    } else {
      var front, change := log[..|log| - 1], log[|log| - 1];
      var m := Replay(c, init, front).value;
      forall f ensures Get(m, f) == LastDocument(c, front, f, init) { ReplayDocument(c, init, front, f); }
      ReplayVersioned(c, init, front);
      ApplyDocument(c, m, change, file);
      SameBefore(c, change, file, f => Get(m, f), f => LastDocument(c, front, f, init));
    }
  }

  /** In every interleaving the saved record is the result of all saved changes, each applied to the outcome
      of the one before it, and every document is what the changes of documents leave. */
  lemma NoLostUpdate(c: Codec, w: World, steps: seq<Step>, file: ConfigFile)
    requires Fresh(c, w) && Runs(c, w, steps)
    ensures var v := After(c, w, steps);
            && Replay(c, Current(w.storage), v.log) == Some(Current(v.storage))
            && Get(Current(v.storage), file) == LastDocument(c, v.log, file, Current(w.storage))
  {
    assert Versioned(Current(w.storage)) == Current(w.storage);
    hide Runs, After, Replay, Get, Current, LastDocument, Versioned;
    FreshInv(c, w);
    RunKeeps(c, Current(w.storage), w, steps);
    ReplayDocument(c, Current(w.storage), After(c, w, steps).log, file);
  }

  // ---------------------------------------------------------------- what that means

  /** A document that no migration rewrites holds what was last written to it. */
  lemma {:induction false} PlainDocument(c: Codec, log: seq<Change>, file: ConfigFile, init: Metadata)
    requires file != Tagging && file != Protocol && file != Versioning
    ensures LastDocument(c, log, file, init) == LastWritten(log, file, Get(init, file))
  {
    if log == [] {
    } else {
      PlainDocument(c, log[..|log| - 1], file, init);
    }
  }

  /** A protocol document that was written stays. */
  lemma {:induction false} WrittenProtocolStays(c: Codec, log: seq<Change>, init: Metadata)
    requires LastWritten(log, Protocol, init.protocol) != []
    ensures LastDocument(c, log, Protocol, init) == LastWritten(log, Protocol, init.protocol)
  {
    hide WithoutFlags, FromTags;
    if log == [] {
    } else {
      var front := log[..|log| - 1];
      if LastWritten(front, Protocol, init.protocol) != [] { WrittenProtocolStays(c, front, init); }
    }
  }

  /** Without object lock, versioning is what was last written to it. */
  lemma {:induction false} VersioningWithoutLock(c: Codec, log: seq<Change>, init: Metadata)
    requires forall i :: 0 <= i < |log| ==>
               && (log[i].Updated? && log[i].file == ObjectLock ==> log[i].data != ENABLED_OBJECT_LOCK)
               && (log[i].Converted? ==> ObjectLock !in log[i].legacy)
    requires init.objectLock != ENABLED_OBJECT_LOCK
    ensures LastDocument(c, log, Versioning, init) == LastWritten(log, Versioning, init.versioning)
    ensures LastWritten(log, ObjectLock, init.objectLock) != ENABLED_OBJECT_LOCK
  {
    if log == [] {
    } else {
      var front := log[..|log| - 1];
      VersioningWithoutLock(c, front, init);
      PlainDocument(c, front, ObjectLock, init);
      assert log[|log| - 1].Updated? || log[|log| - 1].Converted? || log[|log| - 1].FlagsMoved?;
    }
  }

  /** Taking the flags out of a saved record leaves its other tags. */
  lemma MovedTags(c: Codec, m: Metadata)
    requires Draft(c, m, FlagsMoved).Some?
    ensures WithoutLegacy(TagsIn(c, Draft(c, m, FlagsMoved).value.tagging)) == WithoutLegacy(TagsIn(c, m.tagging))
  {
    ParseMeta(c, m);
    var p := ParseAll(c, m).value;
    MigratedTags(c, p.tags.value, Migrate(c, p).meta.tagging);
    assert TagsIn(c, m.tagging) == p.tags.value;
  }

  lemma ApplyTags(c: Codec, m: Metadata, change: Change)
    requires Apply(c, m, change).Some?
    ensures WithoutLegacy(TagsIn(c, Apply(c, m, change).value.tagging)) ==
              WithoutLegacy(TagsIn(c, WrittenBy(change, Tagging, m.tagging)))
  {
    AppliedDraft(c, m, change);
    var draft := Draft(c, m, change).value;
    assert Versioned(draft).tagging == draft.tagging;
    if change.FlagsMoved? { MovedTags(c, m); }
    hide Apply, TagsIn, WithoutLegacy, ParseAll, Migrate, Versioned;
  }

  /** The tags are those last written, up to the two flags. */
  lemma {:induction false} TagsLastWritten(c: Codec, init: Metadata, log: seq<Change>)
    requires Replay(c, init, log).Some?
    ensures WithoutLegacy(TagsIn(c, Replay(c, init, log).value.tagging)) ==
              WithoutLegacy(TagsIn(c, LastWritten(log, Tagging, init.tagging)))
  {
    hide Apply, TagsIn, WithoutLegacy;
    if log == [] {
    } else {
      var m := Replay(c, init, log[..|log| - 1]).value;
      TagsLastWritten(c, init, log[..|log| - 1]);
      ApplyTags(c, m, log[|log| - 1]);
    }
  }

  /** Without old files at the start nothing is ever taken over, so only updates write documents. */
  lemma {:induction false} OnlyUpdatesWrite(c: Codec, w: World, steps: seq<Step>)
    requires Runs(c, w, steps) && w.storage.legacy == map[] && forall i :: 0 <= i < |w.log| ==> !w.log[i].Converted?
    ensures After(c, w, steps).storage.legacy == map[]
    ensures forall i :: 0 <= i < |After(c, w, steps).log| ==> !After(c, w, steps).log[i].Converted?
    decreases |steps|
  {
    if steps == [] {
    } else {
      var v := Next(c, w, steps[0]);
      if steps[0].DoLoad? { LoadTakesNothing(c, w.storage, steps[0].fault, steps[0].kept); }
      hide LoadLocked, Apply;
      OnlyUpdatesWrite(c, v, steps[1..]);
    }
  }

  lemma LoadTakesNothing(c: Codec, s: Storage, fault: Fault, kept: set<ConfigFile>)
    requires s.legacy == map[]
    ensures var r := LoadLocked(c, s, fault, kept);
            r.storage.legacy == map[] && forall i :: 0 <= i < |r.changes| ==> !r.changes[i].Converted?
  {
    hide ParseAll, Migrate;
  }

  // ---------------------------------------------------------------- old files that are left

  lemma LoadedDocument(c: Codec, s: Storage, kept: set<ConfigFile>, file: ConfigFile)
    requires WasSaved(c, Current(s)) && LoadLocked(c, s, NoFault, kept).loaded.Some?
    ensures var r := LoadLocked(c, s, NoFault, kept);
            && Get(Current(r.storage), file) == LastDocument(c, r.changes, file, Current(s))
            && (r.changes == Takeover(s) || r.changes == Takeover(s) + [FlagsMoved])
  {
    assert Versioned(Current(s)) == Current(s);
    hide LoadLocked, Replay, Get, Current, LastDocument, Versioned, WasSaved;
    LoadReturnsStored(c, s, NoFault, kept);
    LoadChanges(c, s, NoFault, kept);
    ReplayDocument(c, Current(s), LoadLocked(c, s, NoFault, kept).changes, file);
  }

  lemma LastWrittenSnoc(log: seq<Change>, change: Change, file: ConfigFile, first: Data)
    ensures LastWritten(log + [change], file, first) == WrittenBy(change, file, LastWritten(log, file, first))
  {
    assert (log + [change])[..|log|] == log;
  }

  lemma LastWrittenNothing(file: ConfigFile, first: Data)
    ensures LastWritten([], file, first) == first
  {
  }

  /** What a load writes to a document. */
  lemma LoadWrites(s: Storage, changes: seq<Change>, file: ConfigFile, first: Data)
    requires changes == Takeover(s) || changes == Takeover(s) + [FlagsMoved]
    ensures LastWritten(changes, file, first) == if HadOldFile(file) && file in s.legacy then s.legacy[file] else first
  {
    hide LastWritten, HadOldFile;
    LastWrittenNothing(file, first);
    LastWrittenSnoc([], Converted(s.legacy), file, first);
    assert [] + [Converted(s.legacy)] == [Converted(s.legacy)];
    LastWrittenSnoc(Takeover(s), FlagsMoved, file, first);
  }

  /** A document that no migration rewrites keeps its value over the next load if and only if no old file of
      it is left, or one with the same content. */
  lemma UpdateSurvivesLoad(c: Codec, s: Storage, file: ConfigFile, kept: set<ConfigFile>)
    requires WasSaved(c, Current(s)) && file != Tagging && file != Protocol && file != Versioning
    requires LoadLocked(c, s, NoFault, kept).loaded.Some?
    ensures Get(Current(LoadLocked(c, s, NoFault, kept).storage), file) == Get(Current(s), file)
            <==> file !in s.legacy || s.legacy[file] == Get(Current(s), file)
  {
    hide LoadLocked, WasSaved, Get, Current, LastDocument, LastWritten;
    var changes := LoadLocked(c, s, NoFault, kept).changes;
    LoadedDocument(c, s, kept, file);
    PlainDocument(c, changes, file, Current(s));
    LoadWrites(s, changes, file, Get(Current(s), file));
  }

  /** Tags, up to the flags, survive the next load if and only if no old file with other tags is left; a
      protocol document always survives; and versioning does if and only if it is on, or no old object-lock
      file is left. */
  lemma OthersSurviveLoad(c: Codec, s: Storage, kept: set<ConfigFile>)
    requires WasSaved(c, Current(s)) && LoadLocked(c, s, NoFault, kept).loaded.Some?
    ensures var m, n := Current(s), Current(LoadLocked(c, s, NoFault, kept).storage);
            && (WithoutLegacy(TagsIn(c, n.tagging)) == WithoutLegacy(TagsIn(c, m.tagging)) <==>
                  || Tagging !in s.legacy
                  || WithoutLegacy(TagsIn(c, s.legacy[Tagging])) == WithoutLegacy(TagsIn(c, m.tagging)))
            && (m.protocol != [] ==> n.protocol == m.protocol)
            && (n.versioning == m.versioning <==> m.versioning == ENABLED_VERSIONING || ObjectLock !in s.legacy)
  {
    hide LoadLocked, WasSaved, Current, TagsIn, WithoutLegacy;
    TagsSurviveLoad(c, s, kept);
    if Current(s).protocol != [] { ProtocolSurvivesLoad(c, s, kept); }
    VersioningSurvivesLoad(c, s, kept);
  }

  lemma TagsSurviveLoad(c: Codec, s: Storage, kept: set<ConfigFile>)
    requires WasSaved(c, Current(s)) && LoadLocked(c, s, NoFault, kept).loaded.Some?
    ensures var m, n := Current(s), Current(LoadLocked(c, s, NoFault, kept).storage);
            WithoutLegacy(TagsIn(c, n.tagging)) ==
              WithoutLegacy(TagsIn(c, if Tagging in s.legacy then s.legacy[Tagging] else m.tagging))
  {
    hide LoadLocked, WasSaved, Current, LastWritten, TagsIn, WithoutLegacy, Replay;
    var changes := LoadLocked(c, s, NoFault, kept).changes;
    LoadReturnsStored(c, s, NoFault, kept);
    LoadChanges(c, s, NoFault, kept);
    TagsLastWritten(c, Current(s), changes);
    LoadWrites(s, changes, Tagging, Current(s).tagging);
  }

  lemma ProtocolSurvivesLoad(c: Codec, s: Storage, kept: set<ConfigFile>)
    requires WasSaved(c, Current(s)) && LoadLocked(c, s, NoFault, kept).loaded.Some? && Current(s).protocol != []
    ensures Current(LoadLocked(c, s, NoFault, kept).storage).protocol == Current(s).protocol
  {
    hide LoadLocked, WasSaved, Current, LastDocument, LastWritten;
    var changes := LoadLocked(c, s, NoFault, kept).changes;
    LoadedDocument(c, s, kept, Protocol);
    LoadWrites(s, changes, Protocol, Current(s).protocol);
    WrittenProtocolStays(c, changes, Current(s));
  }

  lemma VersioningSurvivesLoad(c: Codec, s: Storage, kept: set<ConfigFile>)
    requires WasSaved(c, Current(s)) && LoadLocked(c, s, NoFault, kept).loaded.Some?
    ensures Current(LoadLocked(c, s, NoFault, kept).storage).versioning ==
              if ObjectLock in s.legacy then ENABLED_VERSIONING else Current(s).versioning
  {
    assert Versioned(Current(s)) == Current(s);
    hide LoadLocked, WasSaved, Current, LastDocument, Versioned;
    LoadedDocument(c, s, kept, Versioning);
    LoadedVersioning(c, s, LoadLocked(c, s, NoFault, kept).changes);
  }

  lemma LoadedVersioning(c: Codec, s: Storage, changes: seq<Change>)
    requires changes == Takeover(s) || changes == Takeover(s) + [FlagsMoved]
    requires Versioned(Current(s)) == Current(s)
    ensures LastDocument(c, changes, Versioning, Current(s)) ==
              if ObjectLock in s.legacy then ENABLED_VERSIONING else Current(s).versioning
  {
    var m := Current(s);
    hide WithoutFlags, FromTags, Current;
    assert LastDocument(c, [], Versioning, m) == m.versioning && LastDocument(c, [], ObjectLock, m) == m.objectLock;
    TakenVersioning(c, s, m);
    if changes != Takeover(s) {
      assert changes[..|changes| - 1] == Takeover(s);
    }
  }

  lemma TakenVersioning(c: Codec, s: Storage, m: Metadata)
    requires Versioned(m) == m
    ensures LastDocument(c, Takeover(s), Versioning, m) ==
              if ObjectLock in s.legacy then ENABLED_VERSIONING else m.versioning
    ensures LastDocument(c, Takeover(s), ObjectLock, m) ==
              if ObjectLock in s.legacy then s.legacy[ObjectLock] else m.objectLock
  {
    if s.legacy != map[] {
      assert Takeover(s)[..0] == [];
    }
  }

  // ---------------------------------------------------------------- only readable documents are saved

  lemma SavedIsReadable(c: Codec, m: Metadata)
    requires WasSaved(c, m)
    ensures AllReadable(c, m)
  {
    ParsesIfReadable(c, m);
  }

  lemma ReplayIsSaved(c: Codec, init: Metadata, log: seq<Change>)
    requires WasSaved(c, init) && Replay(c, init, log).Some?
    ensures WasSaved(c, Replay(c, init, log).value)
  {
    if log != [] { AppliedIsSaved(c, Replay(c, init, log[..|log| - 1]).value, log[|log| - 1]); }
    hide Apply, WasSaved;
  }

  /** In every interleaving every document of the saved record and of every cached one can be read. */
  lemma OnlyReadableDocuments(c: Codec, w: World, steps: seq<Step>)
    requires Fresh(c, w) && Runs(c, w, steps)
    ensures var v := After(c, w, steps);
            && AllReadable(c, Current(v.storage))
            && forall n :: n in v.caches ==> AllReadable(c, v.caches[n].meta)
  {
    hide Runs, After, Replay, WasSaved, AllReadable, Current;
    FreshInv(c, w);
    RunKeeps(c, Current(w.storage), w, steps);
    var v := After(c, w, steps);
    SavedIsReadable(c, Current(v.storage));
    forall n | n in v.caches ensures AllReadable(c, v.caches[n].meta) {
      ReplayIsSaved(c, Current(w.storage), v.log[..v.caches[n].at]);
      SavedIsReadable(c, v.caches[n].meta);
    }
  }
}
