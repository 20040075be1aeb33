/** When the caches of all nodes come to equal the saved record. */
module BucketConvergence {
  import opened Common
  import opened BucketTags
  import opened BucketMetadata
  import opened BucketCaches
  import opened BucketDocuments
  import opened BucketMetadataSys

  /** A tagging document with flags that a load would move: it can be read, and its other tags written. */
  predicate Risky(c: Codec, tagging: Data) {
    && ParseTags(c, tagging).Some?
    && HasLegacy(TagsIn(c, tagging))
    && MarshalBucketTags(c, WithoutLegacy(TagsIn(c, tagging))).Some?
  }

  /** The updates of a run are among `updates`, and its loads fail to delete old files in `stuck` only. */
  ghost predicate Follows(updates: iset<(ConfigFile, Data)>, stuck: set<ConfigFile>, steps: seq<Step>) {
    forall i :: 0 <= i < |steps| ==> Allowed(updates, stuck, steps[i])
  }

  ghost predicate Allowed(updates: iset<(ConfigFile, Data)>, stuck: set<ConfigFile>, step: Step) {
    && (step.Start? && step.job.Update? ==> (step.job.file, step.job.data) in updates)
    && (step.DoLoad? ==> step.kept <= stuck)
  }

  predicate Agree(w: World) {
    forall n :: n in w.caches ==> w.caches[n].meta == Current(w.storage)
  }

  /** In every interleaving, all caches equal the saved record whenever the reloads are served. */
  ghost predicate AlwaysConverges(c: Codec, w: World, updates: iset<(ConfigFile, Data)>, stuck: set<ConfigFile>) {
    forall steps :: Runs(c, w, steps) && Follows(updates, stuck, steps) && Served(After(c, w, steps)) ==>
      Agree(After(c, w, steps))
  }

  // ---------------------------------------------------------------- records that loads leave alone

  /** A load finds nothing to change. */
  ghost predicate Calm(c: Codec, s: Storage) {
    && s.legacy == map[]
    && WasSaved(c, Current(s))
    && !Migrate(c, ParseAll(c, Current(s)).value).Migrated?
  }

  lemma CalmLoad(c: Codec, s: Storage, fault: Fault, kept: set<ConfigFile>)
    requires Calm(c, s)
    ensures LoadLocked(c, s, fault, kept).storage == s && LoadLocked(c, s, fault, kept).changes == []
  {
    hide ParseAll, Migrate;
  }

  /** A successful load that can delete old files leaves a record that loads again as it is. */
  lemma LoadAgain(c: Codec, s: Storage, fault: Fault)
    requires WasSaved(c, Current(s)) && LoadLocked(c, s, fault, {}).loaded.Some?
    ensures var t := LoadLocked(c, s, fault, {}).storage;
            && Calm(c, t)
            && LoadLocked(c, t, NoFault, {}) == Load(t, [], Some(Current(t)))
  {
    LoadChanges(c, s, fault, {});
    LoadReturnsStored(c, s, fault, {});
    var m := if s.legacy == map[] then Current(s) else Convert(Current(s), s.legacy);
    var t := LoadLocked(c, s, fault, {}).storage;
    LoadedUnchanged(c, s, fault, m);
    ParseMeta(c, Current(t));
    hide ParseAll, Migrate, Convert, Versioned;
    assert LoadLocked(c, t, NoFault, {}) == MigrateLoaded(c, t, [], ParseAll(c, Current(t)).value, NoFault);
  }

  lemma LoadedUnchanged(c: Codec, s: Storage, fault: Fault, m: Metadata)
    requires m == if s.legacy == map[] then Current(s) else Convert(Current(s), s.legacy)
    requires WasSaved(c, Current(s)) && LoadLocked(c, s, fault, {}).loaded.Some?
    ensures var t := Current(LoadLocked(c, s, fault, {}).storage);
            ParseAll(c, t).Some? && Migrate(c, ParseAll(c, t).value) == Unchanged
  {
    hide ParseAll, MigrateLoaded, Convert, Versioned;
    ParsedIsSaved(c, m);
    ParseMeta(c, m);
    var p := ParseAll(c, m).value;
    if s.legacy == map[] {
      MigrateSettles(c, s, [], p, fault);
    } else {
      MigrateSettles(c, Storage(Some(p.meta), Undeleted(s.legacy, {})), [Converted(s.legacy)], p, fault);
    }
  }

  lemma MigrateSettles(c: Codec, s: Storage, changes: seq<Change>, p: Parsed, fault: Fault)
    requires ParseAll(c, p.meta) == Some(p) && Current(s) == p.meta
    requires MigrateLoaded(c, s, changes, p, fault).loaded.Some?
    ensures var t := Current(MigrateLoaded(c, s, changes, p, fault).storage);
            ParseAll(c, t).Some? && Migrate(c, ParseAll(c, t).value) == Unchanged
  {
    if Migrate(c, p).Migrated? { MigrationKeepsMeaning(c, p.meta); ParsedIsSaved(c, Migrate(c, p).meta); }
    hide ParseAll, Migrate, Versioned;
  }

  /** Whether a saved record has flags to move depends on its tagging document only. */
  lemma MovesFlags(c: Codec, m: Metadata)
    requires WasSaved(c, m)
    ensures Migrate(c, ParseAll(c, m).value).Migrated? <==> Risky(c, m.tagging)
  {
  }

  lemma UpdateStaysCalm(c: Codec, s: Storage, file: ConfigFile, data: Data)
    requires Calm(c, s) && Apply(c, Current(s), Updated(file, data)).Some?
    requires file == Tagging ==> !Risky(c, data)
    ensures Calm(c, s.(saved := Apply(c, Current(s), Updated(file, data))))
  {
    var m := Apply(c, Current(s), Updated(file, data)).value;
    AppliedIsSaved(c, Current(s), Updated(file, data));
    assert m.tagging == if file == Tagging then data else Current(s).tagging by {
      ParseMeta(c, Put(Current(s), file, data));
    }
    MovesFlags(c, Current(s));
    MovesFlags(c, m);
    hide ParseAll, Migrate, Risky, Apply, WasSaved;
  }

  // ---------------------------------------------------------------- runs that converge

  ghost predicate JobsOk(updates: iset<(ConfigFile, Data)>, tasks: map<nat, Task>) {
    forall id :: id in tasks && tasks[id].job.Update? ==> (tasks[id].job.file, tasks[id].job.data) in updates
  }

  /** Some node has a record, cached or at hand. */
  ghost predicate Touched(w: World) {
    w.caches != map[] || exists id :: id in w.tasks && w.tasks[id].phase != Waiting
  }

  /** Since a record was cached, only updates were saved. */
  ghost predicate OnlyUpdates(log: seq<Change>, caches: map<nat, Entry>) {
    forall n, i :: n in caches && caches[n].at <= i < |log| ==> log[i].Updated?
  }

  ghost predicate Converging(c: Codec, updates: iset<(ConfigFile, Data)>, stuck: set<ConfigFile>, w: World) {
    && JobsOk(updates, w.tasks) && (Touched(w) ==> Calm(c, w.storage)) && OnlyUpdates(w.log, w.caches)
    && w.storage.legacy.Keys !! stuck
  }

  /** Which files cannot be deleted makes no difference if no old file is among them. */
  lemma KeptElsewhere(c: Codec, s: Storage, fault: Fault, kept: set<ConfigFile>)
    requires s.legacy.Keys !! kept
    ensures LoadLocked(c, s, fault, kept) == LoadLocked(c, s, fault, {})
    ensures LoadLocked(c, s, fault, kept).storage.legacy.Keys <= s.legacy.Keys
  {
    hide ParseAll, Migrate;
    assert Undeleted(s.legacy, kept) == Undeleted(s.legacy, {});
  }

  lemma LoadConverges(c: Codec, init: Metadata, updates: iset<(ConfigFile, Data)>, stuck: set<ConfigFile>, w: World,
                      id: nat, fault: Fault, kept: set<ConfigFile>)
    requires Inv(c, init, w) && Converging(c, updates, stuck, w) && Enabled(w, DoLoad(id, fault, kept))
    requires kept <= stuck
    ensures Converging(c, updates, stuck, LoadNext(c, w, id, fault, kept))
  {
    assert WasSaved(c, Current(w.storage));
    hide LoadLocked, Calm, Inv, WasSaved, Current, LoadNext, Touched, JobsOk;
    KeptElsewhere(c, w.storage, fault, kept);
    LoadTouches(c, updates, w, id, fault, kept);
    if Touched(w) { CalmLoad(c, w.storage, fault, {}); }
    if LoadLocked(c, w.storage, fault, {}).loaded.Some? { LoadAgain(c, w.storage, fault); }
    assert w.log + [] == w.log;
  }

  lemma LoadTouches(c: Codec, updates: iset<(ConfigFile, Data)>, w: World, id: nat, fault: Fault,
                    kept: set<ConfigFile>)
    requires id in w.tasks && JobsOk(updates, w.tasks)
    ensures var v, r := LoadNext(c, w, id, fault, kept), LoadLocked(c, w.storage, fault, kept);
            && JobsOk(updates, v.tasks) && v.caches == w.caches
            && v.storage == r.storage && v.log == w.log + r.changes
            && (Touched(v) ==> Touched(w) || r.loaded.Some?)
    ensures Touched(w) || w.caches == map[]
  {
    hide LoadLocked;
  }

  lemma SaveConverges(c: Codec, init: Metadata, updates: iset<(ConfigFile, Data)>, stuck: set<ConfigFile>, w: World,
                      id: nat, written: bool)
    requires Inv(c, init, w) && Converging(c, updates, stuck, w) && Enabled(w, DoSave(id, written))
    requires forall d :: (Tagging, d) in updates ==> !Risky(c, d)
    ensures Converging(c, updates, stuck, SaveNext(c, w, id, written))
  {
    hide Apply, Calm, Risky, Current, CachesOk, ToldOk, StoredOk;
    var task := w.tasks[id];
    assert Touched(w);
    assert task.phase.meta == Current(w.storage) && (task.job.file, task.job.data) in updates;
    if Apply(c, Current(w.storage), Updated(task.job.file, task.job.data)).Some? {
      UpdateStaysCalm(c, w.storage, task.job.file, task.job.data);
    }
    hide LockOk;
  }

  lemma StepConverges(c: Codec, init: Metadata, updates: iset<(ConfigFile, Data)>, stuck: set<ConfigFile>, w: World,
                      step: Step)
    requires Inv(c, init, w) && Converging(c, updates, stuck, w) && Enabled(w, step) && Allowed(updates, stuck, step)
    requires forall d :: (Tagging, d) in updates ==> !Risky(c, d)
    ensures Converging(c, updates, stuck, Next(c, w, step))
  {
    hide LoadNext, SaveNext, Calm, Inv, Risky;
    match step
    case DoLoad(id, fault, kept) => LoadConverges(c, init, updates, stuck, w, id, fault, kept);
    case DoSave(id, written) => SaveConverges(c, init, updates, stuck, w, id, written);
    case DoCache(id) => assert Touched(w);
    case Release(id) => assert Touched(w);
    case Remove(node) =>
      assert Touched(Next(c, w, step)) ==> Touched(w);
    case Start(id, node, job) => assert Touched(Next(c, w, step)) ==> Touched(w);
    case GiveUp(id) => assert Touched(Next(c, w, step)) ==> Touched(w);
    case Acquire(id) => assert Touched(Next(c, w, step)) ==> Touched(w);
  }

  lemma {:induction false} RunConverges(c: Codec, init: Metadata, updates: iset<(ConfigFile, Data)>,
                                        stuck: set<ConfigFile>, w: World, steps: seq<Step>)
    requires Inv(c, init, w) && Converging(c, updates, stuck, w) && Runs(c, w, steps) && Follows(updates, stuck, steps)
    requires forall d :: (Tagging, d) in updates ==> !Risky(c, d)
    ensures Inv(c, init, After(c, w, steps)) && Converging(c, updates, stuck, After(c, w, steps))
    decreases |steps|
  {
    hide Inv, Converging, Enabled, Next, Risky, Allowed;
    if steps == [] {
    } else {
      assert Allowed(updates, stuck, steps[0]);
      StepKeeps(c, init, w, steps[0]);
      StepConverges(c, init, updates, stuck, w, steps[0]);
      assert forall i :: 0 <= i < |steps[1..]| ==> steps[1..][i] == steps[i + 1];
      RunConverges(c, init, updates, stuck, Next(c, w, steps[0]), steps[1..]);
    }
  }

  lemma UpToDate(log: seq<Change>, at: nat)
    requires UpdatesUpTo(log) <= at <= |log| && forall i :: at <= i < |log| ==> log[i].Updated?
    ensures at == |log|
  {
  }

  /** Caches that were told of the last update, with only updates since, are up to date. */
  lemma ConvergedAgree(c: Codec, init: Metadata, updates: iset<(ConfigFile, Data)>, stuck: set<ConfigFile>, w: World)
    requires Inv(c, init, w) && Converging(c, updates, stuck, w) && Served(w)
    ensures Agree(w)
  {
    hide Replay, Current, Calm;
    forall n | n in w.caches ensures w.caches[n].meta == Current(w.storage) {
      assert w.caches[n].at >= UpdatesUpTo(w.log);
      UpToDate(w.log, w.caches[n].at);
      assert w.log[..|w.log|] == w.log;
    }
  }

  // ---------------------------------------------------------------- a run that does not

  lemma {:induction false} FollowsJoin(updates: iset<(ConfigFile, Data)>, stuck: set<ConfigFile>, a: seq<Step>,
                                       b: seq<Step>)
    requires Follows(updates, stuck, a) && Follows(updates, stuck, b)
    ensures Follows(updates, stuck, a + b)
  {
  }

  lemma ReloadFollows(c: Codec, s: Storage, id: nat, node: nat, kept: set<ConfigFile>,
                      updates: iset<(ConfigFile, Data)>, stuck: set<ConfigFile>)
    requires kept <= stuck
    ensures Follows(updates, stuck, ReloadSteps(c, s, id, node, NoFault, kept))
  {
    hide LoadLocked;
  }

  lemma UpdateFollows(c: Codec, s: Storage, id: nat, node: nat, file: ConfigFile, data: Data, kept: set<ConfigFile>,
                      updates: iset<(ConfigFile, Data)>, stuck: set<ConfigFile>)
    requires (file, data) in updates && kept <= stuck
    ensures Follows(updates, stuck, UpdateSteps(c, s, id, node, file, data, NoFault, kept, true))
  {
    hide LoadLocked, Apply;
  }

  /** A load of `s` leaves `t` and returns its record. */
  ghost predicate LoadsTo(c: Codec, s: Storage, kept: set<ConfigFile>, t: Storage) {
    LoadLocked(c, s, NoFault, kept).storage == t && LoadLocked(c, s, NoFault, kept).loaded == Some(Current(t))
  }

  /** All nodes that were told reload one after the other: no other cache changes, and what is stored then is
      what the first of them leaves, if the next load leaves that alone. */
  lemma {:induction false} AllReload(c: Codec, w: World, updates: iset<(ConfigFile, Data)>, stuck: set<ConfigFile>,
                                     kept: set<ConfigFile>, t: Storage)
    returns (steps: seq<Step>)
    requires w.holder == None && w.tasks == map[] && w.pending <= w.nodes && kept <= stuck
    requires LoadsTo(c, w.storage, kept, t) && LoadsTo(c, t, kept, t)
    ensures Runs(c, w, steps) && Follows(updates, stuck, steps)
    ensures var v := After(c, w, steps);
            && Served(v)
            && (forall n :: n in w.caches && n !in w.pending ==> n in v.caches && v.caches[n] == w.caches[n])
            && v.storage == if w.pending == {} then w.storage else t
    decreases |w.pending|
  {
    if w.pending == {} {
      steps := [];
    } else {
      var n :| n in w.pending;
      var first := ReloadSteps(c, w.storage, 0, n, NoFault, kept);
      ReloadIsRun(c, w, 0, n, NoFault, kept);
      ReloadFollows(c, w.storage, 0, n, kept, updates, stuck);
      var v := After(c, w, first);
      hide LoadLocked, Runs, After, ReloadSteps, Follows, Current;
      assert v.storage == t;
      hide LoadsTo;
      var more := AllReload(c, v, updates, stuck, kept, t);
      RunsTogether(c, w, first, more);
      FollowsJoin(updates, stuck, first, more);
      steps := first + more;
    }
  }

  /** A tagging document with flags can be saved over any saved record, and the next load rewrites it. */
  lemma RiskyUpdate(c: Codec, m: Metadata, data: Data)
    requires WasSaved(c, m) && Risky(c, data)
    ensures var saved := Apply(c, m, Updated(Tagging, data));
            && saved.Some? && WasSaved(c, saved.value)
            && var r := LoadLocked(c, Storage(saved, map[]), NoFault, {});
               r.loaded.Some? && r.loaded.value != saved.value
  {
    RiskySaves(c, m, data);
    var saved := Apply(c, m, Updated(Tagging, data));
    var s := Storage(saved, map[]);
    MovesFlags(c, saved.value);
    MigrationKeepsMeaning(c, saved.value);
    hide Apply, WasSaved, Risky;
    LoadMoves(c, s);
  }

  lemma RiskySaves(c: Codec, m: Metadata, data: Data)
    requires WasSaved(c, m) && Risky(c, data)
    ensures var saved := Apply(c, m, Updated(Tagging, data));
            saved.Some? && WasSaved(c, saved.value) && saved.value.tagging == data
  {
    OthersUntouched(c, m, m.protocol, data);
    assert Put(m, Tagging, data) == m.(protocol := m.protocol, tagging := data);
    ParseRisky(c, m, data);
    ParseMeta(c, Put(m, Tagging, data));
    hide ParseAll, Versioned;
    AppliedIsSaved(c, m, Updated(Tagging, data));
  }

  lemma LoadMoves(c: Codec, s: Storage)
    requires s.legacy == map[] && WasSaved(c, Current(s)) && Migrate(c, ParseAll(c, Current(s)).value).Migrated?
    requires ParseAll(c, Migrate(c, ParseAll(c, Current(s)).value).meta).Some?
    ensures var r := LoadLocked(c, s, NoFault, {});
            r.loaded.Some? && r.loaded.value != Current(s)
  {
    assert LoadLocked(c, s, NoFault, {}).loaded.Some? by { hide ParseAll, Migrate; }
    LoadReturnsStored(c, s, NoFault, {});
    LoadIsQuiet(c, s, {});
    hide LoadLocked, ParseAll, Migrate;
  }

  lemma ParseRisky(c: Codec, m: Metadata, data: Data)
    requires WasSaved(c, m) && ParseTags(c, data).Some? && OthersRead(c, m.(tagging := data))
    requires Versioned(m.(tagging := data)) == m.(tagging := data)
    ensures ParseAll(c, m.(tagging := data)).Some?
  {
  }

  /** A node updates a document and all others reload: if that changes what is stored, the updating node
      keeps the record it had. */
  lemma UpdateThenReload(c: Codec, w: World, updates: iset<(ConfigFile, Data)>, stuck: set<ConfigFile>,
                         file: ConfigFile, data: Data, kept: set<ConfigFile>, s: Storage, t: Storage, a: nat, b: nat)
    returns (steps: seq<Step>)
    requires Fresh(c, w) && a in w.nodes && b in w.nodes && a != b && (file, data) in updates && kept <= stuck
    requires UpdateOutcome(c, w.storage, file, data, NoFault, kept, true) == (s, Some(Current(s)))
    requires LoadsTo(c, s, kept, t) && LoadsTo(c, t, kept, t) && Current(t) != Current(s)
    ensures Runs(c, w, steps) && Follows(updates, stuck, steps)
    ensures Served(After(c, w, steps)) && !Agree(After(c, w, steps))
  {
    var first := UpdateSteps(c, w.storage, 0, a, file, data, NoFault, kept, true);
    UpdateIsRun(c, w, 0, a, file, data, NoFault, kept, true);
    UpdateFollows(c, w.storage, 0, a, file, data, kept, updates, stuck);
    hide LoadLocked, LoadsTo, UpdateOutcome, Runs, After, UpdateSteps, Follows, WasSaved, Current;
    var v := After(c, w, first);
    assert v.storage == s && b in v.pending && a !in v.pending && v.caches[a].meta == Current(s);
    var more := AllReload(c, v, updates, stuck, kept, t);
    RunsTogether(c, w, first, more);
    FollowsJoin(updates, stuck, first, more);
    steps := first + more;
    assert After(c, w, steps).caches[a].meta != Current(After(c, w, steps).storage);
  }

  /** With flags to move, the updating node keeps a record that the reloads of the others rewrite. */
  lemma RiskyDiverges(c: Codec, w: World, updates: iset<(ConfigFile, Data)>, stuck: set<ConfigFile>, data: Data,
                      a: nat, b: nat)
    returns (steps: seq<Step>)
    requires Fresh(c, w) && LoadLocked(c, w.storage, NoFault, {}).loaded.Some?
    requires a in w.nodes && b in w.nodes && a != b && (Tagging, data) in updates && Risky(c, data)
    ensures Runs(c, w, steps) && Follows(updates, stuck, steps)
    ensures Served(After(c, w, steps)) && !Agree(After(c, w, steps))
  {
    LoadAgain(c, w.storage, NoFault);
    LoadReturnsStored(c, w.storage, NoFault, {});
    var r := LoadLocked(c, w.storage, NoFault, {});
    RiskyUpdate(c, r.loaded.value, data);
    var saved := Apply(c, r.loaded.value, Updated(Tagging, data));
    var s := Storage(saved, map[]);
    var t := LoadLocked(c, s, NoFault, {}).storage;
    LoadAgain(c, s, NoFault);
    LoadReturnsStored(c, s, NoFault, {});
    hide LoadLocked, WasSaved, Apply, Risky, Fresh;
    steps := UpdateThenReload(c, w, updates, stuck, Tagging, data, {}, s, t, a, b);
  }

  /** With at least two nodes and a record that can be loaded, whose old files, if any, can be deleted: all
      caches equal the saved record whenever the reloads are served, in every interleaving of some updates,
      if and only if none of these is a tagging document with flags to move. */
  lemma ConvergesExactly(c: Codec, w: World, updates: iset<(ConfigFile, Data)>, stuck: set<ConfigFile>, a: nat, b: nat)
    requires Fresh(c, w) && LoadLocked(c, w.storage, NoFault, {}).loaded.Some? && w.storage.legacy.Keys !! stuck
    requires a in w.nodes && b in w.nodes && a != b
    ensures AlwaysConverges(c, w, updates, stuck) <==> forall d :: (Tagging, d) in updates ==> !Risky(c, d)
  {
    hide LoadLocked, Risky, Inv, Follows, Agree;
    if forall d :: (Tagging, d) in updates ==> !Risky(c, d) {
      FreshInv(c, w);
      assert Converging(c, updates, stuck, w);
      hide Fresh, Converging, Runs, After;
      forall steps | Runs(c, w, steps) && Follows(updates, stuck, steps) && Served(After(c, w, steps))
        ensures Agree(After(c, w, steps))
      {
        RunConverges(c, Current(w.storage), updates, stuck, w, steps);
        ConvergedAgree(c, Current(w.storage), updates, stuck, After(c, w, steps));
      }
    } else {
      var d :| (Tagging, d) in updates && Risky(c, d);
      var steps := RiskyDiverges(c, w, updates, stuck, d, a, b);
    }
  }

  // ---------------------------------------------------------------- an old file that is left over

  lemma TakenOver(m: Metadata, legacy: map<ConfigFile, Data>, file: ConfigFile)
    requires file in legacy && HadOldFile(file)
    ensures var n := Versioned(Convert(m, legacy));
            Get(n, file) == legacy[file] && (file == ObjectLock ==> n.versioning == ENABLED_VERSIONING)
  {
  }

  /** A load that cannot delete one old file keeps it, and its content is in the record it returns. */
  lemma LoadKeepsFile(c: Codec, s: Storage, file: ConfigFile)
    requires WasSaved(c, Current(s)) && file in s.legacy && HadOldFile(file) && file != Tagging
    requires LoadLocked(c, s, NoFault, {}).loaded.Some?
    ensures var r := LoadLocked(c, s, NoFault, {file});
            && r.loaded == Some(Current(r.storage)) && r.storage.legacy == map[file := s.legacy[file]]
            && WasSaved(c, Current(r.storage)) && NoFlags(c, Current(r.storage))
            && Get(Current(r.storage), file) == s.legacy[file]
            && (file == ObjectLock ==> Current(r.storage).versioning == ENABLED_VERSIONING)
  {
    hide ParseAll, Convert, Versioned, Migrate, WasSaved, Get, HadOldFile;
    var m := Convert(Current(s), s.legacy);
    TakenOver(Current(s), s.legacy, file);
    LoadReturnsStored(c, s, NoFault, {file});
    ParseMeta(c, m);
    ParsedIsSaved(c, m);
    var p := ParseAll(c, m).value;
    var left := Storage(Some(p.meta), Undeleted(s.legacy, {file}));
    assert left.legacy == map[file := s.legacy[file]];
    LoadedAnyway(c, Storage(Some(p.meta), Undeleted(s.legacy, {})), left, [Converted(s.legacy)], p);
    hide MigrateLoaded;
    MigrateSettles(c, left, [Converted(s.legacy)], p, NoFault);
    OldFiles(file);
    MigrateKeeps(c, left, [Converted(s.legacy)], p, file);
    MigrateKeeps(c, left, [Converted(s.legacy)], p, Versioning);
    GetVersioning(Current(LoadLocked(c, s, NoFault, {file}).storage));
    GetVersioning(p.meta);
  }

  lemma LoadedAnyway(c: Codec, s: Storage, t: Storage, changes: seq<Change>, p: Parsed)
    ensures MigrateLoaded(c, s, changes, p, NoFault).loaded == MigrateLoaded(c, t, changes, p, NoFault).loaded
    ensures MigrateLoaded(c, s, changes, p, NoFault).storage.legacy == s.legacy
  {
    hide ParseAll, Migrate;
  }

  lemma MigrateKeeps(c: Codec, s: Storage, changes: seq<Change>, p: Parsed, file: ConfigFile)
    requires ParseAll(c, p.meta) == Some(p) && Current(s) == p.meta && file != Tagging && file != Protocol
    ensures var t := MigrateLoaded(c, s, changes, p, NoFault).storage;
            Get(Current(t), file) == Get(p.meta, file) && t.legacy == s.legacy
  {
    hide ParseAll, Migrate, Get, ProtocolSettings, TagsOf;
    if Migrate(c, p).Migrated? { MigrationKeepsMeaning(c, p.meta); }
  }

  lemma GetVersioning(m: Metadata)
    ensures Get(m, Versioning) == m.versioning
  {
  }

  lemma OldFiles(file: ConfigFile)
    requires HadOldFile(file)
    ensures file != Protocol && file != Versioning
  {
  }

  lemma OthersStillRead(c: Codec, m: Metadata, file: ConfigFile, data: Data)
    requires OthersRead(c, m) && (data == [] || c.accepts(file, data))
    ensures OthersRead(c, Put(m, file, data))
  {
    hide Put, Get;
    assert forall f :: Get(Put(m, file, data), f) == if f == file then data else Get(m, f) by {
      forall f ensures Get(Put(m, file, data), f) == if f == file then data else Get(m, f) { GetPut(m, file, data, f); }
    }
  }

  lemma GetPut(m: Metadata, file: ConfigFile, data: Data, f: ConfigFile)
    ensures Get(Put(m, file, data), f) == if f == file then data else Get(m, f)
  {
  }

  /** An update of that document can be saved if the document can be read. */
  lemma LeftoverUpdate(c: Codec, m: Metadata, file: ConfigFile, data: Data)
    requires WasSaved(c, m) && HadOldFile(file) && file != Tagging && (data == [] || c.accepts(file, data))
    requires file == ObjectLock ==> m.versioning == ENABLED_VERSIONING
    ensures Apply(c, m, Updated(file, data)) == Some(Put(m, file, data))
  {
    hide ParseTags, ProtocolSettings, OthersRead, Put, Versioned, HadOldFile;
    PutPlain(m, file, data);
    OthersStillRead(c, m, file, data);
  }

  lemma PutPlain(m: Metadata, file: ConfigFile, data: Data)
    requires Versioned(m) == m && HadOldFile(file) && file != Tagging
    requires file == ObjectLock ==> m.versioning == ENABLED_VERSIONING
    ensures var n := Put(m, file, data);
            Versioned(n) == n && n.tagging == m.tagging && n.protocol == m.protocol
  {
    hide HadOldFile;
    OldFiles(file);
  }

  /** The next load puts the old content back, again and again. */
  lemma LeftoverReturns(c: Codec, m: Metadata, file: ConfigFile, data: Data, left: Data)
    requires WasSaved(c, m) && NoFlags(c, m) && HadOldFile(file) && file != Tagging && Get(m, file) == left
    requires file == ObjectLock ==> m.versioning == ENABLED_VERSIONING
    ensures LoadsTo(c, Storage(Some(Put(m, file, data)), map[file := left]), {file},
                    Storage(Some(m), map[file := left]))
  {
    hide ParseAll, Migrate, Convert, Put, Get, Versioned, HadOldFile;
    var legacy := map[file := left];
    assert legacy != map[] by { assert file in legacy; }
    assert Undeleted(legacy, {file}) == legacy;
    ConvertBack(m, file, data);
    ParseMeta(c, m);
  }

  lemma ConvertBack(m: Metadata, file: ConfigFile, data: Data)
    requires HadOldFile(file) && (file == ObjectLock ==> m.versioning == ENABLED_VERSIONING)
    ensures Convert(Put(m, file, data), map[file := Get(m, file)]) == m
  {
    hide HadOldFile;
    OldFiles(file);
  }

  lemma PutBack(m: Metadata, file: ConfigFile)
    ensures Put(m, file, Get(m, file)) == m
  {
  }

  lemma CurrentSaved(m: Metadata, legacy: map<ConfigFile, Data>)
    ensures Current(Storage(Some(m), legacy)) == m
  {
  }

  /** With an old file that cannot be deleted, one update of its document to other content is enough for the
      caches to differ from the saved record after all reloads. */
  lemma LeftoverDiverges(c: Codec, w: World, updates: iset<(ConfigFile, Data)>, stuck: set<ConfigFile>,
                         file: ConfigFile, data: Data, a: nat, b: nat)
    requires Fresh(c, w) && LoadLocked(c, w.storage, NoFault, {}).loaded.Some?
    requires a in w.nodes && b in w.nodes && a != b
    requires file in stuck && file in w.storage.legacy && HadOldFile(file) && file != Tagging
    requires (file, data) in updates && data != w.storage.legacy[file] && (data == [] || c.accepts(file, data))
    ensures !AlwaysConverges(c, w, updates, stuck)
  {
    hide LoadLocked, Apply, WasSaved, NoFlags, LoadsTo, Put, Get, Current;
    LoadKeepsFile(c, w.storage, file);
    var m, left := Current(LoadLocked(c, w.storage, NoFault, {file}).storage), w.storage.legacy[file];
    LeftoverUpdate(c, m, file, data);
    LeftoverReturns(c, m, file, data, left);
    LeftoverReturns(c, m, file, left, left);
    PutBack(m, file);
    GetPut(m, file, data, file);
    CurrentSaved(Put(m, file, data), map[file := left]);
    CurrentSaved(m, map[file := left]);
    hide Fresh;
    var s := Storage(Some(Put(m, file, data)), map[file := left]);
    var steps := UpdateThenReload(c, w, updates, stuck, file, data, {file}, s, s.(saved := Some(m)), a, b);
  }

  /** Public tag updates are refused if a key has the reserved prefix, so they never carry flags. */
  lemma PublicTagsAreSafe(c: Codec, tags: Tags)
    requires forall k :: k in tags ==> !Reserved(k)
    requires MarshalBucketTags(c, tags).Some?
    ensures !Risky(c, MarshalBucketTags(c, tags).value)
  {
    assert Reserved(S3_ENABLED) && Reserved(SFTP_ENABLED);
    if tags != map[] { TagsReadBack(c, tags); }
  }
}
