/** The per-node system that updates and reloads bucket records, and its place in the step system. */
module BucketMetadataSys {
  import opened Common
  import opened BucketTags
  import opened BucketMetadata
  import opened BucketCaches

  const META_BUCKET := ".obstor.sys"

  /** What one update leaves in storage, and the record it caches if it succeeds. */
  function UpdateOutcome(c: Codec, s: Storage, file: ConfigFile, data: Data, fault: Fault, kept: set<ConfigFile>,
                         written: bool): (Storage, Option<Metadata>) {
    var r := LoadLocked(c, s, fault, kept);
    if r.loaded.None? then (r.storage, None)
    else
      var saved := Apply(c, r.loaded.value, Updated(file, data));
      if saved.None? || !written then (r.storage, None) else (r.storage.(saved := saved), saved)
  }

  lemma Overwrite(m: map<string, Storage>, bucket: string, first: Storage, second: Storage)
    ensures m[bucket := first][bucket := second] == m[bucket := second]
  {
  }

  datatype Result = Ok(meta: Metadata) | InvalidArgument | Failure

  class BucketMetadataSys {
    var metadataMap: map<string, Metadata>
    /** The object layer, by bucket. */
    var storage: map<string, Storage>

    constructor (storage: map<string, Storage>)
      ensures metadataMap == map[] && this.storage == storage
    {
      metadataMap, this.storage := map[], storage;
    }

    function StorageOf(bucket: string): Storage
      reads this
    {
      if bucket in storage then storage[bucket] else Storage(None, map[])
    }

    method Remove(bucket: string)
      modifies this`metadataMap
      ensures metadataMap == old(metadataMap) - {bucket}
    {
      metadataMap := metadataMap - {bucket};
    }

    method Set(bucket: string, meta: Metadata)
      modifies this`metadataMap
      ensures metadataMap == if bucket == META_BUCKET then old(metadataMap) else old(metadataMap)[bucket := meta]
    {
      if bucket != META_BUCKET {
        metadataMap := metadataMap[bucket := meta];
      }
    }

    /** Update one document under the lock; `fault`, `kept` and `written` say how storage behaves. */
    method Update(c: Codec, bucket: string, file: ConfigFile, data: Data, fault: Fault, kept: set<ConfigFile>,
                  written: bool)
      returns (r: Result)
      modifies this
      ensures bucket == META_BUCKET ==>
                r == InvalidArgument && storage == old(storage) && metadataMap == old(metadataMap)
      ensures bucket != META_BUCKET ==>
                var outcome := UpdateOutcome(c, old(StorageOf(bucket)), file, data, fault, kept, written);
                && storage == old(storage)[bucket := outcome.0]
                && r == (if outcome.1.Some? then Ok(outcome.1.value) else Failure)
                && metadataMap == (if outcome.1.Some? then old(metadataMap)[bucket := outcome.1.value]
                                   else old(metadataMap))
    {
      hide UpdateOutcome;
      if bucket == META_BUCKET {
        return InvalidArgument;
      }
      r := UpdateLocked(c, bucket, file, data, fault, kept, written);
    }

    method UpdateLocked(c: Codec, bucket: string, file: ConfigFile, data: Data, fault: Fault, kept: set<ConfigFile>,
                        written: bool)
      returns (r: Result)
      requires bucket != META_BUCKET
      modifies this
      ensures var outcome := UpdateOutcome(c, old(StorageOf(bucket)), file, data, fault, kept, written);
              && storage == old(storage)[bucket := outcome.0]
              && r == (if outcome.1.Some? then Ok(outcome.1.value) else Failure)
              && metadataMap == (if outcome.1.Some? then old(metadataMap)[bucket := outcome.1.value]
                                 else old(metadataMap))
    {
      hide LoadLocked, ParseAll, Put;
      var loading := LoadLocked(c, StorageOf(bucket), fault, kept);
      storage := storage[bucket := loading.storage];
      if loading.loaded.None? {
        return Failure;
      }
      var meta := Put(loading.loaded.value, file, data);
      var saved := Save(c, bucket, meta, written);
      if saved.None? {
        return Failure;
      }
      Overwrite(old(storage), bucket, loading.storage, loading.storage.(saved := saved));
      Set(bucket, saved.value);
      return Ok(saved.value);
    }

    /** Parse a record and, if that works, write it. */
    method Save(c: Codec, bucket: string, meta: Metadata, written: bool) returns (saved: Option<Metadata>)
      modifies this`storage
      ensures saved == if ParseAll(c, meta).None? || !written then None else Some(ParseAll(c, meta).value.meta)
      ensures storage == if saved.None? then old(storage)
                         else old(storage)[bucket := old(StorageOf(bucket)).(saved := saved)]
    {
      hide ParseAll;
      var parsed := ParseAll(c, meta);
      if parsed.None? || !written {
        return None;
      }
      saved := Some(parsed.value.meta);
      storage := storage[bucket := StorageOf(bucket).(saved := saved)];
    }

    /** Load under the lock and replace the cached record. */
    method Reload(c: Codec, bucket: string, fault: Fault, kept: set<ConfigFile>) returns (r: Result)
      modifies this
      ensures var loading := LoadLocked(c, old(StorageOf(bucket)), fault, kept);
              && storage == old(storage)[bucket := loading.storage]
              && r == (if loading.loaded.Some? then Ok(loading.loaded.value) else Failure)
              && metadataMap == if loading.loaded.Some? && bucket != META_BUCKET
                                then old(metadataMap)[bucket := loading.loaded.value] else old(metadataMap)
    {
      hide LoadLocked;
      var loading := LoadLocked(c, StorageOf(bucket), fault, kept);
      storage := storage[bucket := loading.storage];
      if loading.loaded.None? {
        return Failure;
      }
      Set(bucket, loading.loaded.value);
      return Ok(loading.loaded.value);
    }

    /** A cached record is returned as it is; a missing one is loaded. */
    method GetConfig(c: Codec, bucket: string, fault: Fault, kept: set<ConfigFile>) returns (r: Result)
      modifies this
      ensures bucket == META_BUCKET ==>
                r == InvalidArgument && storage == old(storage) && metadataMap == old(metadataMap)
      ensures bucket != META_BUCKET && bucket in old(metadataMap) ==>
                r == Ok(old(metadataMap)[bucket]) && storage == old(storage) && metadataMap == old(metadataMap)
      ensures bucket != META_BUCKET && bucket !in old(metadataMap) ==>
                var loading := LoadLocked(c, old(StorageOf(bucket)), fault, kept);
                && storage == old(storage)[bucket := loading.storage]
                && (if loading.loaded.Some? then r.Ok? && metadataMap == old(metadataMap)[bucket := r.meta]
                    else r == Failure && metadataMap == old(metadataMap))
                && (r.Ok? && WasSaved(c, Current(old(StorageOf(bucket)))) ==> r.meta == Current(storage[bucket]))
    {
      hide LoadLocked;
      if bucket == META_BUCKET {
        return InvalidArgument;
      }
      if bucket in metadataMap {
        return Ok(metadataMap[bucket]);
      }
      ghost var before := StorageOf(bucket);
      r := Reload(c, bucket, fault, kept);
      if WasSaved(c, Current(before)) { LoadReturnsStored(c, before, fault, kept); }
    }
  }

  // ---------------------------------------------------------------- the calls are runs of steps

  /** Taking the lock and loading. */
  function BeginSteps(id: nat, node: nat, job: Job, fault: Fault, kept: set<ConfigFile>): seq<Step> {
    [Start(id, node, job), Acquire(id), DoLoad(id, fault, kept)]
  }

  /** Storing the record and, if that works, caching it and letting go of the lock. */
  function EndSteps(id: nat, written: bool, saved: Option<Metadata>): seq<Step> {
    if saved.None? || !written then [DoSave(id, written)] else [DoSave(id, written), DoCache(id), Release(id)]
  }

  /** The steps of one update that nobody interrupts. */
  function UpdateSteps(c: Codec, s: Storage, id: nat, node: nat, file: ConfigFile, data: Data, fault: Fault,
                       kept: set<ConfigFile>, written: bool): seq<Step> {
    var r := LoadLocked(c, s, fault, kept);
    var begin := BeginSteps(id, node, BucketCaches.Update(file, data), fault, kept);
    if r.loaded.None? then begin
    else begin + EndSteps(id, written, Apply(c, r.loaded.value, Updated(file, data)))
  }

  lemma RunsCons(c: Codec, w: World, step: Step, more: seq<Step>)
    requires Enabled(w, step) && Runs(c, Next(c, w, step), more)
    ensures Runs(c, w, [step] + more) && After(c, w, [step] + more) == After(c, Next(c, w, step), more)
  {
    hide Enabled, Next;
    assert ([step] + more)[1..] == more;
  }

  lemma RunsOne(c: Codec, w: World, step: Step)
    requires Enabled(w, step)
    ensures Runs(c, w, [step]) && After(c, w, [step]) == Next(c, w, step)
  {
    hide Enabled, Next;
    assert [step][1..] == [];
  }

  /** The world after an update that started in `w` and caches `saved` if there is one. */
  ghost predicate Ended(w: World, v: World, node: nat, storage: Storage, saved: Option<Metadata>) {
    && v.nodes == w.nodes && v.storage == storage && v.holder == None
    && (saved.None? ==> v.caches == w.caches && v.pending == w.pending)
    && (saved.Some? ==> && v.caches == w.caches[node := Entry(saved.value, |v.log|)]
                        && v.pending == w.pending + (w.nodes - {node}))
  }

  lemma UpdateEnds(c: Codec, w: World, id: nat, written: bool)
    requires Enabled(w, DoSave(id, written))
    ensures var task := w.tasks[id];
            var saved := Apply(c, task.phase.meta, Updated(task.job.file, task.job.data));
            var kept := if written then saved else None;
            && Runs(c, w, EndSteps(id, written, saved))
            && var v := After(c, w, EndSteps(id, written, saved));
               && v.tasks == w.tasks - {id}
               && Ended(w, v, task.node, if kept.Some? then w.storage.(saved := kept) else w.storage, kept)
  {
    hide Apply, Runs, After;
    var task := w.tasks[id];
    var saved := Apply(c, task.phase.meta, Updated(task.job.file, task.job.data));
    RunsOne(c, w, DoSave(id, written));
    if saved.Some? && written {
      var w1 := Next(c, w, DoSave(id, written));
      var w2 := Next(c, w1, DoCache(id));
      RunsOne(c, w2, Release(id));
      RunsCons(c, w1, DoCache(id), [Release(id)]);
      RunsCons(c, w, DoSave(id, written), [DoCache(id)] + [Release(id)]);
      assert [DoSave(id, written)] + ([DoCache(id)] + [Release(id)]) == [DoSave(id, written), DoCache(id), Release(id)];
      assert w2.tasks - {id} == w.tasks - {id};
    }
  }

  lemma UpdateBegins(c: Codec, w: World, id: nat, node: nat, job: Job, fault: Fault, kept: set<ConfigFile>)
    requires w.holder == None && id !in w.tasks && node in w.nodes
    ensures var steps := BeginSteps(id, node, job, fault, kept);
            var r := LoadLocked(c, w.storage, fault, kept);
            && Runs(c, w, steps)
            && var v := After(c, w, steps);
               && v.storage == r.storage && v.caches == w.caches && v.nodes == w.nodes && v.pending == w.pending
               && (if r.loaded.None? then v.holder == None && v.tasks == w.tasks
                   else v.holder == Some(id) && v.tasks == w.tasks[id := Task(node, job, Loaded(r.loaded.value))])
  {
    hide LoadLocked, Runs, After;
    var w1 := Next(c, w, Start(id, node, job));
    var w2 := Next(c, w1, Acquire(id));
    RunsOne(c, w2, DoLoad(id, fault, kept));
    RunsCons(c, w1, Acquire(id), [DoLoad(id, fault, kept)]);
    RunsCons(c, w, Start(id, node, job), [Acquire(id)] + [DoLoad(id, fault, kept)]);
    assert [Start(id, node, job)] + ([Acquire(id)] + [DoLoad(id, fault, kept)]) ==
             BeginSteps(id, node, job, fault, kept);
    assert w.tasks[id := Task(node, job, Waiting)] - {id} == w.tasks;
  }

  /** A call of Update is a run of steps: it leaves the same record in storage, the same record in the
      cache of its node and no other cache changed, and it tells all other nodes to reload. */
  lemma UpdateIsRun(c: Codec, w: World, id: nat, node: nat, file: ConfigFile, data: Data, fault: Fault,
                    kept: set<ConfigFile>, written: bool)
    requires w.holder == None && id !in w.tasks && node in w.nodes
    ensures var steps := UpdateSteps(c, w.storage, id, node, file, data, fault, kept, written);
            var outcome := UpdateOutcome(c, w.storage, file, data, fault, kept, written);
            && Runs(c, w, steps)
            && After(c, w, steps).tasks == w.tasks
            && Ended(w, After(c, w, steps), node, outcome.0, outcome.1)
  {
    hide LoadLocked, Apply, Runs, After, Next, Enabled, BeginSteps, EndSteps;
    var job := BucketCaches.Update(file, data);
    var r := LoadLocked(c, w.storage, fault, kept);
    var begin := BeginSteps(id, node, job, fault, kept);
    UpdateBegins(c, w, id, node, job, fault, kept);
    if r.loaded.Some? {
      var u := After(c, w, begin);
      SaveEnabled(u, id, written);
      UpdateEnds(c, u, id, written);
      RunsTogether(c, w, begin, EndSteps(id, written, Apply(c, r.loaded.value, Updated(file, data))));
      assert u.tasks - {id} == w.tasks;
    }
  }

  /** The steps of one reload that nobody interrupts. */
  function ReloadSteps(c: Codec, s: Storage, id: nat, node: nat, fault: Fault, kept: set<ConfigFile>): seq<Step> {
    var begin := BeginSteps(id, node, BucketCaches.Reload, fault, kept);
    if LoadLocked(c, s, fault, kept).loaded.None? then begin else begin + [DoCache(id), Release(id)]
  }

  lemma ReloadEnds(c: Codec, w: World, id: nat)
    requires Enabled(w, DoCache(id)) && w.tasks[id].job.Reload?
    ensures var node := w.tasks[id].node;
            && Runs(c, w, [DoCache(id), Release(id)])
            && var v := After(c, w, [DoCache(id), Release(id)]);
               && v.nodes == w.nodes && v.storage == w.storage && v.holder == None && v.tasks == w.tasks - {id}
               && v.caches == w.caches[node := Entry(w.tasks[id].phase.meta, |v.log|)]
               && v.pending == w.pending - {node}
  {
    hide Runs, After;
    var w1 := Next(c, w, DoCache(id));
    RunsOne(c, w1, Release(id));
    RunsCons(c, w, DoCache(id), [Release(id)]);
    assert [DoCache(id)] + [Release(id)] == [DoCache(id), Release(id)];
    assert w1.tasks - {id} == w.tasks - {id};
  }

  /** A call of Reload is a run of steps: it leaves the same record in storage; on success the cache of its
      node holds that record and the node need not be told any more, and on failure no cache changes. */
  lemma ReloadIsRun(c: Codec, w: World, id: nat, node: nat, fault: Fault, kept: set<ConfigFile>)
    requires w.holder == None && id !in w.tasks && node in w.nodes
    ensures var steps := ReloadSteps(c, w.storage, id, node, fault, kept);
            var r := LoadLocked(c, w.storage, fault, kept);
            && Runs(c, w, steps)
            && var v := After(c, w, steps);
               && v.nodes == w.nodes && v.tasks == w.tasks && v.holder == None && v.storage == r.storage
               && (if r.loaded.Some? then
                     && v.caches == w.caches[node := Entry(r.loaded.value, |v.log|)]
                     && v.pending == w.pending - {node}
                   else v.caches == w.caches && v.pending == w.pending)
  {
    hide LoadLocked, Runs, After, Next, Enabled, BeginSteps;
    var begin := BeginSteps(id, node, BucketCaches.Reload, fault, kept);
    UpdateBegins(c, w, id, node, BucketCaches.Reload, fault, kept);
    if LoadLocked(c, w.storage, fault, kept).loaded.Some? {
      var u := After(c, w, begin);
      CacheEnabled(u, id);
      ReloadEnds(c, u, id);
      RunsTogether(c, w, begin, [DoCache(id), Release(id)]);
      assert u.tasks - {id} == w.tasks;
    }
  }

  lemma CacheEnabled(w: World, id: nat)
    requires w.holder == Some(id) && id in w.tasks && w.tasks[id].job.Reload? && w.tasks[id].phase.Loaded?
    ensures Enabled(w, DoCache(id))
  {
  }

  lemma SaveEnabled(w: World, id: nat, written: bool)
    requires w.holder == Some(id) && id in w.tasks && w.tasks[id].job.Update? && w.tasks[id].phase.Loaded?
    ensures Enabled(w, DoSave(id, written))
  {
  }
}
