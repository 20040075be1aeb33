/** Updates and reloads of one bucket's record on any number of nodes, interleaved at lock boundaries. */
module BucketCaches {
  import opened Common
  import opened BucketTags
  import opened BucketMetadata

  datatype Job = Update(file: ConfigFile, data: Data) | Reload
  datatype Phase = Waiting | Loaded(meta: Metadata) | Saved(meta: Metadata) | Cached
  datatype Task = Task(node: nat, job: Job, phase: Phase)

  /** A cached record; `at` counts the changes it has seen. */
  datatype Entry = Entry(meta: Metadata, at: nat)

  /** `log` holds the saved changes in order, and `pending` the nodes that were told to reload and have
      not done so yet. */
  datatype World = World(nodes: set<nat>, storage: Storage, holder: Option<nat>, tasks: map<nat, Task>,
                         caches: map<nat, Entry>, log: seq<Change>, pending: set<nat>)

  datatype Step =
    | Start(id: nat, node: nat, job: Job)
    | GiveUp(id: nat)
    | Acquire(id: nat)
    | DoLoad(id: nat, fault: Fault, kept: set<ConfigFile>)
    | DoSave(id: nat, written: bool)
    | DoCache(id: nat)
    | Release(id: nat)
    | Remove(node: nat)

  predicate Holds(w: World, id: nat) {
    w.holder == Some(id) && id in w.tasks
  }

  predicate Enabled(w: World, step: Step) {
    match step
    case Start(id, node, job) => id !in w.tasks && node in w.nodes
    case GiveUp(id) => id in w.tasks && w.tasks[id].phase == Waiting && w.holder != Some(id)
    case Acquire(id) => id in w.tasks && w.tasks[id].phase == Waiting && w.holder == None
    case DoLoad(id, fault, kept) => Holds(w, id) && w.tasks[id].phase == Waiting
    case DoSave(id, written) => Holds(w, id) && w.tasks[id].job.Update? && w.tasks[id].phase.Loaded?
    case DoCache(id) =>
      Holds(w, id) && if w.tasks[id].job.Update? then w.tasks[id].phase.Saved? else w.tasks[id].phase.Loaded?
    case Release(id) => Holds(w, id) && w.tasks[id].phase == Cached
    case Remove(node) => true
  }

  /** The call ends without success and lets go of the lock. */
  function Fail(w: World, id: nat): World {
    w.(holder := None, tasks := w.tasks - {id})
  }

  function Phased(w: World, id: nat, phase: Phase): World
    requires id in w.tasks
  {
    w.(tasks := w.tasks[id := w.tasks[id].(phase := phase)])
  }

  function LoadNext(c: Codec, w: World, id: nat, fault: Fault, kept: set<ConfigFile>): World
    requires id in w.tasks
  {
    var r := LoadLocked(c, w.storage, fault, kept);
    var v := w.(storage := r.storage, log := w.log + r.changes);
    if r.loaded.None? then Fail(v, id) else Phased(v, id, Loaded(r.loaded.value))
  }

  function SaveNext(c: Codec, w: World, id: nat, written: bool): World
    requires id in w.tasks && w.tasks[id].job.Update? && w.tasks[id].phase.Loaded?
  {
    var change := Updated(w.tasks[id].job.file, w.tasks[id].job.data);
    var saved := Apply(c, w.tasks[id].phase.meta, change);
    if saved.None? || !written then Fail(w, id)
    else Phased(w.(storage := w.storage.(saved := saved), log := w.log + [change]), id, Saved(saved.value))
  }

  function CacheNext(w: World, id: nat): World
    requires Enabled(w, DoCache(id))
  {
    var task := w.tasks[id];
    var v := w.(caches := w.caches[task.node := Entry(task.phase.meta, |w.log|)],
                pending := if task.job.Reload? then w.pending - {task.node} else w.pending);
    Phased(v, id, Cached)
  }

  /** After the lock is released the peers of an updating node are told to reload. */
  function ReleaseNext(w: World, id: nat): World
    requires id in w.tasks
  {
    var told := if w.tasks[id].job.Update? then w.nodes - {w.tasks[id].node} else {};
    Fail(w, id).(pending := w.pending + told)
  }

  function Next(c: Codec, w: World, step: Step): World
    requires Enabled(w, step)
  {
    match step
    case Start(id, node, job) => w.(tasks := w.tasks[id := Task(node, job, Waiting)])
    case GiveUp(id) => w.(tasks := w.tasks - {id})
    case Acquire(id) => w.(holder := Some(id))
    case DoLoad(id, fault, kept) => LoadNext(c, w, id, fault, kept)
    case DoSave(id, written) => SaveNext(c, w, id, written)
    case DoCache(id) => CacheNext(w, id)
    case Release(id) => ReleaseNext(w, id)
    case Remove(node) => w.(caches := w.caches - {node})
  }

  predicate Runs(c: Codec, w: World, steps: seq<Step>)
    decreases |steps|
  {
    steps == [] || (Enabled(w, steps[0]) && Runs(c, Next(c, w, steps[0]), steps[1..]))
  }

  function After(c: Codec, w: World, steps: seq<Step>): World
    requires Runs(c, w, steps)
    decreases |steps|
  {
    if steps == [] then w else After(c, Next(c, w, steps[0]), steps[1..])
  }

  /** No task, no cache, and a record that was written by a save. */
  predicate Fresh(c: Codec, w: World) {
    && w.holder == None && w.tasks == map[] && w.caches == map[] && w.log == [] && w.pending == {}
    && WasSaved(c, Current(w.storage))
  }

  // ---------------------------------------------------------------- the invariant

  /** The number of changes up to the last update. */
  function UpdatesUpTo(log: seq<Change>): (n: nat)
    ensures n <= |log|
  {
    if log == [] then 0
    else if log[|log| - 1].Updated? then |log|
    else UpdatesUpTo(log[..|log| - 1])
  }

  /** The saved record is the result of all saved changes in order. */
  ghost predicate StoredOk(c: Codec, init: Metadata, w: World) {
    Replay(c, init, w.log) == Some(Current(w.storage)) && WasSaved(c, Current(w.storage))
  }

  /** Only the holder of the lock is past waiting, and the record it works on is the saved one. */
  ghost predicate LockOk(w: World) {
    && (w.holder.Some? ==> w.holder.value in w.tasks)
    && (forall id :: id in w.tasks ==> w.tasks[id].node in w.nodes)
    && (forall id :: id in w.tasks && w.tasks[id].phase != Waiting ==> w.holder == Some(id))
    && (forall id :: id in w.tasks && (w.tasks[id].phase.Loaded? || w.tasks[id].phase.Saved?) ==>
          w.tasks[id].phase.meta == Current(w.storage))
  }

  ghost predicate CachesOk(c: Codec, init: Metadata, log: seq<Change>, caches: map<nat, Entry>) {
    forall n :: n in caches ==> caches[n].at <= |log| && Replay(c, init, log[..caches[n].at]) == Some(caches[n].meta)
  }

  /** Node `n` is about to learn of the last update: it was told, or the update is not finished. */
  ghost predicate WillLearn(w: World, n: nat) {
    || n in w.pending
    || (&& w.holder.Some? && w.holder.value in w.tasks
        && var task := w.tasks[w.holder.value];
           task.job.Update? && (task.phase.Saved? || (task.phase == Cached && n != task.node)))
  }

  ghost predicate ToldOk(w: World) {
    forall n :: n in w.caches ==> n in w.nodes && (w.caches[n].at >= UpdatesUpTo(w.log) || WillLearn(w, n))
  }

  ghost predicate Inv(c: Codec, init: Metadata, w: World) {
    StoredOk(c, init, w) && LockOk(w) && CachesOk(c, init, w.log, w.caches) && ToldOk(w)
  }

  // ---------------------------------------------------------------- every step keeps it

  lemma ReplayGrows(c: Codec, init: Metadata, log: seq<Change>, more: seq<Change>)
    requires Replay(c, init, log).Some? && Replay(c, Replay(c, init, log).value, more).Some?
    ensures Replay(c, init, log + more) == Replay(c, Replay(c, init, log).value, more)
    decreases |more|
  {
    hide Apply, Replay;
    if more == [] {
      ReplayNothing(c, Replay(c, init, log).value);
      assert log + more == log;
    } else {
      var less, change := more[..|more| - 1], more[|more| - 1];
      var m := Replay(c, init, log).value;
      assert more == less + [change];
      ReplayLess(c, m, less, change);
      ReplayGrows(c, init, log, less);
      ReplaySnoc(c, init, log + less, change);
      ReplaySnoc(c, m, less, change);
      assert log + more == (log + less) + [change];
    }
  }

  lemma ReplayLess(c: Codec, m: Metadata, less: seq<Change>, change: Change)
    requires Replay(c, m, less + [change]).Some?
    ensures Replay(c, m, less).Some?
  {
    hide Apply;
    assert (less + [change])[..|less|] == less;
  }

  lemma CachesGrow(c: Codec, init: Metadata, log: seq<Change>, more: seq<Change>, caches: map<nat, Entry>)
    requires CachesOk(c, init, log, caches)
    ensures CachesOk(c, init, log + more, caches)
  {
    hide Replay;
    forall n | n in caches
      ensures (log + more)[..caches[n].at] == log[..caches[n].at]
    {
    }
  }

  lemma {:induction false} NoUpdates(log: seq<Change>, more: seq<Change>)
    requires forall i :: 0 <= i < |more| ==> !more[i].Updated?
    ensures UpdatesUpTo(log + more) == UpdatesUpTo(log)
    decreases |more|
  {
    if more == [] {
      assert log + more == log;
    } else {
      NoUpdates(log, more[..|more| - 1]);
      assert (log + more)[..|log + more| - 1] == log + more[..|more| - 1];
    }
  }

  lemma LoadHasNoUpdates(c: Codec, s: Storage, fault: Fault, kept: set<ConfigFile>, i: nat)
    requires i < |LoadLocked(c, s, fault, kept).changes|
    ensures !LoadLocked(c, s, fault, kept).changes[i].Updated?
  {
    hide ParseAll, Migrate;
  }

  lemma LoadKeeps(c: Codec, init: Metadata, w: World, id: nat, fault: Fault, kept: set<ConfigFile>)
    requires Inv(c, init, w) && Holds(w, id) && w.tasks[id].phase == Waiting
    ensures Inv(c, init, LoadNext(c, w, id, fault, kept))
  {
    hide LoadLocked, Replay, CachesOk, WasSaved, UpdatesUpTo, Current;
    var r := LoadLocked(c, w.storage, fault, kept);
    LoadReturnsStored(c, w.storage, fault, kept);
    ReplayGrows(c, init, w.log, r.changes);
    CachesGrow(c, init, w.log, r.changes, w.caches);
    forall i | 0 <= i < |r.changes| ensures !r.changes[i].Updated? { LoadHasNoUpdates(c, w.storage, fault, kept, i); }
    NoUpdates(w.log, r.changes);
    assert LockOk(LoadNext(c, w, id, fault, kept)) by { hide WillLearn; }
  }

  lemma SavedIsUpdated(log: seq<Change>, change: Change)
    requires change.Updated?
    ensures UpdatesUpTo(log + [change]) == |log| + 1
  {
  }

  lemma AppliedIsSaved(c: Codec, m: Metadata, change: Change)
    requires Apply(c, m, change).Some?
    ensures WasSaved(c, Apply(c, m, change).value)
  {
    hide ParseAll, WasSaved;
    ParsedIsSaved(c, Draft(c, m, change).value);
  }

  lemma SaveKeeps(c: Codec, init: Metadata, w: World, id: nat, written: bool)
    requires Inv(c, init, w) && Enabled(w, DoSave(id, written))
    ensures Inv(c, init, SaveNext(c, w, id, written))
  {
    hide Replay, CachesOk, WasSaved, UpdatesUpTo, Apply;
    var change := Updated(w.tasks[id].job.file, w.tasks[id].job.data);
    ReplaySnoc(c, init, w.log, change);
    CachesGrow(c, init, w.log, [change], w.caches);
    SavedIsUpdated(w.log, change);
    if Apply(c, Current(w.storage), change).Some? { AppliedIsSaved(c, Current(w.storage), change); }
  }

  lemma CacheKeeps(c: Codec, init: Metadata, w: World, id: nat)
    requires Inv(c, init, w) && Enabled(w, DoCache(id))
    ensures Inv(c, init, CacheNext(w, id))
  {
    hide Replay, WasSaved, UpdatesUpTo, Current;
    assert w.log[..|w.log|] == w.log;
  }

  lemma StepKeeps(c: Codec, init: Metadata, w: World, step: Step)
    requires Inv(c, init, w) && Enabled(w, step)
    ensures Inv(c, init, Next(c, w, step))
  {
    hide Replay, WasSaved, UpdatesUpTo, Current, LoadNext, SaveNext, CacheNext;
    match step
    case Start(id, node, job) =>
    case GiveUp(id) =>
    case Acquire(id) =>
    case DoLoad(id, fault, kept) => LoadKeeps(c, init, w, id, fault, kept);
    case DoSave(id, written) => SaveKeeps(c, init, w, id, written);
    case DoCache(id) => CacheKeeps(c, init, w, id);
    case Release(id) =>
    case Remove(node) =>
  }

  lemma {:induction false} RunKeeps(c: Codec, init: Metadata, w: World, steps: seq<Step>)
    requires Inv(c, init, w) && Runs(c, w, steps)
    ensures Inv(c, init, After(c, w, steps))
    decreases |steps|
  {
    hide Inv, Enabled, Next;
    if steps == [] {
    } else {
      StepKeeps(c, init, w, steps[0]);
      RunKeeps(c, init, Next(c, w, steps[0]), steps[1..]);
    }
  }

  lemma FreshInv(c: Codec, w: World)
    requires Fresh(c, w)
    ensures Inv(c, Current(w.storage), w)
  {
  }

  // ---------------------------------------------------------------- caches go forward

  lemma StepForward(c: Codec, w: World, step: Step, n: nat)
    requires Enabled(w, step)
    ensures w.log <= Next(c, w, step).log
    ensures n in Next(c, w, step).caches ==>
              || Next(c, w, step).caches[n].at == |Next(c, w, step).log|
              || (n in w.caches && Next(c, w, step).caches[n] == w.caches[n])
  {
    hide LoadLocked, Apply;
  }

  /** A node that has a cached record later has one that is at least as new, also if it was dropped in
      between. */
  lemma {:induction false} CachesGoForward(c: Codec, init: Metadata, w: World, steps: seq<Step>, n: nat, at: nat)
    requires Inv(c, init, w) && Runs(c, w, steps) && at <= |w.log|
    requires n in w.caches ==> at <= w.caches[n].at
    ensures w.log <= After(c, w, steps).log
    ensures n in After(c, w, steps).caches ==> at <= After(c, w, steps).caches[n].at
    decreases |steps|
  {
    hide Inv, Enabled, Next;
    if steps == [] {
    } else {
      StepForward(c, w, steps[0], n);
      StepKeeps(c, init, w, steps[0]);
      CachesGoForward(c, init, Next(c, w, steps[0]), steps[1..], n, at);
    }
  }

  /** In every interleaving each cached record is the outcome of some first part of the changes, and in
      every continuation that part only grows. */
  lemma CachedCopiesMoveForward(c: Codec, w: World, first: seq<Step>, later: seq<Step>, n: nat)
    requires Fresh(c, w) && Runs(c, w, first) && Runs(c, After(c, w, first), later)
    requires n in After(c, w, first).caches && n in After(c, After(c, w, first), later).caches
    ensures var u := After(c, w, first);
            var v := After(c, u, later);
            && u.caches[n].at <= v.caches[n].at <= |v.log|
            && u.log <= v.log
            && Replay(c, Current(w.storage), v.log[..v.caches[n].at]) == Some(v.caches[n].meta)
            && Replay(c, Current(w.storage), v.log[..u.caches[n].at]) == Some(u.caches[n].meta)
  {
    hide Runs, After, Replay, Current;
    FreshInv(c, w);
    var u := After(c, w, first);
    RunKeeps(c, Current(w.storage), w, first);
    RunKeeps(c, Current(w.storage), u, later);
    CachesGoForward(c, Current(w.storage), u, later, n, u.caches[n].at);
    assert After(c, u, later).log[..u.caches[n].at] == u.log[..u.caches[n].at];
  }

  // ---------------------------------------------------------------- caches converge

  /** Nobody is working on the record and every node that was told to reload has done so. */
  predicate Served(w: World) {
    w.holder == None && w.pending == {}
  }

  /** When the reloads are served, every cache is at or past the last update, so it differs from the saved
      record only if a load has saved a change since. */
  lemma ServedCaches(c: Codec, w: World, steps: seq<Step>, n: nat)
    requires Fresh(c, w) && Runs(c, w, steps)
    requires Served(After(c, w, steps)) && n in After(c, w, steps).caches
    ensures var v := After(c, w, steps);
            && v.caches[n].at >= UpdatesUpTo(v.log)
            && (UpdatesUpTo(v.log) == |v.log| ==> v.caches[n].meta == Current(v.storage))
  {
    hide Runs, After, Replay, Current, UpdatesUpTo;
    FreshInv(c, w);
    var v := After(c, w, steps);
    RunKeeps(c, Current(w.storage), w, steps);
    assert v.log[..|v.log|] == v.log;
  }

  lemma {:induction false} RunsTogether(c: Codec, w: World, first: seq<Step>, later: seq<Step>)
    requires Runs(c, w, first) && Runs(c, After(c, w, first), later)
    ensures Runs(c, w, first + later) && After(c, w, first + later) == After(c, After(c, w, first), later)
    decreases |first|
  {
    hide Enabled, Next;
    if first == [] {
      assert first + later == later;
    } else {
      assert (first + later)[1..] == first[1..] + later;
      RunsTogether(c, Next(c, w, first[0]), first[1..], later);
    }
  }
}
