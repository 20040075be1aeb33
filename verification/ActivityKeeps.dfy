/** Flushing and pruning keep the names, the prefixes and the places of events. */
module ActivityKeeps {
  import opened ActivityTypes
  import opened ActivitySteps
  import opened ActivityInvariant

  // ---------------------------------------------------------------- the pending list

  /** Dropping a stretch of the pending list. */
  function Without(q: seq<Segment>, i: nat, j: nat): seq<Segment>
    requires i <= j <= |q|
  {
    q[..i] + q[j..]
  }

  lemma WithoutMembers(q: seq<Segment>, i: nat, j: nat)
    requires i <= j <= |q|
    ensures forall s :: s in Without(q, i, j) ==> s in q
    ensures forall s :: s in q ==> s in Without(q, i, j) || s in q[i..j]
  {
    assert q == q[..i] + q[i..j] + q[j..];
  }

  lemma WithoutLive(q: seq<Segment>, i: nat, j: nat, c: Ctx)
    requires i <= j <= |q| && AllLive(q, c)
    ensures AllLive(Without(q, i, j), c)
  {
    WithoutMembers(q, i, j);
  }

  lemma WithoutOrder(q: seq<Segment>, i: nat, j: nat)
    requires i <= j <= |q| && InOrder(q)
    ensures InOrder(Without(q, i, j))
  {
    var r := Without(q, i, j);
    assert forall a :: 0 <= a < |r| ==> r[a] == q[if a < i then a else a + j - i];
  }

  lemma WithoutLocated(hist: seq<Event>, open: Segment, q: seq<Segment>, i: nat, j: nat, disk: map<nat, Segment>,
                       disk': map<nat, Segment>, pruned: set<Event>, lost: seq<Event>, lost': seq<Event>)
    requires i <= j <= |q|
    requires LocatedOk(hist, open, q, disk, pruned, lost)
    requires forall e :: OnDisk(disk, e) ==> OnDisk(disk', e)
    requires forall e :: e in lost ==> e in lost'
    requires forall s, e :: s in q[i..j] && e in s ==> e in lost' || OnDisk(disk', e)
    ensures LocatedOk(hist, open, Without(q, i, j), disk', pruned, lost')
  {
    WithoutMembers(q, i, j);
    forall e | e in hist ensures Located(e, open, Without(q, i, j), disk', pruned, lost') {
      assert Located(e, open, q, disk, pruned, lost);
      if InPending(q, e) {
        var s :| s in q && e in s;
        assert s in Without(q, i, j) || s in q[i..j];
      }
    }
  }

  // ---------------------------------------------------------------- begin and end of a flush

  lemma BeginCopy(l: Log, c: Ctx)
    requires OpenOk(l, c) && (l.open != [] ==> AllBelow(l.sealed, l.openFirst))
    ensures CopyOk(Begun(l, c.disk), BeginFlush(l), c)
  {
    assert [] + l.sealed == l.sealed;
  }

  lemma BeginSegments(w: World)
    requires Enabled(w, FlushBegin) && w.proc.log.persist && OpenPartOk(w) && QueueOk(w)
    ensures OpenPartOk(Next(w, FlushBegin))
    ensures QueueOk(Next(w, FlushBegin))
  {
    hide LiveOk, NamesOk, NextOk, CopyOk, AllLive, InOrder, AllBelow;
    BeginCopy(w.proc.log, CtxOf(w));
    assert Pending(Next(w, FlushBegin).proc) == Pending(w.proc);
  }

  lemma BeginPlaces(w: World)
    requires Enabled(w, FlushBegin) && w.proc.log.persist && PlacesOk(w)
    ensures PlacesOk(Next(w, FlushBegin))
  {
    hide LocatedOk;
    assert Pending(Next(w, FlushBegin).proc) == Pending(w.proc);
  }

  lemma BeginKeeps(w: World)
    requires BaseInv(w) && Persistent(w) && Enabled(w, FlushBegin)
    ensures BaseInv(Next(w, FlushBegin))
  {
    hide OpenPartOk, QueueOk, PlacesOk, FilesOk;
    BeginSegments(w);
    BeginPlaces(w);
  }

  lemma EndQueue(w: World)
    requires Enabled(w, FlushEnd)
    ensures var q := Pending(w.proc);
            && q == w.proc.flush.retry + w.proc.log.sealed
            && q[0..Extra(q)] == q[..Extra(q)]
            && Pending(Next(w, FlushEnd).proc) == Without(q, 0, Extra(q))
  {
  }

  lemma EndSegments(w: World)
    requires Enabled(w, FlushEnd) && OpenPartOk(w) && QueueOk(w)
    ensures OpenPartOk(Next(w, FlushEnd))
    ensures QueueOk(Next(w, FlushEnd))
  {
    hide LiveOk, NamesOk, NextOk, InOrder;
    var q := Pending(w.proc);
    EndQueue(w);
    WithoutMembers(q, 0, Extra(q));
    WithoutOrder(q, 0, Extra(q));
    FlattenTotal(q[..Extra(q)]);
  }

  lemma EndPlaces(w: World)
    requires Enabled(w, FlushEnd) && PlacesOk(w)
    ensures PlacesOk(Next(w, FlushEnd))
  {
    var v := Next(w, FlushEnd);
    var q := Pending(w.proc);
    var n := Extra(q);
    EndQueue(w);
    forall s, e | s in q[0..n] && e in s ensures e in v.proc.log.lost { FlattenHas(q[..n], e); }
    WithoutLocated(w.proc.log.hist, w.proc.log.open, q, 0, n, w.disk, v.disk, w.proc.pruned,
                   w.proc.log.lost, v.proc.log.lost);
  }

  lemma EndKeeps(w: World)
    requires BaseInv(w) && Persistent(w) && Enabled(w, FlushEnd)
    ensures BaseInv(Next(w, FlushEnd))
  {
    hide OpenPartOk, QueueOk, PlacesOk, FilesOk;
    EndSegments(w);
    EndPlaces(w);
  }

  // ---------------------------------------------------------------- the list of file names

  lemma InsertShape(names: seq<nat>, first: nat)
    ensures var i := Position(names, first);
            var r := InsertName(names, first);
            || (r == names && first in names)
            || (&& |r| == |names| + 1 && r[i] == first
                && (forall k :: 0 <= k < i ==> r[k] == names[k])
                && (forall k :: i < k < |r| ==> r[k] == names[k - 1]))
  {
  }

  lemma InsertMembers(names: seq<nat>, first: nat)
    ensures forall k :: k in InsertName(names, first) <==> k == first || k in names
  {
    var i := Position(names, first);
    assert names == names[..i] + names[i..];
  }

  lemma InsertOrder(names: seq<nat>, first: nat)
    requires Increasing(names)
    ensures Increasing(InsertName(names, first))
  {
    InsertShape(names, first);
  }

  // ---------------------------------------------------------------- saving a segment

  lemma SaveNames(names: seq<nat>, disk: map<nat, Segment>, first: nat, s: Segment)
    requires NamesOk(names, disk)
    ensures NamesOk(InsertName(names, first), disk[first := s])
  {
    InsertMembers(names, first);
    InsertOrder(names, first);
  }

  lemma SaveOnDisk(disk: map<nat, Segment>, first: nat, s: Segment, e: Event)
    requires first in disk ==> disk[first] <= s
    requires OnDisk(disk, e) || e in s
    ensures OnDisk(disk[first := s], e)
  {
    var disk' := disk[first := s];
    if e in s {
      assert e in disk'[first];
    } else {
      var k :| k in disk && e in disk[k];
      assert e in disk'[k];
    }
  }

  /** Saving `s` leaves a segment of another name, or an extension of `s`, as it was. */
  lemma SaveLive(c: Ctx, first: nat, s: Segment, a: nat, t: Segment)
    requires LiveOk(a, t, c)
    requires a == first ==> s <= t
    ensures LiveOk(a, t, c.(disk := c.disk[first := s]))
  {
  }

  lemma TodoSplit(retry: seq<Segment>, todo: seq<Segment>, sealed: seq<Segment>)
    requires todo != []
    ensures var q := retry + todo + sealed;
            && |retry| < |q| && q[|retry|] == todo[0] && q[|retry|..|retry| + 1] == [todo[0]]
            && retry + todo[1..] + sealed == Without(q, |retry|, |retry| + 1)
            && retry + [todo[0]] + todo[1..] + sealed == q
  {
  }

  lemma TodoHead(w: World, ok: bool)
    requires Enabled(w, WriteSealed(ok))
    ensures var f := w.proc.flush;
            var q := Pending(w.proc);
            && |f.retry| < |q| && q[|f.retry|] == f.todo[0]
            && q[|f.retry|..|f.retry| + 1] == [f.todo[0]]
            && Pending(Next(w, WriteSealed(ok)).proc) ==
                 if ok then Without(q, |f.retry|, |f.retry| + 1) else q
  {
    hide InsertName, First, Without;
    TodoSplit(w.proc.flush.retry, w.proc.flush.todo, w.proc.log.sealed);
  }

  lemma WriteSealedLocated(w: World)
    requires Enabled(w, WriteSealed(true)) && AllLive(Pending(w.proc), CtxOf(w)) && EventsLocated(w)
    ensures EventsLocated(Next(w, WriteSealed(true)))
  {
    var v := Next(w, WriteSealed(true));
    var f := w.proc.flush;
    var q := Pending(w.proc);
    var i := |f.retry|;
    var s := f.todo[0];
    TodoHead(w, true);
    assert s in q;
    forall e | OnDisk(w.disk, e) || e in s ensures OnDisk(v.disk, e) { SaveOnDisk(w.disk, First(s), s, e); }
    WithoutLocated(w.proc.log.hist, w.proc.log.open, q, i, i + 1, w.disk, v.disk, w.proc.pruned,
                   w.proc.log.lost, v.proc.log.lost);
  }

  lemma QueueAfterSave(q: seq<Segment>, i: nat, c: Ctx)
    requires i < |q| && AllLive(q, c) && InOrder(q)
    ensures AllLive(Without(q, i, i + 1), c.(disk := c.disk[First(q[i]) := q[i]]))
    ensures InOrder(Without(q, i, i + 1))
  {
    var r := Without(q, i, i + 1);
    WithoutOrder(q, i, i + 1);
    forall t | t in r ensures LiveOk(First(t), t, c.(disk := c.disk[First(q[i]) := q[i]])) {
      var k :| 0 <= k < |r| && r[k] == t;
      assert t == q[if k < i then k else k + 1];
      SaveLive(c, First(q[i]), q[i], First(t), t);
    }
  }

  lemma OpenAfterSave(l: Log, c: Ctx, first: nat, s: Segment, names: seq<nat>)
    requires OpenOk(l, c)
    requires l.open != [] ==> first <= l.openFirst && (first == l.openFirst ==> s <= l.open)
    ensures OpenOk(l.(segments := names), c.(disk := c.disk[first := s]))
  {
    if l.open != [] { SaveLive(c, first, s, l.openFirst, l.open); }
  }

  lemma WriteSealedCopy(f: FlushState, l: Log, c: Ctx, names: seq<nat>, all: set<nat>)
    requires f.Flushing? && f.todo != [] && CopyOk(f, l, c)
    ensures CopyOk(f.(todo := f.todo[1..], names := all), l.(segments := names),
                   c.(disk := c.disk[First(f.todo[0]) := f.todo[0]]))
  {
    var s := f.todo[0];
    if f.copy != [] {
      assert s in f.retry + f.todo;
      SaveLive(c, First(s), s, f.copyFirst, f.copy);
    }
  }

  lemma WriteSealedDirty(f: FlushState, l: Log, disk: map<nat, Segment>, names: seq<nat>, all: set<nat>)
    requires f.Flushing? && f.todo != [] && DirtyOk(f, l, disk)
    requires l.open != [] ==> First(f.todo[0]) < l.openFirst
    ensures DirtyOk(f.(todo := f.todo[1..], names := all), l.(segments := names),
                    disk[First(f.todo[0]) := f.todo[0]])
  {
  }

  lemma WriteSealedOpen(w: World)
    requires Enabled(w, WriteSealed(true)) && OpenPartOk(w) && QueueOk(w)
    ensures OpenPartOk(Next(w, WriteSealed(true)))
  {
    hide LiveOk, NamesOk, OpenOk, CopyOk, DirtyOk, InOrder;
    var v := Next(w, WriteSealed(true));
    var c := CtxOf(w);
    var l := w.proc.log;
    var f := w.proc.flush;
    var s := f.todo[0];
    TodoHead(w, true);
    assert s in Pending(w.proc);
    assert CtxOf(v) == c.(disk := c.disk[First(s) := s]);
    SaveNames(l.segments, w.disk, First(s), s);
    OpenAfterSave(l, c, First(s), s, v.proc.log.segments);
    WriteSealedCopy(f, l, c, v.proc.log.segments, v.proc.flush.names);
    WriteSealedDirty(f, l, w.disk, v.proc.log.segments, v.proc.flush.names);
  }

  lemma WriteSealedQueue(w: World)
    requires Enabled(w, WriteSealed(true)) && QueueOk(w)
    ensures QueueOk(Next(w, WriteSealed(true)))
  {
    hide AllLive, InOrder, AllBelow, Pending, Without, InsertName, First;
    var v := Next(w, WriteSealed(true));
    var f := w.proc.flush;
    var q := Pending(w.proc);
    TodoHead(w, true);
    QueueAfterSave(q, |f.retry|, CtxOf(w));
    assert CtxOf(v) == CtxOf(w).(disk := v.disk);
    WithoutMembers(q, |f.retry|, |f.retry| + 1);
    PartBelow(Pending(v.proc), q, w.proc.log.next);
    PartBelow(Pending(v.proc), q, w.proc.log.openFirst);
  }

  lemma PartBelow(part: seq<Segment>, q: seq<Segment>, first: nat)
    requires forall s :: s in part ==> s in q
    ensures AllBelow(q, first) ==> AllBelow(part, first)
  {
  }

  lemma SaveFlushNames(f: FlushState, names: seq<nat>, disk: map<nat, Segment>, first: nat, s: Segment,
                       f': FlushState, names': seq<nat>)
    requires f.Flushing? && !WritesDone(f) && FlushNamesOk(f, names, disk)
    requires f'.Flushing? && f'.names == f.names + {first}
    ensures FlushNamesOk(f', names', disk[first := s])
  {
    assert disk[first := s].Keys == disk.Keys + {first};
  }

  lemma WriteSealedPlaces(w: World)
    requires Enabled(w, WriteSealed(true)) && QueueOk(w) && PlacesOk(w) && FilesOk(w.disk)
    ensures PlacesOk(Next(w, WriteSealed(true)))
    ensures FilesOk(Next(w, WriteSealed(true)).disk)
  {
    hide InOrder, AllBelow, LocatedOk, FlushNamesOk;
    var s := w.proc.flush.todo[0];
    TodoHead(w, true);
    assert s in Pending(w.proc);
    WriteSealedLocated(w);
    var v := Next(w, WriteSealed(true));
    SaveFlushNames(w.proc.flush, w.proc.log.segments, w.disk, First(s), s, v.proc.flush, v.proc.log.segments);
  }

  lemma WriteSealedFails(w: World)
    requires Enabled(w, WriteSealed(false)) && ProcessOk(w)
    ensures ProcessOk(Next(w, WriteSealed(false)))
  {
    hide LiveOk, NamesOk, NextOk, OpenOk, AllLive, InOrder, AllBelow, LocatedOk, OpenSaved;
    var f := w.proc.flush;
    TodoHead(w, false);
    assert f.retry + [f.todo[0]] + f.todo[1..] == f.retry + f.todo;
  }

  lemma WriteSealedKeeps(w: World, ok: bool)
    requires BaseInv(w) && Persistent(w) && Enabled(w, WriteSealed(ok))
    ensures BaseInv(Next(w, WriteSealed(ok)))
  {
    hide OpenPartOk, QueueOk, PlacesOk, FilesOk;
    if ok {
      WriteSealedOpen(w);
      WriteSealedQueue(w);
      WriteSealedPlaces(w);
    } else {
      WriteSealedFails(w);
    }
  }

  // ---------------------------------------------------------------- saving the copy of the open segment

  lemma WriteCopyDirty(f: FlushState, l: Log, c: Ctx, f': FlushState, names: seq<nat>)
    requires CopyOk(f, l, c) && DirtyOk(f, l, c.disk)
    requires f.Flushing? && f.copy != [] && f'.Flushing? && f'.copyFailed == f.copyFailed
    ensures DirtyOk(f', l.(segments := names), c.disk[f.copyFirst := f.copy])
  {
    if !l.dirty && l.open != [] && l.openFirst == f.copyFirst && OpenSaved(l, c.disk) {
      assert l.open <= f.copy <= l.open;
    }
  }

  lemma WriteCopyOpen(w: World)
    requires Enabled(w, WriteCopy(true)) && OpenPartOk(w)
    ensures OpenPartOk(Next(w, WriteCopy(true)))
  {
    hide LiveOk, NamesOk, OpenOk, DirtyOk;
    var v := Next(w, WriteCopy(true));
    var c := CtxOf(w);
    var f := w.proc.flush;
    assert CtxOf(v) == c.(disk := c.disk[f.copyFirst := f.copy]);
    SaveNames(w.proc.log.segments, w.disk, f.copyFirst, f.copy);
    OpenAfterSave(w.proc.log, c, f.copyFirst, f.copy, v.proc.log.segments);
    WriteCopyDirty(f, w.proc.log, c, v.proc.flush, v.proc.log.segments);
  }

  lemma WriteCopyQueue(w: World)
    requires Enabled(w, WriteCopy(true)) && OpenPartOk(w) && QueueOk(w)
    ensures QueueOk(Next(w, WriteCopy(true)))
  {
    hide LiveOk, NamesOk, NextOk, OpenOk, DirtyOk, InOrder;
    var v := Next(w, WriteCopy(true));
    var c := CtxOf(w);
    var f := w.proc.flush;
    assert Pending(v.proc) == Pending(w.proc);
    assert CtxOf(v) == c.(disk := v.disk);
    forall t | t in Pending(w.proc) ensures LiveOk(First(t), t, CtxOf(v)) {
      assert t in f.retry + f.todo || t in w.proc.log.sealed;
      SaveLive(c, f.copyFirst, f.copy, First(t), t);
    }
  }

  lemma WriteCopyPlaces(w: World)
    requires Enabled(w, WriteCopy(true)) && OpenPartOk(w) && PlacesOk(w) && FilesOk(w.disk)
    ensures PlacesOk(Next(w, WriteCopy(true)))
    ensures FilesOk(Next(w, WriteCopy(true)).disk)
  {
    hide NamesOk, NextOk, OpenOk, DirtyOk, FlushNamesOk, AllBelow;
    var v := Next(w, WriteCopy(true));
    var f := w.proc.flush;
    SaveFlushNames(f, w.proc.log.segments, w.disk, f.copyFirst, f.copy, v.proc.flush, v.proc.log.segments);
    forall e | e in v.proc.log.hist
      ensures Located(e, v.proc.log.open, Pending(v.proc), v.disk, v.proc.pruned, v.proc.log.lost)
    {
      assert Located(e, w.proc.log.open, Pending(w.proc), w.disk, w.proc.pruned, w.proc.log.lost);
      if OnDisk(w.disk, e) { SaveOnDisk(w.disk, f.copyFirst, f.copy, e); }
    }
  }

  lemma WriteCopyFails(w: World)
    requires Enabled(w, WriteCopy(false)) && ProcessOk(w)
    ensures ProcessOk(Next(w, WriteCopy(false)))
  {
    hide LiveOk, NamesOk, NextOk, OpenOk, AllLive, InOrder, AllBelow, LocatedOk, OpenSaved;
    assert Pending(Next(w, WriteCopy(false)).proc) == Pending(w.proc);
  }

  lemma WriteCopyKeeps(w: World, ok: bool)
    requires BaseInv(w) && Persistent(w) && Enabled(w, WriteCopy(ok))
    ensures BaseInv(Next(w, WriteCopy(ok)))
  {
    hide OpenPartOk, QueueOk, PlacesOk, FilesOk;
    if ok {
      WriteCopyOpen(w);
      WriteCopyQueue(w);
      WriteCopyPlaces(w);
    } else {
      WriteCopyFails(w);
    }
  }

  // ---------------------------------------------------------------- pruning

  lemma PruneNamesOk(names: seq<nat>, disk: map<nat, Segment>)
    requires NamesOk(names, disk) && names != []
    ensures NamesOk(names[1..], disk - {names[0]})
  {
    assert names == [names[0]] + names[1..];
  }

  lemma PruneLive(q: seq<Segment>, c: Ctx, k: nat)
    requires AllLive(q, c)
    ensures AllLive(q, c.(disk := c.disk - {k}))
  {
    forall s | s in q ensures LiveOk(First(s), s, c.(disk := c.disk - {k})) { assert LiveOk(First(s), s, c); }
  }

  lemma PruneOpen(f: FlushState, l: Log, c: Ctx)
    requires NamesOk(l.segments, c.disk) && OpenOk(l, c) && CopyOk(f, l, c) && DirtyOk(f, l, c.disk)
    requires |l.segments| > SEGMENTS_KEPT
    ensures var c' := c.(disk := c.disk - {l.segments[0]});
            var l' := l.(segments := l.segments[1..]);
            OpenOk(l', c') && CopyOk(f, l', c') && DirtyOk(f, l', c'.disk)
  {
    assert l.segments[1] in c.disk;
  }

  lemma PruneSegments(w: World)
    requires Enabled(w, Prune(true)) && OpenPartOk(w) && QueueOk(w)
    ensures OpenPartOk(Next(w, Prune(true)))
    ensures QueueOk(Next(w, Prune(true)))
  {
    hide LiveOk, NamesOk, OpenOk, CopyOk, DirtyOk, AllLive, InOrder, AllBelow;
    var l := w.proc.log;
    assert CtxOf(Next(w, Prune(true))) == CtxOf(w).(disk := w.disk - {l.segments[0]});
    PruneNamesOk(l.segments, w.disk);
    PruneLive(Pending(w.proc), CtxOf(w), l.segments[0]);
    PruneOpen(w.proc.flush, l, CtxOf(w));
  }

  lemma PruneLocated(w: World)
    requires Enabled(w, Prune(true)) && EventsLocated(w)
    ensures EventsLocated(Next(w, Prune(true)))
  {
    var v := Next(w, Prune(true));
    forall e | e in v.proc.log.hist
      ensures Located(e, v.proc.log.open, Pending(v.proc), v.disk, v.proc.pruned, v.proc.log.lost)
    {
      assert Located(e, w.proc.log.open, Pending(w.proc), w.disk, w.proc.pruned, w.proc.log.lost);
      if OnDisk(w.disk, e) {
        var k :| k in w.disk && e in w.disk[k];
        assert k in v.disk || e in v.proc.pruned;
      }
    }
  }

  lemma PruneNames(f: FlushState, names: seq<nat>, disk: map<nat, Segment>)
    requires NamesOk(names, disk) && FlushNamesOk(f, names, disk) && |names| > SEGMENTS_KEPT && WritesDone(f)
    ensures FlushNamesOk(f, names[1..], disk - {names[0]})
  {
    assert (disk - {names[0]}).Keys == disk.Keys - {names[0]};
  }

  lemma PruneFails(w: World)
    requires Enabled(w, Prune(false)) && ProcessOk(w)
    ensures ProcessOk(Next(w, Prune(false)))
  {
    hide LiveOk, NamesOk, NextOk, OpenOk, AllLive, InOrder, AllBelow, LocatedOk, OpenSaved;
    assert Pending(Next(w, Prune(false)).proc) == Pending(w.proc);
  }

  lemma PruneKeeps(w: World, ok: bool)
    requires BaseInv(w) && Persistent(w) && Enabled(w, Prune(ok))
    ensures BaseInv(Next(w, Prune(ok)))
  {
    hide QueueOk, LocatedOk, FlushNamesOk, NamesOk, NextOk, OpenOk, CopyOk, DirtyOk;
    if ok {
      PruneSegments(w);
      PruneLocated(w);
      PruneNames(w.proc.flush, w.proc.log.segments, w.disk);
    } else {
      PruneFails(w);
    }
  }
}
