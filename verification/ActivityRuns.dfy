/** What holds in every state of every run of the activity log. */
module ActivityRuns {
  import opened ActivityTypes
  import opened ActivitySteps
  import opened ActivityInvariant
  import opened ActivityKeeps
  import opened ActivityAppend
  import opened ActivityLoad
  import opened ActivityNumbers

  // ---------------------------------------------------------------- induction over runs

  lemma BaseStep(w: World, step: Step)
    requires BaseInv(w) && Enabled(w, step)
    ensures BaseInv(Next(w, step)) && Next(w, step).node == w.node
  {
    hide ProcessOk, FilesOk, LoadLog, LoadProcess, Feed, Full;
    match step
    case Append(e) => if w.proc.log.persist { AppendKeeps(w, e); }
    case FlushBegin => if w.proc.log.persist { BeginKeeps(w); }
    case WriteSealed(ok) => WriteSealedKeeps(w, ok);
    case WriteCopy(ok) => WriteCopyKeeps(w, ok);
    case Prune(ok) => PruneKeeps(w, ok);
    case FlushEnd => EndKeeps(w);
    case Crash =>
    case Load(readable) => LoadKeeps(w, readable);
    case ListFails =>
  }

  lemma StepKeeps(w: World, step: Step)
    requires Inv(w) && Enabled(w, step) && Fits(w.node, step)
    ensures Inv(Next(w, step)) && Next(w, step).node == w.node
  {
    hide BaseInv, Numbered, Next;
    BaseStep(w, step);
    StepNumbers(w, step, false);
  }

  lemma {:induction false} BaseRun(w: World, steps: seq<Step>)
    requires BaseInv(w) && Runs(w, steps)
    ensures BaseInv(After(w, steps)) && After(w, steps).node == w.node
    decreases |steps|
  {
    hide BaseInv, Next, Enabled;
    if steps == [] {
    } else {
      BaseStep(w, steps[0]);
      BaseRun(Next(w, steps[0]), steps[1..]);
    }
  }

  lemma {:induction false} RunKeeps(w: World, steps: seq<Step>)
    requires Inv(w) && Runs(w, steps) && AllFit(w.node, steps)
    ensures Inv(After(w, steps))
    decreases |steps|
  {
    hide Inv, Next, Enabled;
    if steps == [] {
    } else {
      assert Fits(w.node, steps[0]);
      StepKeeps(w, steps[0]);
      assert forall i :: 0 <= i < |steps[1..]| ==> steps[1..][i] == steps[i + 1];
      RunKeeps(Next(w, steps[0]), steps[1..]);
    }
  }

  /** A state some run of a new node reaches. */
  ghost predicate Reachable(w: World) {
    exists steps :: Runs(Fresh(w.node), steps) && After(Fresh(w.node), steps) == w
  }

  /** A state some run of a new node reaches that appends no event larger than a segment. */
  ghost predicate FittingReachable(w: World) {
    exists steps :: Runs(Fresh(w.node), steps) && AllFit(w.node, steps) && After(Fresh(w.node), steps) == w
  }

  lemma ReachableBase(w: World)
    requires Reachable(w)
    ensures BaseInv(w)
  {
    var steps :| Runs(Fresh(w.node), steps) && After(Fresh(w.node), steps) == w;
    BaseRun(Fresh(w.node), steps);
  }

  lemma ReachableInv(w: World)
    requires FittingReachable(w)
    ensures Inv(w) && Reachable(w)
  {
    var steps :| Runs(Fresh(w.node), steps) && AllFit(w.node, steps) && After(Fresh(w.node), steps) == w;
    RunKeeps(Fresh(w.node), steps);
  }

  // ---------------------------------------------------------------- unique numbers

  /** An event in the ring, in a segment in memory or in flight, or in any file, readable or not. */
  ghost predicate Somewhere(w: World, e: Event)
    requires w.proc.Up?
  {
    || e in w.proc.log.hist
    || e in w.proc.log.open
    || InPending(Pending(w.proc), e)
    || (w.proc.flush.Flushing? && e in w.proc.flush.copy)
    || OnDisk(w.disk, e)
  }

  lemma SegmentKnown(first: nat, s: Segment, known: map<nat, Placed>, e: Event)
    requires SegmentOk(first, s, known) && e in s
    ensures e.seqno in known && known[e.seqno].event == e
  {
    var i :| 0 <= i < |s| && s[i] == e;
  }

  /** Every event is known by its number, or is an oversized one of the ring, whose number no stored event has. */
  lemma SomewhereKnown(w: World, e: Event, gaps: bool)
    requires Numbered(w, gaps) && Persistent(w) && Somewhere(w, e)
    ensures e.seqno < w.proc.log.next
    ensures || (e.seqno in w.known && w.known[e.seqno].event == e)
            || (e.seqno !in w.known && e in w.proc.log.hist)
  {
    hide SegmentOk, KeptOk, DiskInHist, HeldInHist;
    if e in w.proc.log.hist {
      var i :| 0 <= i < |w.proc.log.hist| && w.proc.log.hist[i] == e;
    } else if e in w.proc.log.open {
      SegmentKnown(w.proc.log.openFirst, w.proc.log.open, w.known, e);
    } else if InPending(Pending(w.proc), e) {
      var s :| s in Pending(w.proc) && e in s;
      SegmentKnown(First(s), s, w.known, e);
    } else if OnDisk(w.disk, e) {
      var k :| k in w.disk && e in w.disk[k];
      SegmentKnown(k, w.disk[k], w.known, e);
    } else {
      SegmentKnown(w.proc.flush.copyFirst, w.proc.flush.copy, w.known, e);
    }
  }

  lemma SameNumber(w: World, a: Event, b: Event, gaps: bool)
    requires Numbered(w, gaps) && Persistent(w) && Somewhere(w, a) && Somewhere(w, b)
    ensures a.seqno == b.seqno ==> a == b
    ensures a.seqno < w.proc.log.next
  {
    SomewhereKnown(w, a, gaps);
    SomewhereKnown(w, b, gaps);
    assert HistOk(w.proc.log.hist, w.known);
    hide Numbered, Somewhere;
    if a.seqno == b.seqno && a.seqno !in w.known {
      var i :| 0 <= i < |w.proc.log.hist| && w.proc.log.hist[i] == a;
      var j :| 0 <= j < |w.proc.log.hist| && w.proc.log.hist[j] == b;
    }
  }

  /** In every persistent state, two events with one number are one event, and the next number is new. */
  lemma NumbersUnique(w: World, a: Event, b: Event)
    requires FittingReachable(w) && Persistent(w) && Somewhere(w, a) && Somewhere(w, b)
    ensures a.seqno == b.seqno ==> a == b
    ensures a.seqno < w.proc.log.next
  {
    ReachableInv(w);
    SameNumber(w, a, b, false);
  }

  // ---------------------------------------------------------------- the shape of segments

  /** `s` is a segment in memory, in flight or on disk, and `first` is the name of its file. */
  ghost predicate IsSegment(w: World, first: nat, s: Segment)
    requires w.proc.Up?
  {
    || (first in w.disk && s == w.disk[first])
    || (s in Pending(w.proc) && first == First(s))
    || (s != [] && s == w.proc.log.open && first == w.proc.log.openFirst)
    || (s != [] && w.proc.flush.Flushing? && s == w.proc.flush.copy && first == w.proc.flush.copyFirst)
  }

  /** Every segment is a run of at most SEGMENT_EVENTS numbers from its name, within the byte limit. */
  lemma SegmentShape(w: World, first: nat, s: Segment)
    requires FittingReachable(w) && Persistent(w) && IsSegment(w, first, s)
    ensures 0 < |s| <= SEGMENT_EVENTS && Bytes(s) == |TextOf(s)| + 64 * |s| <= SEGMENT_BYTES
    ensures forall i :: 0 <= i < |s| ==> s[i].seqno == first + i
  {
    BytesCountText(s);
    ReachableInv(w);
    SegmentIsOk(w, first, s);
  }

  lemma SegmentIsOk(w: World, first: nat, s: Segment)
    requires Inv(w) && Persistent(w) && IsSegment(w, first, s)
    ensures SegmentOk(first, s, w.known)
  {
    hide SegmentOk, HistoryOk, BaseInv;
  }

  /** Two segments are disjoint and ordered by name, or versions of one file. */
  lemma SegmentsDisjoint(w: World, a: nat, s: Segment, b: nat, t: Segment)
    requires FittingReachable(w) && Persistent(w) && IsSegment(w, a, s) && IsSegment(w, b, t)
    ensures a < b ==> a + |s| <= b
    ensures a == b ==> s <= t || t <= s
  {
    ReachableInv(w);
    SegmentIsOk(w, a, s);
    SegmentIsOk(w, b, t);
    hide Inv, FittingReachable, IsSegment;
    if a < b { Ordered(a, s, b, t, w.known); }
    if a == b { SameSegment(a, s, b, t, w.known, a); SameSegment(b, t, a, s, w.known, a); }
  }

  // ---------------------------------------------------------------- what a step does to a file

  /** A step keeps a file, extends it, or (pruning) removes it. */
  lemma FilesOnlyGrow(w: World, step: Step, k: nat)
    requires Reachable(w) && Enabled(w, step) && k in w.disk
    ensures var v := Next(w, step);
            if k in v.disk then w.disk[k] <= v.disk[k] else step.Prune? && [k] <= w.proc.log.segments
  {
    ReachableBase(w);
    hide Reachable, BaseInv, AppendEvent, EndFlush, LoadProcess, Stamp, BeginFlush, Begun, InsertName, First, Pending;
    match step
    case WriteSealed(ok) =>
      if ok { TodoHead(w, true); WriteExtends(w, First(w.proc.flush.todo[0]), w.proc.flush.todo[0], k); }
    case WriteCopy(ok) =>
      if ok { WriteExtends(w, w.proc.flush.copyFirst, w.proc.flush.copy, k); }
    case _ =>
  }

  /** A file that load could not read, or did not read, is never rewritten; and once pruned, it does not
      come back. */
  lemma UnreadFilesKept(w: World, step: Step, k: nat)
    requires Reachable(w) && Persistent(w) && Enabled(w, step) && k in w.proc.unread + w.proc.skipped
    ensures k in Next(w, step).disk ==> k in w.disk && Next(w, step).disk[k] == w.disk[k]
  {
    ReachableBase(w);
    hide Reachable, ProcessOk, FilesOk, AppendEvent, EndFlush, LoadProcess, Stamp, BeginFlush, Begun;
    match step
    case WriteSealed(ok) =>
      if ok { TodoHead(w, true); WriteAllowed(w, First(w.proc.flush.todo[0]), w.proc.flush.todo[0]); }
    case WriteCopy(ok) =>
      if ok { WriteAllowed(w, w.proc.flush.copyFirst, w.proc.flush.copy); }
    case _ =>
  }

  lemma WriteAllowed(w: World, first: nat, s: Segment)
    requires BaseInv(w) && Persistent(w)
    requires || (s in Pending(w.proc) && first == First(s))
             || (w.proc.flush.Flushing? && s != [] && s == w.proc.flush.copy && first == w.proc.flush.copyFirst)
    ensures LiveOk(first, s, CtxOf(w))
  {
    hide PlacesOk, AllBelow, InOrder, DirtyOk, NamesOk, NextOk, BoundsOk, OpenOk;
  }

  lemma WriteExtends(w: World, first: nat, s: Segment, k: nat)
    requires BaseInv(w) && Persistent(w) && k in w.disk
    requires || (s in Pending(w.proc) && first == First(s))
             || (w.proc.flush.Flushing? && s != [] && s == w.proc.flush.copy && first == w.proc.flush.copyFirst)
    ensures w.disk[k] <= w.disk[first := s][k]
  {
    hide BaseInv;
    WriteAllowed(w, first, s);
  }

  /** A run whose listing failed leaves the disk as it found it. */
  lemma MemoryOnlyNeverWrites(w: World, step: Step)
    requires Reachable(w) && w.proc.Up? && !w.proc.log.persist && Enabled(w, step)
    ensures Next(w, step).disk == w.disk
    ensures Next(w, step).proc.Up? ==> !Next(w, step).proc.log.persist
  {
    ReachableBase(w);
  }

  // ---------------------------------------------------------------- nothing unsaved, nothing lost

  /** When no flush runs and the log is clean, every event in memory is on disk. */
  lemma CleanMeansSaved(w: World)
    requires Reachable(w) && Persistent(w) && w.proc.flush.Idle? && !w.proc.log.dirty
    ensures Pending(w.proc) == []
    ensures OpenSaved(w.proc.log, w.disk)
    ensures forall e :: e in w.proc.log.open ==> OnDisk(w.disk, e)
  {
    ReachableBase(w);
    hide AllLive, PlacesOk, FilesOk;
    assert DirtyOk(w.proc.flush, w.proc.log, w.disk);
  }

  /** So a flush of a clean log writes nothing. */
  lemma CleanFlushWritesNothing(w: World)
    requires Reachable(w) && Persistent(w) && w.proc.flush.Idle? && !w.proc.log.dirty
    ensures var v := Next(w, FlushBegin);
            Pending(v.proc) == [] && WritesDone(v.proc.flush) && v.disk == w.disk
  {
    CleanMeansSaved(w);
    hide Reachable;
  }

  /** Every event of the process is in memory, on disk, pruned, or counted as dropped. */
  lemma NothingVanishes(w: World, e: Event)
    requires Reachable(w) && Persistent(w) && e in w.proc.log.hist
    ensures || e in w.proc.log.open || InPending(Pending(w.proc), e) || OnDisk(w.disk, e)
            || e in w.proc.pruned || e in w.proc.log.lost
    ensures w.proc.log.dropped == |w.proc.log.lost|
    ensures |w.proc.log.sealed| <= SEGMENTS_KEPT && |Pending(w.proc)| <= 2 * SEGMENTS_KEPT
    ensures w.proc.log.openBytes == Bytes(w.proc.log.open) < SEGMENT_BYTES && |w.proc.log.open| < SEGMENT_EVENTS
    ensures [] !in Pending(w.proc)
  {
    ReachableBase(w);
    hide FilesOk, FlushNamesOk, InOrder, AllBelow, NamesOk, NextOk;
    assert Located(e, w.proc.log.open, Pending(w.proc), w.disk, w.proc.pruned, w.proc.log.lost);
    assert [] in Pending(w.proc) ==> LiveOk(First([]), [], CtxOf(w));
  }

  // ---------------------------------------------------------------- the newest fifty files

  lemma {:induction false} DistinctCount(names: seq<nat>, s: set<nat>)
    requires Increasing(names) && forall k :: k in s <==> k in names
    ensures |names| == |s|
  {
    if names == [] {
      assert s == {};
    } else {
      var front := names[..|names| - 1];
      var last := names[|names| - 1];
      assert names == front + [last];
      DistinctCount(front, s - {last});
    }
  }

  ghost function NewerFiles(disk: map<nat, Segment>, k: nat): set<nat> {
    set j | j in disk && j > k
  }

  /** A file is one of the newest read by a load unless SEGMENTS_KEPT files are newer. */
  lemma NewestByCount(names: seq<nat>, disk: map<nat, Segment>, k: nat)
    requires NamesOk(names, disk) && k in disk
    ensures k in Newest(names) <==> |NewerFiles(disk, k)| < SEGMENTS_KEPT
  {
    var i: nat :| i < |names| && names[i] == k;
    var later := names[i + 1..];
    forall j ensures j in NewerFiles(disk, k) <==> j in later {
      if j in NewerFiles(disk, k) {
        var n :| 0 <= n < |names| && names[n] == j;
        assert later[n - i - 1] == j;
      }
    }
    DistinctCount(later, NewerFiles(disk, k));
    var m := |names| - SEGMENTS_KEPT;
    if m > 0 {
      assert forall n :: 0 <= n < SEGMENTS_KEPT ==> Newest(names)[n] == names[m + n];
      if i >= m { assert Newest(names)[i - m] == k; }
    }
  }

  /** A load reads the newest files: the history is made of the events of those that can be read, the others
      count as failed, and older files are skipped. */
  lemma LoadReadsNewest(w: World, readable: set<nat>, k: nat, e: Event)
    requires w.proc.Down?
    ensures var v := Next(w, Load(readable));
            && (k in w.disk ==> (k in v.proc.skipped <==> |NewerFiles(w.disk, k)| >= SEGMENTS_KEPT))
            && (e in v.proc.log.hist <==>
                  exists k :: k in w.disk && |NewerFiles(w.disk, k)| < SEGMENTS_KEPT && k in readable && e in w.disk[k])
            && (v.proc.log.loadFailed <==>
                  exists k :: k in w.disk && |NewerFiles(w.disk, k)| < SEGMENTS_KEPT && k !in readable)
  {
    hide LoadNext, LoadEvents, NewerFiles, Newest, SortedNames, Reopens;
    var names := SortedNames(w.disk.Keys);
    NewestReads(names, w.disk);
    EventsIn(Newest(names), w.disk, readable, e);
    forall j | j in w.disk ensures j in Newest(names) <==> |NewerFiles(w.disk, j)| < SEGMENTS_KEPT {
      NewestByCount(names, w.disk, j);
    }
  }

  /** `l.segments` lists the files on disk, in order and once each. */
  lemma SegmentsListFiles(w: World)
    requires Reachable(w) && Persistent(w)
    ensures Increasing(w.proc.log.segments)
    ensures forall k :: k in w.disk <==> k in w.proc.log.segments
    ensures |w.proc.log.segments| == |w.disk|
  {
    ReachableBase(w);
    hide QueueOk, PlacesOk, FilesOk;
    assert NamesOk(w.proc.log.segments, w.disk);
    DistinctCount(w.proc.log.segments, w.disk.Keys);
  }

  /** A flush that ends without an error leaves the newest files of all those it found or wrote. */
  lemma CleanFlushKeepsNewest(w: World)
    requires Reachable(w) && Persistent(w) && Enabled(w, FlushEnd) && !w.proc.flush.failed
    ensures var v := Next(w, FlushEnd);
            var names := w.proc.flush.names;
            && v.disk.Keys <= names
            && |v.disk| == (if |names| <= SEGMENTS_KEPT then |names| else SEGMENTS_KEPT)
            && (forall k, j :: k in names && k !in v.disk && j in v.disk ==> k < j)
  {
    ReachableBase(w);
    SegmentsListFiles(w);
    assert FlushNamesOk(w.proc.flush, w.proc.log.segments, w.disk);
    assert BoundsOk(w.proc.flush, w.proc.log);
    hide Reachable, OpenPartOk, QueueOk, PlacesOk, FilesOk;
    var names := w.proc.flush.names;
    assert |w.disk| == |w.disk.Keys|;
    if w.disk.Keys != names {
      SubsetSize(w.disk.Keys, names);
    }
  }

  lemma SubsetSize(a: set<nat>, b: set<nat>)
    requires a <= b
    ensures |a| <= |b|
    ensures a != b ==> |a| < |b|
  {
    assert b == a + (b - a);
  }

  // ---------------------------------------------------------------- sequence numbers do not wrap

  /** An event on disk, or anywhere in a running process. */
  ghost predicate Anywhere(w: World, e: Event) {
    if w.proc.Up? then Somewhere(w, e) else OnDisk(w.disk, e)
  }

  /** Every number is below `bound`. */
  ghost predicate Below(w: World, bound: nat) {
    && (forall e :: Anywhere(w, e) ==> e.seqno < bound)
    && (w.proc.Up? ==> w.proc.log.next <= bound)
  }

  lemma {:induction false} LoadNextBelow(read: seq<nat>, disk: map<nat, Segment>, readable: set<nat>, bound: nat)
    requires Reads(read, disk) && FilesOk(disk) && forall e :: OnDisk(disk, e) ==> e.seqno < bound
    ensures LoadNext(read, disk, readable) <= bound + SEGMENT_EVENTS
  {
    if read == [] {
    } else {
      var first: nat := read[|read| - 1];
      LoadNextBelow(read[..|read| - 1], disk, readable, bound);
      var s := disk[first];
      assert s[0] in s && OnDisk(disk, s[0]);
      if first in readable {
        NextPastBelow(Max(LoadNext(read[..|read| - 1], disk, readable), first + 1), s, disk, first, bound);
      }
    }
  }

  lemma {:induction false} NextPastBelow(next: nat, s: Segment, disk: map<nat, Segment>, first: nat, bound: nat)
    requires first in disk && s <= disk[first] && next <= bound + SEGMENT_EVENTS
    requires forall e :: OnDisk(disk, e) ==> e.seqno < bound
    ensures NextPast(next, s) <= bound + SEGMENT_EVENTS
  {
    if s == [] {
    } else {
      NextPastBelow(next, s[..|s| - 1], disk, first, bound);
      assert s[|s| - 1] in disk[first];
    }
  }

  /** Only an append brings a new event. */
  lemma NothingNew(w: World, step: Step, e: Event)
    requires BaseInv(w) && Enabled(w, step) && Anywhere(Next(w, step), e)
    ensures Anywhere(w, e) || (step.Append? && e == Stamp(w, step.event))
  {
    hide BaseInv, LoadNext, LoadEvents, SortedNames;
    match step
    case Append(raw) => AppendBrings(w, raw, e);
    case FlushBegin =>
    case WriteSealed(ok) => SealedBrings(w, ok, e);
    case WriteCopy(ok) =>
    case Prune(ok) =>
    case FlushEnd => EndBrings(w, e);
    case Crash =>
    case Load(readable) => LoadBrings(w, readable, e);
    case ListFails =>
  }

  lemma SealedBrings(w: World, ok: bool, e: Event)
    requires Enabled(w, WriteSealed(ok)) && Anywhere(Next(w, WriteSealed(ok)), e)
    ensures Anywhere(w, e)
  {
    hide InsertName;
    var n := |w.proc.flush.retry|;
    TodoHead(w, ok);
    assert w.proc.flush.todo[0] in Pending(w.proc);
    WithoutMembers(Pending(w.proc), n, n + 1);
  }

  lemma EndBrings(w: World, e: Event)
    requires Enabled(w, FlushEnd) && Anywhere(Next(w, FlushEnd), e)
    ensures Anywhere(w, e)
  {
    EndQueue(w);
    WithoutMembers(Pending(w.proc), 0, Extra(Pending(w.proc)));
  }

  lemma LoadBrings(w: World, readable: set<nat>, e: Event)
    requires w.proc.Down? && Anywhere(Next(w, Load(readable)), e)
    ensures Anywhere(w, e)
  {
    hide LoadNext, LoadEvents;
    var names := SortedNames(w.disk.Keys);
    NewestReads(names, w.disk);
    EventsIn(Newest(names), w.disk, readable, e);
    hide SortedNames, Newest;
  }

  lemma SealBrings(w: World, e: Event)
    requires w.proc.Up? && Somewhere(Sealed(w), e)
    ensures Somewhere(w, e)
  {
    var all := w.proc.log.sealed + [w.proc.log.open];
    SealQueue(w);
    WithoutMembers(Longer(w.proc), Kept(w.proc), Kept(w.proc) + Extra(all));
    hide Seal;
  }

  lemma AppendBrings(w: World, raw: Event, e: Event)
    requires w.proc.Up? && Somewhere(Next(w, Append(raw)), e)
    ensures Somewhere(w, e) || e == Stamp(w, raw)
  {
    var added := Stamp(w, raw);
    if w.proc.log.persist {
      hide Somewhere, Seal, EventBytes, Next;
      if EventBytes(added) > SEGMENT_BYTES {
        AppendSkips(w, raw);
        SkipBrings(w, added, e);
      } else {
        AppendStores(w, raw);
        var r := Roomy(w, added);
        var v := Extended(r, added);
        if Somewhere(Sealed(v), e) { SealBrings(v, e); }
        if Somewhere(v, e) { ExtendBrings(r, added, e); }
        if Somewhere(Sealed(w), e) { SealBrings(w, e); }
      }
    }
  }

  lemma SkipBrings(w: World, added: Event, e: Event)
    requires w.proc.Up? && Somewhere(Skipped(w, added), e)
    ensures Somewhere(w, e) || e == added
  {
  }

  lemma ExtendBrings(w: World, added: Event, e: Event)
    requires w.proc.Up? && Somewhere(Extended(w, added), e)
    ensures Somewhere(w, e) || e == added
  {
  }

  lemma StepBelow(w: World, step: Step, bound: nat)
    requires BaseInv(w) && Enabled(w, step) && Below(w, bound)
    ensures Below(Next(w, step), bound + SEGMENT_EVENTS)
  {
    hide BaseInv, LoadNext, LoadEvents, SortedNames, Anywhere;
    forall e | Anywhere(Next(w, step), e) ensures e.seqno < bound + SEGMENT_EVENTS { NothingNew(w, step, e); }
    if Next(w, step).proc.Up? { NextBelow(w, step, bound); }
  }

  lemma NextBelow(w: World, step: Step, bound: nat)
    requires BaseInv(w) && Enabled(w, step) && Below(w, bound) && Next(w, step).proc.Up?
    ensures Next(w, step).proc.log.next <= bound + SEGMENT_EVENTS
  {
    hide ProcessOk, LoadNext, LoadEvents, SortedNames;
    match step
    case Load(readable) =>
      var names := SortedNames(w.disk.Keys);
      NewestReads(names, w.disk);
      LoadNextBelow(Newest(names), w.disk, readable, bound);
    case _ =>
  }

  lemma {:induction false} NumbersStayLow(w: World, steps: seq<Step>, bound: nat)
    requires BaseInv(w) && Runs(w, steps) && Below(w, bound)
    ensures Below(After(w, steps), bound + SEGMENT_EVENTS * |steps|)
    decreases |steps|
  {
    hide BaseInv, Next, Enabled, Below;
    if steps == [] {
    } else {
      BaseStep(w, steps[0]);
      StepBelow(w, steps[0], bound);
      NumbersStayLow(Next(w, steps[0]), steps[1..], bound + SEGMENT_EVENTS);
    }
  }

  /** A run of n steps uses numbers below 1000 n only, so a 64-bit counter does not wrap in fewer than
      2^64 / 1000 steps. */
  lemma NoWrap(node: string, steps: seq<Step>)
    requires Runs(Fresh(node), steps)
    requires SEGMENT_EVENTS * |steps| < 0x1_0000_0000_0000_0000
    ensures var w := After(Fresh(node), steps);
            && (forall e :: Anywhere(w, e) ==> e.seqno < 0x1_0000_0000_0000_0000)
            && (w.proc.Up? ==> w.proc.log.next < 0x1_0000_0000_0000_0000)
  {
    NumbersStayLow(Fresh(node), steps, 0);
  }
}
