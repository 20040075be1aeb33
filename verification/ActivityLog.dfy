/** The activity log of one node as the object the server runs: a ring of the newest events and the
    fields of the segment builder.  Each method takes the steps of ActivitySteps. */
module ActivityLog {
  import opened Common
  import opened ActivityTypes
  import opened ActivitySteps
  import opened ActivityInvariant
  import opened ActivityKeeps
  import opened ActivityAppend
  import opened ActivityRuns
  import opened ActivityPacking
  import opened ActivityRecovery
  import opened ActivityOrder
  import opened ActivityPages
  import opened ActivityRing
  import opened SegmentNames

  // ---------------------------------------------------------------- runs

  lemma {:induction false} RunsSnoc(w: World, steps: seq<Step>, s: Step)
    requires Runs(w, steps) && Enabled(After(w, steps), s)
    ensures Runs(w, steps + [s]) && After(w, steps + [s]) == Next(After(w, steps), s)
    decreases |steps|
  {
    hide Next, Enabled;
    var all := steps + [s];
    if steps == [] {
      assert all == [s] && all[1..] == [];
    } else {
      assert all[1..] == steps[1..] + [s];
      RunsSnoc(Next(w, steps[0]), steps[1..], s);
    }
  }

  /** `steps` lead from `w` to `v` without appending an oversized event. */
  ghost predicate RunTo(w: World, steps: seq<Step>, v: World) {
    Runs(w, steps) && AllFit(w.node, steps) && After(w, steps) == v && v.node == w.node && BaseInv(v)
  }

  lemma StepRun(w: World, steps: seq<Step>, v: World, s: Step)
    requires RunTo(w, steps, v) && Enabled(v, s) && !s.Append?
    ensures RunTo(w, steps + [s], Next(v, s))
  {
    hide BaseInv, Next, Enabled, Runs, After;
    RunsSnoc(w, steps, s);
    BaseStep(v, s);
  }

  lemma RunInv(w: World, steps: seq<Step>, v: World)
    requires RunTo(w, steps, v)
    ensures BaseInv(v)
  {
  }

  lemma RunEnd(w: World, steps: seq<Step>, v: World)
    requires RunTo(w, steps, v)
    ensures Runs(w, steps) && AllFit(w.node, steps) && After(w, steps) == v && BaseInv(v)
  {
  }

  lemma PositionUnique(names: seq<nat>, first: nat, i: nat)
    requires i <= |names| && (forall k :: 0 <= k < i ==> names[k] < first) && (i < |names| ==> names[i] >= first)
    ensures i == Position(names, first)
  {
    hide Position;
  }

  /** The state a flush starts from, and the one it ends in. */
  lemma BeginShows(w: World, files: map<nat, Segment>)
    requires w.proc.Up? && w.proc.flush.Idle? && w.proc.log.persist && w.disk == files
    ensures Enabled(w, FlushBegin)
    ensures Shows(Next(w, FlushBegin), BeginFlush(w.proc.log), files)
    ensures Next(w, FlushBegin).proc.flush == Begun(w.proc.log, files)
  {
  }

  lemma EndShows(v: World, l: Log, files: map<nat, Segment>)
    requires Shows(v, l, files) && WritesDone(v.proc.flush) && (v.proc.flush.stopped || |l.segments| <= SEGMENTS_KEPT)
    ensures Enabled(v, FlushEnd)
    ensures var f := v.proc.flush;
            var e := EndFlush(l, f.retry, f.copyFailed, f.failed);
            Shows(Next(v, FlushEnd), e, files) && Next(v, FlushEnd).proc.flush.Idle? && e.flushErr == f.failed
  {
  }

  /** `v` is the state of a log with this view and these files. */
  ghost predicate Shows(v: World, l: Log, files: map<nat, Segment>) {
    v.proc.Up? && v.proc.log == l && v.disk == files
  }

  lemma InvNames(v: World)
    requires BaseInv(v) && Persistent(v)
    ensures Increasing(v.proc.log.segments)
  {
    hide QueueOk, PlacesOk, FilesOk;
  }

  lemma EndClean(l: Log, err: bool)
    requires l.sealed == [] && !l.dirty
    ensures EndFlush(l, [], false, err).sealed == [] && !EndFlush(l, [], false, err).dirty
  {
  }

  lemma CleanIsSaved(v: World)
    requires BaseInv(v) && Persistent(v) && v.proc.flush.Idle? && !v.proc.log.dirty
    ensures OpenSaved(v.proc.log, v.disk)
  {
    hide QueueOk, PlacesOk, FilesOk;
    assert DirtyOk(v.proc.flush, v.proc.log, v.disk);
  }

  lemma InvTodo(v: World)
    requires BaseInv(v) && Persistent(v) && v.proc.flush.Flushing? && v.proc.flush.todo != []
    ensures v.proc.flush.todo[0] != [] && First(v.proc.flush.todo[0]) == v.proc.flush.todo[0][0].seqno
  {
    TodoHead(v, true);
    hide OpenPartOk, PlacesOk, FilesOk, InOrder, AllBelow;
    assert v.proc.flush.todo[0] in Pending(v.proc);
  }

  // ---------------------------------------------------------------- reading segment files

  /** `listing` names every file, each once; other names in it are not segment names. */
  ghost predicate Lists(listing: seq<string>, files: map<nat, Segment>) {
    && (forall i, j :: 0 <= i < j < |listing| ==> listing[i] != listing[j])
    && (forall k :: k in files ==> k < UINT64_LIMIT && SegmentName(k) in listing)
    && (forall name :: name in listing && ParseName(name).Some? ==> ParseName(name).value in files)
  }

  /** The numbers of the segment names in a listing, sorted. */
  method ListedNames(listing: seq<string>) returns (firsts: seq<nat>)
    ensures Increasing(firsts)
    ensures forall k :: k in firsts <==> exists name :: name in listing && ParseName(name) == Some(k)
  {
    firsts := [];
    for i := 0 to |listing|
      invariant Increasing(firsts)
      invariant forall k :: k in firsts <==> exists name :: name in listing[..i] && ParseName(name) == Some(k)
    {
      hide Increasing, ParseName, InsertName;
      assert listing[..i + 1] == listing[..i] + [listing[i]];
      var first := ParseName(listing[i]);
      if first.Some? {
        InsertOrder(firsts, first.value);
        InsertMembers(firsts, first.value);
        firsts := InsertName(firsts, first.value);
      }
    }
    assert listing[..|listing|] == listing;
  }

  lemma ListedIsDisk(listing: seq<string>, files: map<nat, Segment>, firsts: seq<nat>)
    requires Lists(listing, files) && Increasing(firsts)
    requires forall k :: k in firsts <==> exists name :: name in listing && ParseName(name) == Some(k)
    ensures firsts == SortedNames(files.Keys) && NamesOk(firsts, files)
  {
    hide ParseName, SegmentName, SortedNames;
    forall k ensures k in firsts <==> k in files {
      if k in files { NameRoundTrip(k); }
      if k in firsts { var name :| name in listing && ParseName(name) == Some(k); }
    }
    SameNames(firsts, SortedNames(files.Keys));
  }

  /** Read the newest files; only names in `readable` can be read. */
  method ReadSegments(files: map<nat, Segment>, read: seq<nat>, readable: set<nat>)
    returns (events: seq<Event>, newest: Segment, next: nat, failed: bool)
    requires Reads(read, files)
    ensures events == LoadEvents(read, files, readable)
    ensures newest == LoadNewest(read, files, readable)
    ensures next == LoadNext(read, files, readable)
    ensures failed <==> exists i :: 0 <= i < |read| && read[i] !in readable
  {
    events, newest, next, failed := [], [], 0, false;
    for i := 0 to |read|
      invariant events == LoadEvents(read[..i], files, readable)
      invariant newest == if i == |read| then LoadNewest(read, files, readable) else []
      invariant next == LoadNext(read[..i], files, readable)
      invariant failed <==> exists j :: 0 <= j < i && read[j] !in readable
    {
      var first := read[i];
      assert read[..i + 1][..i] == read[..i] && read[..i + 1][i] == first;
      if first !in readable {
        failed := true;
        next := Max(next, first + SEGMENT_EVENTS);
      } else {
        var seg := files[first];
        events := events + seg;
        next := NextAfter(Max(next, first + 1), seg);
        if i == |read| - 1 {
          newest := seg;
        }
      }
    }
    assert read[..|read|] == read;
  }

  /** The loop over a segment's events that raises the next number past each of them. */
  method NextAfter(start: nat, seg: Segment) returns (next: nat)
    ensures next == NextPast(start, seg)
  {
    next := start;
    for j := 0 to |seg|
      invariant next == NextPast(start, seg[..j])
    {
      assert seg[..j + 1][..j] == seg[..j];
      next := Max(next, seg[j].seqno + 1);
    }
    assert seg[..|seg|] == seg;
  }

  method SegmentBytes(seg: Segment) returns (bytes: nat)
    ensures bytes == Bytes(seg)
  {
    bytes := 0;
    for j := 0 to |seg|
      invariant bytes == Bytes(seg[..j])
    {
      assert seg[..j + 1][..j] == seg[..j];
      bytes := bytes + EventBytes(seg[j]);
    }
    assert seg[..|seg|] == seg;
  }

  /** What load restores from the files. */
  datatype Restored = Restored(
    firsts: seq<nat>, events: seq<Event>, next: nat, open: Segment, openFirst: nat, openBytes: nat, failed: bool)

  lemma LoadLogIs(names: seq<nat>, files: map<nat, Segment>, readable: set<nat>, newest: Segment, next: nat,
                  failed: bool)
    requires NamesOk(names, files) && Reads(Newest(names), files)
    requires newest == LoadNewest(Newest(names), files, readable) && next == LoadNext(Newest(names), files, readable)
    requires failed <==> exists i :: 0 <= i < |Newest(names)| && Newest(names)[i] !in readable
    ensures var read := Newest(names);
            var events := LoadEvents(read, files, readable);
            && (newest != [] ==> read != [])
            && LoadLog(names, files, readable) ==
                 if && |newest| > 0 && |newest| < SEGMENT_EVENTS && Bytes(newest) < SEGMENT_BYTES
                    && newest[|newest| - 1].seqno + 1 == next
                 then Log(true, next, newest, read[|read| - 1], Bytes(newest), [], false, 0, failed, false, names,
                          events, [])
                 else Log(true, next, [], 0, 0, [], false, 0, failed, false, names, events, [])
  {
    hide LoadEvents, LoadNext, Bytes, NamesOk, Newest;
  }

  method RestoreFiles(files: map<nat, Segment>, listing: seq<string>, readable: set<nat>) returns (r: Restored)
    requires Lists(listing, files)
    ensures LoadLog(SortedNames(files.Keys), files, readable) ==
            Log(true, r.next, r.open, r.openFirst, r.openBytes, [], false, 0, r.failed, false, r.firsts, r.events, [])
  {
    hide LoadEvents, LoadNext, LoadNewest, Bytes, SortedNames, Lists, LoadLog, NamesOk, ParseName, Increasing, Reads;
    var firsts := ListedNames(listing);
    ListedIsDisk(listing, files, firsts);
    var read := if |firsts| > SEGMENTS_KEPT then firsts[|firsts| - SEGMENTS_KEPT..] else firsts;
    NewestReads(firsts, files);
    var events, newest, next, failed := ReadSegments(files, read, readable);
    var newestBytes := SegmentBytes(newest);
    LoadLogIs(firsts, files, readable, newest, next, failed);
    if && |newest| > 0 && |newest| < SEGMENT_EVENTS && newestBytes < SEGMENT_BYTES
       && newest[|newest| - 1].seqno + 1 == next
    {
      r := Restored(firsts, events, next, newest, read[|read| - 1], newestBytes, failed);
    } else {
      r := Restored(firsts, events, next, [], 0, 0, failed);
    }
  }

  /** The node's segment files, which the object layer keeps. */
  class Storage {
    var files: map<nat, Segment>

    constructor ()
      ensures files == map[]
    {
      files := map[];
    }
  }

  class ActivityLog {
    const node: string
    const ring: array<Event>
    var slot: nat
    var size: nat
    var next: nat
    var persist: bool
    var open: Segment
    var openFirst: nat
    var openBytes: nat
    var sealed: seq<Segment>
    var dirty: bool
    var dropped: nat
    var loadFailed: bool
    var flushErr: bool
    var segments: seq<nat>
    ghost var hist: seq<Event>
    ghost var lost: seq<Event>

    ghost predicate Valid()
      reads this, ring
    {
      RingHolds(ring[..], slot, size, hist)
    }

    /** The log without its ring, which Valid ties to `hist`. */
    ghost function View(): Log
      reads this
    {
      Log(persist, next, open, openFirst, openBytes, sealed, dirty, dropped, loadFailed, flushErr, segments, hist, lost)
    }

    constructor (node: string, ringSize: nat)
      requires ringSize > 0
      ensures Valid() && fresh(ring) && this.node == node && ring.Length == ringSize
      ensures View() == Log(false, 0, [], 0, 0, [], false, 0, false, false, [], [], [])
    {
      this.node := node;
      ring := new Event[ringSize];
      slot, size, next := 0, 0, 0;
      persist, open, openFirst, openBytes, sealed := false, [], 0, 0, [];
      dirty, dropped, loadFailed, flushErr, segments := false, 0, false, false, [];
      hist, lost := [], [];
    }

    method PutRing(e: Event)
      requires Valid()
      modifies this`slot, this`size, this`hist, ring
      ensures Valid() && hist == old(hist) + [e]
    {
      hide RingHolds, LastN;
      RingSize(ring[..], slot, size, hist);
      PutHolds(ring[..], slot, size, hist, e);
      WrapIsMod(slot + 1, ring.Length);
      ring[slot] := e;
      slot := (slot + 1) % ring.Length;
      if size < ring.Length {
        size := size + 1;
      }
      hist := hist + [e];
      assert ring[..] == old(ring[..])[old(slot) := e];
    }

    /** The ring's events, oldest first: the newest ones of the whole history. */
    method Snapshot() returns (out: seq<Event>)
      requires Valid()
      ensures out == LastN(hist, ring.Length)
    {
      hide RingHolds, LastN;
      RingSize(ring[..], slot, size, hist);
      out := [];
      var start := (slot + ring.Length - size) % ring.Length;
      for i := 0 to size
        invariant out == LastN(hist, ring.Length)[..i]
      {
        SnapshotAt(ring[..], slot, size, hist, i);
        out := out + [ring[(start + i) % ring.Length]];
      }
    }

    /** The newest `f.limit` matches among the newest events of the history, although the scan runs over
        raw slots. */
    method Query(apis: map<string, Api>, f: Filter) returns (page: seq<Event>)
      requires Valid()
      ensures Answers(apis, f, LastN(hist, ring.Length), page)
    {
      hide LastN, RingHolds, Answers, SortNewest, Matches;
      RingSize(ring[..], slot, size, hist);
      if f.limit <= 0 {
        NoPage(apis, f, LastN(hist, ring.Length));
        return [];
      }
      page := [];
      for i := 0 to size
        invariant page == Select(apis, f, ring[..i])
      {
        assert ring[..i + 1][..i] == ring[..i];
        if Matches(apis, f, ring[i]) {
          page := page + [ring[i]];
        }
      }
      page := SortNewest(page);
      if |page| > f.limit {
        page := page[..f.limit];
      }
      assert page == Page(apis, f, ring[..size]);
      assert ring[..][..size] == ring[..size];
      SlotsRotate(ring[..], slot, size, hist);
      PageOfSlots(apis, f, ring[..size], LastN(hist, ring.Length));
    }

    method TrimPendingSegments()
      modifies this`sealed, this`dropped, this`lost
      ensures View() == Trim(old(View())) && KeepsNewest(old(View()), old(sealed), View())
    {
      FlattenTotal(sealed[..Extra(sealed)]);
      if |sealed| > SEGMENTS_KEPT {
        var extra := |sealed| - SEGMENTS_KEPT;
        for i := 0 to extra
          invariant sealed == old(sealed) && lost == old(lost)
          invariant dropped == old(dropped) + Total(sealed[..i])
        {
          assert sealed[..i + 1][..i] == sealed[..i];
          dropped := dropped + |sealed[i]|;
        }
        lost := lost + Flatten(sealed[..extra]);
        sealed := sealed[extra..];
      }
    }

    method SealSegment()
      modifies this`sealed, this`open, this`openBytes, this`dropped, this`lost
      ensures View() == Seal(old(View()))
    {
      hide Trim;
      sealed := sealed + [open];
      open, openBytes := [], 0;
      TrimPendingSegments();
    }

    method FeedSegment(e: Event)
      modifies this`sealed, this`open, this`openFirst, this`openBytes, this`dirty, this`dropped, this`lost
      ensures View() == Feed(old(View()), e)
    {
      hide EventBytes, Seal, Extend;
      var bytes := EventBytes(e);
      if bytes > SEGMENT_BYTES {
        dropped := dropped + 1;
        lost := lost + [e];
        return;
      }
      if |open| > 0 && openBytes + bytes > SEGMENT_BYTES {
        SealSegment();
      }
      ExtendOpen(e, bytes);
      if |open| >= SEGMENT_EVENTS || openBytes >= SEGMENT_BYTES {
        SealSegment();
      }
    }

    method ExtendOpen(e: Event, bytes: nat)
      requires bytes == EventBytes(e)
      modifies this`open, this`openFirst, this`openBytes, this`dirty
      ensures View() == Extend(old(View()), e)
    {
      if |open| == 0 {
        openFirst := e.seqno;
      }
      open := open + [e];
      openBytes := openBytes + bytes;
      dirty := true;
    }

    /** Append an event: the step Append of the log. */
    method Append(e: Event, ghost w: World) returns (stored: Event)
      requires Valid()
      requires w.proc.Up? && w.node == node && w.proc.log == View()
      modifies this, ring
      ensures Valid()
      ensures stored == e.(node := node, seqno := old(next))
      ensures Enabled(w, ActivitySteps.Append(e)) && View() == Next(w, ActivitySteps.Append(e)).proc.log
    {
      hide RingHolds, Feed, EventBytes;
      stored := e.(node := node, seqno := next);
      next := next + 1;
      PutRing(stored);
      if persist {
        FeedSegment(stored);
      }
    }

    // ------------------------------------------------------------ saving

    /** Save a segment, when the storage call succeeds, and note its name by binary search. */
    method WriteSegment(store: Storage, first: nat, events: Segment, ok: bool)
      requires Increasing(segments)
      modifies this`segments, store
      ensures segments == if ok then InsertName(old(segments), first) else old(segments)
      ensures store.files == if ok then old(store.files)[first := events] else old(store.files)
    {
      if !ok {
        return;
      }
      store.files := store.files[first := events];
      var lo, hi := 0, |segments|;
      while lo < hi
        invariant 0 <= lo <= hi <= |segments|
        invariant forall k :: 0 <= k < lo ==> segments[k] < first
        invariant forall k :: hi <= k < |segments| ==> segments[k] >= first
      {
        var mid := (lo + hi) / 2;
        if segments[mid] < first {
          lo := mid + 1;
        } else {
          hi := mid;
        }
      }
      PositionUnique(segments, first, lo);
      if lo == |segments| || segments[lo] != first {
        segments := segments[..lo] + [first] + segments[lo..];
      }
    }

    /** Write the sealed segments of a flush; writes to names in `badWrites` fail. */
    method WriteSealedSegments(store: Storage, todo: seq<Segment>, badWrites: set<nat>,
                               ghost w: World, ghost steps0: seq<Step>, ghost v0: World)
      returns (retry: seq<Segment>, err: bool, ghost steps: seq<Step>, ghost v: World)
      requires RunTo(w, steps0, v0) && Shows(v0, View(), store.files) && persist
      requires v0.proc.flush.Flushing? && v0.proc.flush.todo == todo && v0.proc.flush.retry == []
      requires !v0.proc.flush.failed
      modifies this`segments, store
      ensures RunTo(w, steps, v) && Shows(v, View(), store.files)
      ensures v.proc.flush.Flushing?
      ensures v.proc.flush == v0.proc.flush.(todo := [], retry := retry, failed := err, names := v.proc.flush.names)
      ensures (!err ==> retry == []) && (badWrites == {} ==> !err)
    {
      hide RunTo, BaseInv;
      retry, err, steps, v := [], false, steps0, v0;
      for i := 0 to |todo|
        invariant RunTo(w, steps, v) && Shows(v, View(), store.files)
        invariant v.proc.flush.Flushing?
        invariant v.proc.flush == v0.proc.flush.(todo := todo[i..], retry := retry, failed := err,
                                                 names := v.proc.flush.names)
        invariant (!err ==> retry == []) && (badWrites == {} ==> !err)
      {
        RunInv(w, steps, v);
        InvNames(v);
        InvTodo(v);
        var first := todo[i][0].seqno;
        var ok := first !in badWrites;
        WriteSegment(store, first, todo[i], ok);
        if !ok {
          err := true;
          retry := retry + [todo[i]];
        }
        StepRun(w, steps, v, WriteSealed(ok));
        steps := steps + [WriteSealed(ok)];
        v := Next(v, WriteSealed(ok));
      }
    }

    /** Write the copy of the open segment, when there is one. */
    method WriteOpenCopy(store: Storage, copy: Segment, copyFirst: nat, badWrites: set<nat>,
                         ghost w: World, ghost steps0: seq<Step>, ghost v0: World)
      returns (failed: bool, ghost steps: seq<Step>, ghost v: World)
      requires RunTo(w, steps0, v0) && Shows(v0, View(), store.files) && persist
      requires v0.proc.flush.Flushing? && v0.proc.flush.todo == [] && !v0.proc.flush.copyFailed
      requires v0.proc.flush.copy == copy && v0.proc.flush.copyFirst == copyFirst
      modifies this`segments, store
      ensures RunTo(w, steps, v) && Shows(v, View(), store.files)
      ensures v.proc.flush.Flushing?
      ensures v.proc.flush == v0.proc.flush.(copy := [], copyFailed := failed, failed := v0.proc.flush.failed || failed,
                                             names := v.proc.flush.names)
      ensures badWrites == {} ==> !failed
    {
      hide RunTo, BaseInv;
      failed, steps, v := false, steps0, v0;
      if copy != [] {
        failed := copyFirst in badWrites;
        RunInv(w, steps, v);
        InvNames(v);
        WriteSegment(store, copyFirst, copy, !failed);
        StepRun(w, steps, v, WriteCopy(!failed));
        steps := steps + [WriteCopy(!failed)];
        v := Next(v, WriteCopy(!failed));
      }
    }

    /** Put failed writes back before the segments sealed meanwhile. */
    method MergeFailures(retry: seq<Segment>, copyFailed: bool, err: bool)
      modifies this`sealed, this`dirty, this`dropped, this`lost, this`flushErr
      ensures View() == EndFlush(old(View()), retry, copyFailed, err)
    {
      hide Trim;
      sealed := retry + sealed;
      TrimPendingSegments();
      if retry != [] || copyFailed {
        dirty := true;
      }
      flushErr := err;
    }

    /** Remove the oldest files until the newest SEGMENTS_KEPT are left; removing a name in
        `badDeletes` fails and ends the loop. */
    method PruneSegments(store: Storage, badDeletes: set<nat>, ghost w: World, ghost steps0: seq<Step>, ghost v0: World)
      returns (err: bool, ghost steps: seq<Step>, ghost v: World)
      requires RunTo(w, steps0, v0) && Shows(v0, View(), store.files) && persist
      requires WritesDone(v0.proc.flush) && !v0.proc.flush.stopped
      modifies this`segments, store
      ensures RunTo(w, steps, v) && Shows(v, View(), store.files)
      ensures v.proc.flush == v0.proc.flush.(stopped := err, failed := v0.proc.flush.failed || err)
      ensures err || |segments| <= SEGMENTS_KEPT
      ensures badDeletes == {} ==> !err
    {
      hide RunTo, BaseInv;
      err, steps, v := false, steps0, v0;
      while |segments| > SEGMENTS_KEPT && !err
        invariant RunTo(w, steps, v) && Shows(v, View(), store.files)
        invariant v.proc.flush == v0.proc.flush.(stopped := err, failed := v0.proc.flush.failed || err)
        invariant badDeletes == {} ==> !err
        decreases if err then 0 else 1, |segments|
      {
        var oldest := segments[0];
        err := oldest in badDeletes;
        if !err {
          store.files := store.files - {oldest};
          segments := segments[1..];
        }
        StepRun(w, steps, v, Prune(!err));
        steps := steps + [Prune(!err)];
        v := Next(v, Prune(!err));
      }
    }

    /** The last region of a flush. */
    method FinishFlush(store: Storage, retry: seq<Segment>, copyFailed: bool, err: bool,
                       ghost w: World, ghost steps0: seq<Step>, ghost v0: World)
      returns (ghost steps: seq<Step>, ghost v: World)
      requires RunTo(w, steps0, v0) && Shows(v0, View(), store.files) && persist
      requires WritesDone(v0.proc.flush) && (v0.proc.flush.stopped || |segments| <= SEGMENTS_KEPT)
      requires v0.proc.flush.retry == retry && v0.proc.flush.copyFailed == copyFailed && v0.proc.flush.failed == err
      modifies this`sealed, this`dirty, this`dropped, this`lost, this`flushErr
      ensures RunTo(w, steps, v) && Shows(v, View(), store.files) && v.proc.flush.Idle? && flushErr == err
      ensures retry == [] && !copyFailed && old(sealed) == [] && !old(dirty) ==>
                sealed == [] && !dirty && OpenSaved(View(), store.files)
    {
      hide RunTo, BaseInv, EndFlush, Next, Enabled;
      EndShows(v0, View(), store.files);
      if sealed == [] && !dirty { EndClean(View(), err); }
      MergeFailures(retry, copyFailed, err);
      StepRun(w, steps0, v0, FlushEnd);
      steps, v := steps0 + [FlushEnd], Next(v0, FlushEnd);
      RunInv(w, steps, v);
      if !dirty { CleanIsSaved(v); }
    }

    /** Flush as one run of the steps of the log, from any state that keeps the invariant. */
    method Flush(store: Storage, badWrites: set<nat>, badDeletes: set<nat>, ghost w: World)
      returns (err: bool, ghost steps: seq<Step>)
      requires BaseInv(w) && Shows(w, View(), store.files) && w.proc.flush.Idle?
      modifies this`sealed, this`dirty, this`dropped, this`lost, this`flushErr, this`segments, store
      ensures Runs(w, steps) && AllFit(w.node, steps)
      ensures var v := After(w, steps);
              BaseInv(v) && Shows(v, View(), store.files) && v.proc.flush.Idle?
      ensures persist ==> err == flushErr
      ensures !persist ==> !err && steps == []
      ensures persist && !err ==>
                !dirty && sealed == [] && OpenSaved(View(), store.files) && |segments| <= SEGMENTS_KEPT
      ensures badWrites == {} && badDeletes == {} ==> !err
    {
      assert RunTo(w, [], w);
      hide RunTo, BaseInv;
      if !persist {
        RunEnd(w, [], w);
        return false, [];
      }
      var retry, copyFailed;
      ghost var v;
      retry, copyFailed, err, steps, v := SaveSegments(store, badWrites, badDeletes, w);
      steps, v := FinishFlush(store, retry, copyFailed, err, w, steps, v);
      RunEnd(w, steps, v);
    }

    /** The first region of a flush, and its storage calls. */
    method SaveSegments(store: Storage, badWrites: set<nat>, badDeletes: set<nat>, ghost w: World)
      returns (retry: seq<Segment>, copyFailed: bool, err: bool, ghost steps: seq<Step>, ghost v: World)
      requires RunTo(w, [], w) && Shows(w, View(), store.files) && w.proc.flush.Idle? && persist
      modifies this`sealed, this`dirty, this`segments, store
      ensures RunTo(w, steps, v) && Shows(v, View(), store.files) && WritesDone(v.proc.flush)
      ensures v.proc.flush.retry == retry && v.proc.flush.copyFailed == copyFailed && v.proc.flush.failed == err
      ensures v.proc.flush.stopped || |segments| <= SEGMENTS_KEPT
      ensures !err ==> retry == [] && !copyFailed && |segments| <= SEGMENTS_KEPT
      ensures badWrites == {} && badDeletes == {} ==> !err
      ensures sealed == [] && !dirty
    {
      hide RunTo, BaseInv, Runs, After, Next, Enabled;
      BeginShows(w, store.files);
      StepRun(w, [], w, FlushBegin);
      var todo, copy, copyFirst := sealed, if dirty then open else [], openFirst;
      sealed, dirty := [], false;
      v := Next(w, FlushBegin);
      var sealedErr, pruneErr;
      retry, sealedErr, steps, v := WriteSealedSegments(store, todo, badWrites, w, [] + [FlushBegin], v);
      copyFailed, steps, v := WriteOpenCopy(store, copy, copyFirst, badWrites, w, steps, v);
      pruneErr, steps, v := PruneSegments(store, badDeletes, w, steps, v);
      err := sealedErr || copyFailed || pruneErr;
    }

    // ------------------------------------------------------------ start-up

    /** Fill an empty ring with the newest of `events`. */
    method FillRing(events: seq<Event>)
      requires ring.Length > 0
      modifies this`slot, this`size, this`hist, ring
      ensures Valid() && hist == events
    {
      hide RingHolds;
      var n := ring.Length;
      var last := if |events| > n then events[|events| - n..] else events;
      assert last == LastN(events, n);
      RefillRing(last);
      hide LastN;
      RingOfNewest(ring[..], slot, size, events);
      hist := events;
    }

    method RefillRing(last: seq<Event>)
      requires ring.Length > 0
      modifies this`slot, this`size, this`hist, ring
      ensures Valid() && hist == last
    {
      hide RingHolds;
      slot, size, hist := 0, 0, [];
      EmptyRing(ring[..]);
      for i := 0 to |last|
        invariant Valid() && hist == last[..i]
      {
        PutRing(last[i]);
      }
      assert last[..|last|] == last;
    }

    /** Restore the newest segments, and continue past every file: the step Load of the log. */
    method LoadSegments(store: Storage, listing: seq<string>, readable: set<nat>)
      requires ring.Length > 0 && Lists(listing, store.files)
      requires open == [] && openFirst == 0 && openBytes == 0 && sealed == []
      requires !dirty && dropped == 0 && !flushErr && lost == []
      modifies this, ring
      ensures Valid()
      ensures View() == LoadLog(SortedNames(store.files.Keys), store.files, readable)
    {
      hide RingHolds, LoadLog, SortedNames, Lists;
      var r := RestoreFiles(store.files, listing, readable);
      FillRing(r.events);
      next := r.next;
      open, openFirst, openBytes := r.open, r.openFirst, r.openBytes;
      loadFailed, segments, persist := r.failed, r.firsts, true;
    }

    /** Start on the files of an earlier process; without a listing the log stays in memory. */
    method Start(store: Storage, listing: Option<seq<string>>, readable: set<nat>, ghost w: World)
      requires Valid() && View() == Log(false, 0, [], 0, 0, [], false, 0, false, false, [], [], [])
      requires w.proc.Down? && w.disk == store.files
      requires listing.Some? ==> Lists(listing.value, store.files)
      modifies this, ring
      ensures Valid()
      ensures View() == Next(w, if listing.Some? then Load(readable) else ListFails).proc.log
    {
      RingSize(ring[..], slot, size, hist);
      hide RingHolds, LoadLog, SortedNames, Lists;
      if listing.Some? {
        LoadSegments(store, listing.value, readable);
      } else {
        loadFailed := true;
      }
    }
  }
}
