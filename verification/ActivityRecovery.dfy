/** A restart after an error-free flush continues where the process stopped. */
module ActivityRecovery {
  import opened ActivityTypes
  import opened ActivitySteps
  import opened ActivityInvariant
  import opened ActivityKeeps
  import opened ActivityLoad
  import opened ActivityNumbers
  import opened ActivityRuns

  // ---------------------------------------------------------------- sorted lists are determined by their members

  lemma FrontNames(a: seq<nat>, k: nat)
    requires Increasing(a) && a != []
    ensures k in a[..|a| - 1] <==> k in a && k < a[|a| - 1]
  {
    assert a == a[..|a| - 1] + [a[|a| - 1]];
  }

  lemma {:induction false} SameNames(a: seq<nat>, b: seq<nat>)
    requires Increasing(a) && Increasing(b) && forall k :: k in a <==> k in b
    ensures a == b
  {
    assert b != [] ==> b[0] in b;
    if a == [] {
    } else {
      assert a[|a| - 1] in b;
      assert b[|b| - 1] in a;
      assert a[|a| - 1] == b[|b| - 1];
      var fa, fb := a[..|a| - 1], b[..|b| - 1];
      forall k ensures k in fa <==> k in fb { FrontNames(a, k); FrontNames(b, k); }
      SameNames(fa, fb);
    }
  }

  lemma FrontEvents(a: seq<Event>, e: Event)
    requires Ascending(a) && a != []
    ensures e in a[..|a| - 1] <==> e in a && e.seqno < a[|a| - 1].seqno
  {
    assert a == a[..|a| - 1] + [a[|a| - 1]];
  }

  lemma {:induction false} SameEvents(a: seq<Event>, b: seq<Event>)
    requires Ascending(a) && Ascending(b) && forall e :: e in a <==> e in b
    ensures a == b
  {
    assert b != [] ==> b[0] in b;
    if a == [] {
    } else {
      assert a[|a| - 1] in b;
      assert b[|b| - 1] in a;
      assert a[|a| - 1] == b[|b| - 1];
      var fa, fb := a[..|a| - 1], b[..|b| - 1];
      forall e ensures e in fa <==> e in fb { FrontEvents(a, e); FrontEvents(b, e); }
      SameEvents(fa, fb);
    }
  }

  /** The number of events numbered below `bound`. */
  ghost function CountBelow(s: seq<Event>, bound: nat): (n: nat)
    requires Ascending(s)
    ensures n <= |s|
    ensures forall i :: 0 <= i < n ==> s[i].seqno < bound
    ensures forall i :: n <= i < |s| ==> s[i].seqno >= bound
  {
    if s == [] || s[0].seqno >= bound then 0 else 1 + CountBelow(s[1..], bound)
  }

  /** The members of `hist` numbered from `bound` on are its end. */
  lemma EndOfHistory(a: seq<Event>, hist: seq<Event>, bound: nat)
    requires Ascending(a) && Ascending(hist)
    requires forall e :: e in a <==> e in hist && e.seqno >= bound
    ensures a == hist[CountBelow(hist, bound)..]
  {
    var n := CountBelow(hist, bound);
    var b := hist[n..];
    forall e ensures e in a <==> e in b {
      if e in b { var i :| n <= i < |hist| && hist[i] == e; }
      if e in a { var i :| 0 <= i < |hist| && hist[i] == e; assert i >= n; assert b[i - n] == e; }
    }
    SameEvents(a, b);
  }

  // ---------------------------------------------------------------- what is on disk after a clean flush

  /** No flush runs, nothing is unsaved, all files were read at start, nothing was dropped, and no
      files are left to prune. */
  ghost predicate CleanlyFlushed(w: World) {
    && Persistent(w) && w.proc.flush.Idle?
    && !w.proc.log.dirty && !w.proc.log.loadFailed && w.proc.log.lost == []
    && |w.proc.log.segments| <= SEGMENTS_KEPT
  }

  /** Every event not below the oldest file is on disk, and the disk holds no others. */
  lemma DiskIsHistory(w: World, e: Event)
    requires Inv(w) && CleanlyFlushed(w) && w.proc.log.segments != []
    ensures OnDisk(w.disk, e) <==> e in w.proc.log.hist && e.seqno >= w.proc.log.segments[0]
  {
    hide AllLive, InOrder, AllBelow, NextOk, CopyOk;
    var l := w.proc.log;
    if OnDisk(w.disk, e) {
      var k :| k in w.disk && e in w.disk[k];
      assert k in l.segments && k >= l.segments[0];
      assert k !in w.proc.skipped;
      assert e in Elements(w.disk[k]) && Elements(w.disk[k]) <= Elements(l.hist);
      assert e.seqno >= k by { var i :| 0 <= i < |w.disk[k]| && w.disk[k][i] == e; }
    }
    if e in l.hist && e.seqno >= l.segments[0] {
      assert Located(e, l.open, Pending(w.proc), w.disk, w.proc.pruned, l.lost);
      assert e !in w.proc.pruned;
      if e in l.open { assert w.disk[l.openFirst] == l.open; }
    }
  }

  /** With no files at all the process has stored nothing. */
  lemma NoFilesNoHistory(w: World)
    requires Inv(w) && CleanlyFlushed(w) && w.proc.log.segments == []
    ensures w.proc.log.hist == [] && w.proc.log.open == [] && w.proc.log.next == 0
  {
    hide AllLive, InOrder, AllBelow, NextOk, CopyOk;
    var l := w.proc.log;
    assert w.disk == map[];
    assert w.proc.pruned == {};
    assert l.hist != [] ==>
             l.hist[0] in l.hist && Located(l.hist[0], l.open, Pending(w.proc), w.disk, w.proc.pruned, l.lost);
  }

  // ---------------------------------------------------------------- restart

  ghost function Restarted(w: World, readable: set<nat>): World
    requires w.proc.Up?
  {
    Next(Next(w, Crash), Load(readable))
  }

  lemma RestartedLog(w: World, readable: set<nat>)
    requires Inv(w) && CleanlyFlushed(w)
    ensures NamesOk(w.proc.log.segments, w.disk)
    ensures Restarted(w, readable).proc.log == LoadLog(w.proc.log.segments, w.disk, readable)
    ensures Newest(w.proc.log.segments) == w.proc.log.segments
  {
    hide QueueOk, PlacesOk, Numbered, FilesOk, SortedNames, LoadNext, LoadEvents;
    assert NamesOk(w.proc.log.segments, w.disk);
    SameNames(SortedNames(w.disk.Keys), w.proc.log.segments);
  }

  lemma RestartedHist(w: World, readable: set<nat>)
    requires Inv(w) && CleanlyFlushed(w) && w.disk.Keys <= readable && w.proc.log.segments != []
    ensures var l := w.proc.log;
            && Ascending(l.hist)
            && Restarted(w, readable).proc.log.hist == l.hist[CountBelow(l.hist, l.segments[0])..]
  {
    var l := w.proc.log;
    var hist := Restarted(w, readable).proc.log.hist;
    RestartedLog(w, readable);
    NewestReads(l.segments, w.disk);
    EventsAscending(l.segments, w.disk, readable, w.known);
    assert HistOk(l.hist, w.known);
    forall e ensures e in hist <==> e in l.hist && e.seqno >= l.segments[0] {
      EventsIn(l.segments, w.disk, readable, e);
      DiskIsHistory(w, e);
      FilesListed(w, readable, e);
    }
    hide Inv, LoadEvents, LoadNext, Restarted, CleanlyFlushed;
    EndOfHistory(hist, l.hist, l.segments[0]);
  }

  lemma FilesListed(w: World, readable: set<nat>, e: Event)
    requires w.proc.Up? && NamesOk(w.proc.log.segments, w.disk) && w.disk.Keys <= readable
    ensures OnDisk(w.disk, e) <==> exists k :: k in w.proc.log.segments && k in readable && e in w.disk[k]
  {
    if OnDisk(w.disk, e) {
      var k :| k in w.disk && e in w.disk[k];
      assert k in w.proc.log.segments && k in readable;
    }
  }

  /** A restart after an error-free flush with every file readable: the ring's history is the end of
      the old history, the next number is the same, and the newest file is open again exactly when it
      is not full. */
  lemma RestartContinues(w: World, readable: set<nat>)
    requires FittingReachable(w) && CleanlyFlushed(w) && w.disk.Keys <= readable
    ensures var l := w.proc.log;
            var r := Restarted(w, readable).proc.log;
            && r.next == l.next
            && (exists n :: 0 <= n <= |l.hist| && r.hist == l.hist[n..])
            && r.segments == l.segments
            && !r.loadFailed
    ensures var l := w.proc.log;
            var r := Restarted(w, readable).proc.log;
            && (r.open != [] <==> l.segments != [] && l.segments[|l.segments| - 1] in w.disk &&
                                  (var newest := w.disk[l.segments[|l.segments| - 1]];
                                   |newest| < SEGMENT_EVENTS && Bytes(newest) < SEGMENT_BYTES))
            && (l.open != [] ==> r.open == l.open && r.openFirst == l.openFirst && r.openBytes == l.openBytes)
  {
    ReachableInv(w);
    RestartedLog(w, readable);
    if w.proc.log.segments == [] {
      NoFilesNoHistory(w);
      assert Restarted(w, readable).proc.log.hist == w.proc.log.hist[0..];
    } else {
      RestartedHist(w, readable);
      RestartedOpen(w, readable);
      RestartedNext(w, readable);
    }
    NewestReads(w.proc.log.segments, w.disk);
    hide Inv, FittingReachable, LoadEvents, LoadNext, Restarted, Reopens;
  }

  lemma RestartedNext(w: World, readable: set<nat>)
    requires Inv(w) && CleanlyFlushed(w) && w.disk.Keys <= readable && w.proc.log.segments != []
    ensures Restarted(w, readable).proc.log.next == w.proc.log.next
    ensures !Restarted(w, readable).proc.log.loadFailed
  {
    var l := w.proc.log;
    RestartedLog(w, readable);
    RestartedHist(w, readable);
    NewestReads(l.segments, w.disk);
    AllReadable(w, readable);
    LoadTightAt(l.segments, w.disk, w.known, readable);
    assert TightOk(l, w.proc.unread);
  }

  lemma AllReadable(w: World, readable: set<nat>)
    requires w.proc.Up? && NamesOk(w.proc.log.segments, w.disk) && w.disk.Keys <= readable
    ensures forall i :: 0 <= i < |w.proc.log.segments| ==> w.proc.log.segments[i] in readable
  {
    forall i | 0 <= i < |w.proc.log.segments| ensures w.proc.log.segments[i] in readable {
      assert w.proc.log.segments[i] in w.disk.Keys;
    }
  }

  lemma RestartedOpen(w: World, readable: set<nat>)
    requires Inv(w) && CleanlyFlushed(w) && w.disk.Keys <= readable && w.proc.log.segments != []
    ensures var l := w.proc.log;
            var r := Restarted(w, readable).proc.log;
            var last := l.segments[|l.segments| - 1];
            && last in w.disk
            && (r.open != [] <==> |w.disk[last]| < SEGMENT_EVENTS && Bytes(w.disk[last]) < SEGMENT_BYTES)
            && (l.open != [] ==> r.open == l.open && r.openFirst == l.openFirst && r.openBytes == l.openBytes)
  {
    var l := w.proc.log;
    var last: nat := l.segments[|l.segments| - 1];
    RestartedLog(w, readable);
    NewestReads(l.segments, w.disk);
    AllReadable(w, readable);
    assert last in l.segments && last in w.disk;
    NonEmpty(last, w.disk[last], w.known);
    NextExact(l.segments, w.disk, readable, w.known);
    if l.open != [] { OpenIsLast(w); }
    hide Inv, CleanlyFlushed, SegmentOk, LoadEvents, LoadNext, NamesOk, Restarted, DiskOk;
  }

  /** The open segment is the newest file, as it is on disk. */
  lemma OpenIsLast(w: World)
    requires Inv(w) && CleanlyFlushed(w) && w.proc.log.segments != [] && w.proc.log.open != []
    ensures var l := w.proc.log;
            var last := l.segments[|l.segments| - 1];
            && l.openFirst == last && last in w.disk && w.disk[last] == l.open && l.openBytes == Bytes(l.open)
            && |l.open| < SEGMENT_EVENTS && Bytes(l.open) < SEGMENT_BYTES
  {
    hide QueueOk, PlacesOk, Numbered, FilesOk;
    var l := w.proc.log;
    assert OpenOk(l, CtxOf(w)) && OpenSaved(l, w.disk);
    assert l.openFirst in l.segments && l.segments[|l.segments| - 1] in w.disk;
  }

  /** An error-free flush during which nothing was appended is followed by such a state. */
  lemma CleanFlushIsClean(w: World)
    requires Reachable(w) && Persistent(w) && Enabled(w, FlushEnd) && !w.proc.flush.failed
    requires !w.proc.log.dirty && !w.proc.log.loadFailed && w.proc.log.lost == []
    ensures CleanlyFlushed(Next(w, FlushEnd))
  {
    ReachableBase(w);
    assert BoundsOk(w.proc.flush, w.proc.log);
    assert DirtyOk(w.proc.flush, w.proc.log, w.disk);
    hide OpenPartOk, QueueOk, PlacesOk, Reachable;
  }
}
