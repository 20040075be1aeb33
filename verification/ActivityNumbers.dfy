/** Every step keeps the sequence numbers in order, if no event larger than a segment is appended. */
module ActivityNumbers {
  import opened ActivityTypes
  import opened ActivitySteps
  import opened ActivityInvariant
  import opened ActivityKeeps
  import opened ActivityAppend
  import opened ActivityLoad

  // ---------------------------------------------------------------- begin and end of a flush

  lemma BeginNumbers(w: World, gaps: bool)
    requires Numbered(w, gaps) && Persistent(w) && Enabled(w, FlushBegin)
    ensures Numbered(Next(w, FlushBegin), gaps)
  {
    hide SegmentOk, HistOk, HistBelow, KeptOk, DiskInHist, DiskOk, KnownOk;
    assert Pending(Next(w, FlushBegin).proc) == Pending(w.proc);
  }

  lemma EndNumbers(w: World, gaps: bool)
    requires Numbered(w, gaps) && Persistent(w) && Enabled(w, FlushEnd)
    ensures Numbered(Next(w, FlushEnd), gaps)
  {
    hide SegmentOk, HistOk, HistBelow, KeptOk, DiskInHist, DiskOk, KnownOk;
    EndQueue(w);
    WithoutMembers(Pending(w.proc), 0, Extra(Pending(w.proc)));
  }

  // ---------------------------------------------------------------- saving a segment

  lemma InsertKept(names: seq<nat>, first: nat, n: nat)
    requires Increasing(names)
    requires BelowKept(n, names)
    ensures BelowKept(n, InsertName(names, first))
  {
    InsertShape(names, first);
    var r := InsertName(names, first);
    if |r| != |names| {
      var m := |names| - SEGMENTS_KEPT;
      assert r[m + 1] == names[m] || r[m + 1] == first || r[m + 1] == names[m + 1];
    }
  }

  lemma SaveKept(pruned: set<Event>, skipped: set<nat>, names: seq<nat>, first: nat)
    requires Increasing(names) && KeptOk(pruned, skipped, names)
    ensures KeptOk(pruned, skipped, InsertName(names, first))
  {
    forall n | BelowKept(n, names) ensures BelowKept(n, InsertName(names, first)) { InsertKept(names, first, n); }
  }

  lemma SaveFiles(c: Ctx, known: map<nat, Placed>, first: nat, s: Segment, hist: seq<Event>)
    requires DiskOk(c.disk, known) && DiskInHist(c, hist) && SegmentOk(first, s, known)
    requires Elements(s) <= Elements(hist)
    ensures DiskOk(c.disk[first := s], known)
    ensures DiskInHist(c.(disk := c.disk[first := s]), hist)
  {
  }

  lemma WriteSealedNumbers(w: World, ok: bool, gaps: bool)
    requires Numbered(w, gaps) && Persistent(w) && Enabled(w, WriteSealed(ok)) && Increasing(w.proc.log.segments)
    ensures Numbered(Next(w, WriteSealed(ok)), gaps)
  {
    hide SegmentOk, HistOk, HistBelow, KeptOk, DiskInHist, DiskOk, KnownOk, Without, Increasing;
    var v := Next(w, WriteSealed(ok));
    var n := |w.proc.flush.retry|;
    var s := w.proc.flush.todo[0];
    TodoHead(w, ok);
    assert s in Pending(w.proc);
    assert CtxOf(v) == CtxOf(w).(disk := v.disk);
    WithoutMembers(Pending(w.proc), n, n + 1);
    if ok {
      SaveFiles(CtxOf(w), w.known, First(s), s, w.proc.log.hist);
      SaveKept(w.proc.pruned, w.proc.skipped, w.proc.log.segments, First(s));
    }
  }

  lemma WriteCopyNumbers(w: World, ok: bool, gaps: bool)
    requires Numbered(w, gaps) && Persistent(w) && Enabled(w, WriteCopy(ok)) && Increasing(w.proc.log.segments)
    ensures Numbered(Next(w, WriteCopy(ok)), gaps)
  {
    hide SegmentOk, HistOk, HistBelow, KeptOk, DiskInHist, DiskOk, KnownOk, Increasing;
    var v := Next(w, WriteCopy(ok));
    var f := w.proc.flush;
    assert CtxOf(v) == CtxOf(w).(disk := v.disk);
    assert Pending(v.proc) == Pending(w.proc);
    if ok {
      SaveFiles(CtxOf(w), w.known, f.copyFirst, f.copy, w.proc.log.hist);
      SaveKept(w.proc.pruned, w.proc.skipped, w.proc.log.segments, f.copyFirst);
    }
  }

  // ---------------------------------------------------------------- pruning

  /** The events of the oldest file come before the second oldest file. */
  lemma OldestBelow(names: seq<nat>, disk: map<nat, Segment>, known: map<nat, Placed>)
    requires NamesOk(names, disk) && DiskOk(disk, known) && |names| >= 2
    ensures forall e :: e in disk[names[0]] ==> e.seqno < names[1]
  {
    assert names[1] in disk;
    Ordered(names[0], disk[names[0]], names[1], disk[names[1]], known);
  }

  lemma PruneKept(w: World)
    requires Enabled(w, Prune(true))
    requires DiskOk(w.disk, w.known) && NamesOk(w.proc.log.segments, w.disk)
    requires KeptOk(w.proc.pruned, w.proc.skipped, w.proc.log.segments)
    ensures var v := Next(w, Prune(true)); KeptOk(v.proc.pruned, v.proc.skipped, v.proc.log.segments)
  {
    var names := w.proc.log.segments;
    OldestBelow(names, w.disk, w.known);
    forall n | BelowKept(n, names) || n < names[1] ensures BelowKept(n, names[1..]) { TailKept(names, n); }
    hide DiskOk, BelowKept;
  }

  lemma TailKept(names: seq<nat>, n: nat)
    requires Increasing(names) && |names| > SEGMENTS_KEPT && (BelowKept(n, names) || n < names[1])
    ensures BelowKept(n, names[1..])
  {
    var rest := names[1..];
    assert rest[|rest| - SEGMENTS_KEPT] == names[|names| - SEGMENTS_KEPT];
  }

  lemma PruneNumbers(w: World, ok: bool, gaps: bool)
    requires Numbered(w, gaps) && Persistent(w) && Enabled(w, Prune(ok)) && NamesOk(w.proc.log.segments, w.disk)
    ensures Numbered(Next(w, Prune(ok)), gaps)
  {
    hide SegmentOk, HistOk, HistBelow, KeptOk, KnownOk, NamesOk;
    assert Pending(Next(w, Prune(ok)).proc) == Pending(w.proc);
    if ok { PruneKept(w); }
  }

  // ---------------------------------------------------------------- appending

  lemma SealNumbers(w: World, gaps: bool)
    requires w.proc.Up? && RunsOk(w, gaps) && HistoryOk(w) && w.proc.log.open != []
    ensures RunsOk(Sealed(w), gaps) && HistoryOk(Sealed(w))
  {
    hide SegmentOk, HistOk, HistBelow, KeptOk, DiskInHist, Without;
    var l := w.proc.log;
    assert First(l.open) == l.openFirst by { FirstIs(l.openFirst, l.open, w.known); }
    var cut := Extra(l.sealed + [l.open]);
    SealQueue(w);
    WithoutMembers(Longer(w.proc), Kept(w.proc), Kept(w.proc) + cut);
  }

  lemma FirstIs(first: nat, s: Segment, known: map<nat, Placed>)
    requires SegmentOk(first, s, known)
    ensures First(s) == first
  {
    assert s[0].seqno == first + 0;
  }

  /** A fresh number leaves every segment as it was. */
  lemma FreshSegment(a: nat, t: Segment, known: map<nat, Placed>, n: nat, p: Placed)
    requires SegmentOk(a, t, known) && n !in known
    ensures SegmentOk(a, t, known[n := p])
  {
  }

  lemma FreshRuns(q: seq<Segment>, known: map<nat, Placed>, n: nat, p: Placed)
    requires AllRuns(q, known) && n !in known
    ensures AllRuns(q, known[n := p])
  {
    forall s | s in q ensures SegmentOk(First(s), s, known[n := p]) { FreshSegment(First(s), s, known, n, p); }
  }

  lemma FreshDisk(disk: map<nat, Segment>, known: map<nat, Placed>, n: nat, p: Placed)
    requires DiskOk(disk, known) && n !in known
    ensures DiskOk(disk, known[n := p])
  {
    forall k | k in disk ensures SegmentOk(k, disk[k], known[n := p]) { FreshSegment(k, disk[k], known, n, p); }
  }

  lemma ExtendRuns(w: World, e: Event, gaps: bool)
    requires w.proc.Up? && RunsOk(w, gaps) && HasRoom(w.proc.log, e) && w.proc.log.openBytes == Bytes(w.proc.log.open)
    requires w.proc.log.open == [] || !gaps
    ensures RunsOk(Extended(w, e), gaps)
  {
    hide SegmentOk, Bytes, EventBytes, AllRuns;
    var l := w.proc.log;
    var f := w.proc.flush;
    var v := Extended(w, e);
    var p := v.known[l.next];
    assert Pending(v.proc) == Pending(w.proc);
    FreshRuns(Pending(w.proc), w.known, l.next, p);
    ExtendRun(v.proc.log.openFirst, l.open, w.known, e);
    if f.Flushing? && f.copy != [] { FreshSegment(f.copyFirst, f.copy, w.known, l.next, p); }
  }

  /** A run, possibly empty, with an event of the next number. */
  lemma ExtendRun(first: nat, s: Segment, known: map<nat, Placed>, e: Event)
    requires s != [] ==> SegmentOk(first, s, known)
    requires e.seqno == first + |s| && e.seqno !in known
    requires |s| < SEGMENT_EVENTS && Bytes(s) + EventBytes(e) <= SEGMENT_BYTES
    ensures SegmentOk(first, s + [e], known[e.seqno := Placed(e, first)])
  {
    BytesSnoc(s, e);
    hide Bytes, EventBytes;
    var t := s + [e];
    var more := known[e.seqno := Placed(e, first)];
    forall i | 0 <= i < |t| ensures InPlace(first, t, i, more) {
      if i < |s| { assert InPlace(first, s, i, known); }
    }
  }

  lemma ExtendHistory(w: World, e: Event)
    requires w.proc.Up? && HistoryOk(w) && KnownBelow(w.known, w.proc.log.next) && e.seqno == w.proc.log.next
    requires EventBytes(e) <= SEGMENT_BYTES
    ensures HistoryOk(Extended(w, e))
  {
    hide KeptOk;
    var l := w.proc.log;
    assert Pending(Extended(w, e).proc) == Pending(w.proc);
    assert Elements(l.hist + [e]) == Elements(l.hist) + {e};
    assert Elements(l.open + [e]) == Elements(l.open) + {e};
  }

  lemma ExtendNumbers(w: World, e: Event, gaps: bool)
    requires Numbered(w, gaps) && Persistent(w) && HasRoom(w.proc.log, e)
    requires w.proc.log.openBytes == Bytes(w.proc.log.open) && (w.proc.log.open == [] || !gaps)
    ensures Numbered(Extended(w, e), gaps)
  {
    hide HistoryOk, DiskOk, AllRuns, SegmentOk;
    var l := w.proc.log;
    var v := Extended(w, e);
    ExtendRuns(w, e, gaps);
    ExtendHistory(w, e);
    FreshDisk(w.disk, w.known, l.next, v.known[l.next]);
  }

  lemma RoomyNumbers(w: World, e: Event, gaps: bool)
    requires Numbered(w, gaps) && Persistent(w)
    ensures Numbered(Roomy(w, e), gaps) && Persistent(Roomy(w, e))
  {
    hide RunsOk, HistoryOk, DiskOk, KnownOk;
    if Roomy(w, e) != w { SealNumbers(w, gaps); }
  }

  lemma OpenBytes(w: World)
    requires w.proc.Up? && ProcessOk(w)
    ensures w.proc.log.openBytes == Bytes(w.proc.log.open)
  {
  }

  /** The event is oversized or extends no segment with others, if numbers may be used up without being
      stored; and it fits, if they may not. */
  ghost predicate Orderly(w: World, e: Event, gaps: bool)
    requires w.proc.Up?
  {
    if gaps then EventBytes(e) > SEGMENT_BYTES || Roomy(w, e).proc.log.open == []
    else EventBytes(e) <= SEGMENT_BYTES
  }

  lemma SkipNumbers(w: World, e: Event)
    requires Numbered(w, true) && Persistent(w) && e.seqno == w.proc.log.next && EventBytes(e) > SEGMENT_BYTES
    ensures Numbered(Skipped(w, e), true)
  {
    hide SegmentOk, KeptOk, DiskOk;
    var l := w.proc.log;
    assert Pending(Skipped(w, e).proc) == Pending(w.proc);
    assert Elements(l.hist + [e]) == Elements(l.hist) + {e};
  }

  lemma AppendNumbers(w: World, raw: Event, gaps: bool)
    requires BaseInv(w) && Numbered(w, gaps) && Persistent(w) && Orderly(w, Stamp(w, raw), gaps)
    ensures Numbered(Next(w, Append(raw)), gaps)
  {
    hide Numbered, ProcessOk, FilesOk, EventBytes, Bytes;
    var e := Stamp(w, raw);
    if EventBytes(e) > SEGMENT_BYTES {
      AppendSkips(w, raw);
      SkipNumbers(w, e);
    } else {
      var r := Roomy(w, e);
      RoomyKeeps(w, e);
      RoomyNumbers(w, e, gaps);
      OpenBytes(r);
      ExtendNumbers(r, e, gaps);
      AppendStores(w, raw);
      if Full(Extended(r, e).proc.log) { SealAll(Extended(r, e), gaps); }
    }
  }

  lemma SealAll(w: World, gaps: bool)
    requires Numbered(w, gaps) && Persistent(w) && w.proc.log.open != []
    ensures Numbered(Sealed(w), gaps)
  {
    hide RunsOk, HistoryOk, DiskOk, KnownOk;
    SealNumbers(w, gaps);
  }

  // ---------------------------------------------------------------- crash

  lemma CrashNumbers(w: World, gaps: bool)
    requires Numbered(w, gaps) && w.proc.Up?
    ensures Numbered(Next(w, Crash), gaps)
  {
    hide RunsOk, HistoryOk;
    forall k | k in w.disk ensures SegmentOk(k, w.disk[k], StoredOnly(w.known, w.disk)) {
      CrashSegment(w.disk, w.known, k);
    }
  }

  lemma CrashSegment(disk: map<nat, Segment>, known: map<nat, Placed>, k: nat)
    requires k in disk && SegmentOk(k, disk[k], known)
    ensures SegmentOk(k, disk[k], StoredOnly(known, disk))
  {
    var s := disk[k];
    var stored := StoredOnly(known, disk);
    forall i | 0 <= i < |s| ensures InPlace(k, s, i, stored) {
      assert InPlace(k, s, i, known);
      assert Stored(disk, k + i, known[k + i]);
    }
  }

  // ---------------------------------------------------------------- load

  /** Reading a whole segment continues right after it, unless a larger number was already reached. */
  lemma {:induction false} NextPastRun(next: nat, s: Segment, first: nat)
    requires forall i :: 0 <= i < |s| ==> s[i].seqno == first + i
    requires s != []
    ensures NextPast(next, s) == Max(next, first + |s|)
  {
    var front := s[..|s| - 1];
    if front != [] {
      NextPastRun(next, front, first);
    } else {
      assert NextPast(next, front) == next;
    }
  }

  /** The next number is above every event of every file read, readable or not. */
  lemma {:induction false} NextCovers(read: seq<nat>, disk: map<nat, Segment>, readable: set<nat>,
                                      known: map<nat, Placed>, i: nat)
    requires Reads(read, disk) && DiskOk(disk, known) && i < |read|
    ensures read[i] + |disk[read[i]]| <= LoadNext(read, disk, readable)
  {
    var front := read[..|read| - 1];
    var last := read[|read| - 1];
    if last in readable { NextPastCovers(Max(LoadNext(front, disk, readable), last + 1), disk[last]); }
    if i < |front| {
      NextCovers(front, disk, readable, known, i);
    } else {
      var s := disk[last];
      assert s[|s| - 1].seqno == last + |s| - 1;
    }
  }

  /** With every file readable, the next number is the end of the newest file. */
  lemma {:induction false} NextExact(read: seq<nat>, disk: map<nat, Segment>, readable: set<nat>,
                                     known: map<nat, Placed>)
    requires Reads(read, disk) && DiskOk(disk, known) && Increasing(read) && read != []
    requires forall i :: 0 <= i < |read| ==> read[i] in readable
    ensures LoadNext(read, disk, readable) == read[|read| - 1] + |disk[read[|read| - 1]]|
  {
    var front := read[..|read| - 1];
    var last := read[|read| - 1];
    NextPastRun(Max(LoadNext(front, disk, readable), last + 1), disk[last], last);
    if front == [] {
    } else {
      var prev := front[|front| - 1];
      NextExact(front, disk, readable, known);
      Ordered(prev, disk[prev], last, disk[last], known);
    }
  }

  lemma {:induction false} EventsAscending(read: seq<nat>, disk: map<nat, Segment>, readable: set<nat>,
                                           known: map<nat, Placed>)
    requires Reads(read, disk) && DiskOk(disk, known) && Increasing(read)
    ensures Ascending(LoadEvents(read, disk, readable))
  {
    if read == [] {
    } else {
      var front := read[..|read| - 1];
      var last := read[|read| - 1];
      var before := LoadEvents(front, disk, readable);
      EventsAscending(front, disk, readable, known);
      forall i | 0 <= i < |before| ensures before[i].seqno < last {
        EventsIn(front, disk, readable, before[i]);
        var k :| k in front && k in readable && before[i] in disk[k];
        Ordered(k, disk[k], last, disk[last], known);
      }
    }
  }

  lemma {:induction false} EventsLast(read: seq<nat>, disk: map<nat, Segment>, readable: set<nat>)
    requires Reads(read, disk) && read != [] && read[|read| - 1] in readable
    requires disk[read[|read| - 1]] != []
    ensures var hist := LoadEvents(read, disk, readable);
            var s := disk[read[|read| - 1]];
            hist != [] && hist[|hist| - 1] == s[|s| - 1]
  {
  }

  /** Every file, read or older than those read, ends below the next number. */
  lemma LoadCovers(names: seq<nat>, disk: map<nat, Segment>, readable: set<nat>, known: map<nat, Placed>, k: nat)
    requires NamesOk(names, disk) && DiskOk(disk, known) && k in disk
    ensures Reads(Newest(names), disk)
    ensures k + |disk[k]| <= LoadNext(Newest(names), disk, readable)
  {
    var read := Newest(names);
    NewestReads(names, disk);
    NewestNames(names);
    if k in read {
      var i :| 0 <= i < |read| && read[i] == k;
      NextCovers(read, disk, readable, known, i);
    } else {
      NextCovers(read, disk, readable, known, 0);
      Ordered(k, disk[k], read[0], disk[read[0]], known);
    }
  }

  lemma LoadKnown(names: seq<nat>, disk: map<nat, Segment>, readable: set<nat>, known: map<nat, Placed>)
    requires NamesOk(names, disk) && DiskOk(disk, known) && Settled(disk, known)
    ensures KnownBelow(known, LoadLog(names, disk, readable).next)
  {
    hide LoadNext, LoadEvents, SegmentOk;
    var next := LoadLog(names, disk, readable).next;
    forall k | k in disk ensures k + |disk[k]| <= next { LoadCovers(names, disk, readable, known, k); }
    hide Newest, LoadLog;
    forall n | n in known ensures n < next { assert Stored(disk, n, known[n]); }
  }

  lemma NonEmpty(first: nat, s: Segment, known: map<nat, Placed>)
    requires SegmentOk(first, s, known)
    ensures s != [] && s[|s| - 1].seqno == first + (|s| - 1)
  {
  }

  lemma LoadRuns(names: seq<nat>, disk: map<nat, Segment>, readable: set<nat>, known: map<nat, Placed>, v: World,
                 gaps: bool)
    requires NamesOk(names, disk) && DiskOk(disk, known) && Settled(disk, known)
    requires v.known == known && v.proc == LoadProcess(names, disk, readable)
    ensures RunsOk(v, gaps)
  {
    hide LoadNext, LoadEvents, Bytes, SegmentOk, Settled, KnownBelow;
    LoadKnown(names, disk, readable, known);
    var l := v.proc.log;
    NewestReads(names, disk);
    if l.open != [] {
      assert l.openFirst in disk && l.open == disk[l.openFirst];
      NonEmpty(l.openFirst, l.open, known);
    }
    hide Newest, NamesOk, DiskOk;
  }

  lemma LoadTight(names: seq<nat>, disk: map<nat, Segment>, readable: set<nat>, known: map<nat, Placed>)
    requires NamesOk(names, disk) && DiskOk(disk, known)
    ensures TightOk(LoadLog(names, disk, readable), LoadProcess(names, disk, readable).unread)
  {
    var l := LoadLog(names, disk, readable);
    var read := Newest(names);
    NewestReads(names, disk);
    NewestNames(names);
    if l.loadFailed {
      var i :| 0 <= i < |read| && read[i] !in readable;
      assert read[i] in LoadProcess(names, disk, readable).unread;
    } else if read != [] {
      LoadTightAt(read, disk, known, readable);
    }
  }

  lemma LoadTightAt(read: seq<nat>, disk: map<nat, Segment>, known: map<nat, Placed>, readable: set<nat>)
    requires DiskOk(disk, known) && Reads(read, disk) && Increasing(read) && read != []
    requires forall i :: 0 <= i < |read| ==> read[i] in readable
    ensures var hist := LoadEvents(read, disk, readable);
            hist != [] && hist[|hist| - 1].seqno + 1 == LoadNext(read, disk, readable)
  {
    var last: nat := read[|read| - 1];
    assert last in disk;
    NonEmpty(last, disk[last], known);
    NextExact(read, disk, readable, known);
    EventsLast(read, disk, readable);
  }

  lemma LoadHistOk(read: seq<nat>, disk: map<nat, Segment>, readable: set<nat>, known: map<nat, Placed>)
    requires Reads(read, disk) && Increasing(read) && DiskOk(disk, known)
    ensures HistOk(LoadEvents(read, disk, readable), known)
  {
    hide LoadEvents;
    var hist := LoadEvents(read, disk, readable);
    EventsAscending(read, disk, readable, known);
    forall i | 0 <= i < |hist|
      ensures EventBytes(hist[i]) <= SEGMENT_BYTES && hist[i].seqno in known && known[hist[i].seqno].event == hist[i]
    {
      EventsIn(read, disk, readable, hist[i]);
      var k :| k in read && k in readable && hist[i] in disk[k];
      var j :| 0 <= j < |disk[k]| && disk[k][j] == hist[i];
      EventWithin(disk[k], j);
    }
  }

  lemma {:induction false} EventWithin(s: Segment, j: nat)
    requires j < |s|
    ensures EventBytes(s[j]) <= Bytes(s)
  {
    if j < |s| - 1 { EventWithin(s[..|s| - 1], j); }
  }

  lemma LoadHistBelow(read: seq<nat>, disk: map<nat, Segment>, readable: set<nat>)
    requires Reads(read, disk)
    ensures HistBelow(LoadEvents(read, disk, readable), LoadNext(read, disk, readable))
  {
    hide LoadEvents, LoadNext;
    var hist := LoadEvents(read, disk, readable);
    forall i | 0 <= i < |hist| ensures hist[i].seqno < LoadNext(read, disk, readable) {
      EventsIn(read, disk, readable, hist[i]);
      var k :| k in read && k in readable && hist[i] in disk[k];
      var n :| 0 <= n < |read| && read[n] == k;
      NextAbove(read, disk, readable, n);
    }
  }

  lemma LoadInHist(names: seq<nat>, disk: map<nat, Segment>, readable: set<nat>, v: World)
    requires NamesOk(names, disk)
    requires v.disk == disk && v.proc == LoadProcess(names, disk, readable)
    ensures HeldInHist(v.proc.log, Pending(v.proc), v.proc.flush)
    ensures DiskInHist(CtxOf(v), v.proc.log.hist)
  {
    hide LoadNext, LoadEvents, Bytes;
    var read := Newest(names);
    NewestReads(names, disk);
    forall e ensures e in v.proc.log.hist <==> exists k :: k in read && k in readable && e in disk[k] {
      EventsIn(read, disk, readable, e);
    }
    hide Newest;
  }

  lemma LoadHistory(names: seq<nat>, disk: map<nat, Segment>, readable: set<nat>, known: map<nat, Placed>, v: World)
    requires NamesOk(names, disk) && DiskOk(disk, known)
    requires v.disk == disk && v.known == known && v.proc == LoadProcess(names, disk, readable)
    ensures HistoryOk(v)
  {
    NewestReads(names, disk);
    NewestNames(names);
    hide LoadNext, LoadEvents, Newest, Increasing, HistOk, HistBelow, HeldInHist, DiskInHist, TightOk, DiskOk;
    LoadHistOk(Newest(names), disk, readable, known);
    LoadHistBelow(Newest(names), disk, readable);
    LoadInHist(names, disk, readable, v);
    LoadTight(names, disk, readable, known);
  }

  lemma LoadNumbers(w: World, readable: set<nat>, gaps: bool)
    requires Numbered(w, gaps) && w.proc.Down?
    ensures Numbered(Next(w, Load(readable)), gaps)
  {
    var names := SortedNames(w.disk.Keys);
    assert NamesOk(names, w.disk);
    hide RunsOk, HistoryOk, DiskOk, KnownOk, Settled, LoadNext, LoadEvents, SortedNames, NamesOk;
    var v := Next(w, Load(readable));
    LoadRuns(names, w.disk, readable, w.known, v, gaps);
    LoadHistory(names, w.disk, readable, w.known, v);
  }

  // ---------------------------------------------------------------- every step

  lemma NamesIncrease(w: World)
    requires BaseInv(w) && Persistent(w)
    ensures NamesOk(w.proc.log.segments, w.disk) && Increasing(w.proc.log.segments)
  {
    hide QueueOk, PlacesOk, FilesOk;
  }

  lemma MemoryNumbers(w: World, e: Event, gaps: bool)
    requires Numbered(w, gaps) && w.proc.Up? && !w.proc.log.persist
    ensures Numbered(Next(w, Append(e)), gaps)
  {
    hide DiskOk, KnownOk, Settled;
  }

  lemma StepNumbers(w: World, step: Step, gaps: bool)
    requires BaseInv(w) && Numbered(w, gaps) && Enabled(w, step)
    requires step.Append? && w.proc.log.persist ==> Orderly(w, Stamp(w, step.event), gaps)
    ensures Numbered(Next(w, step), gaps)
  {
    hide Numbered, ProcessOk, FilesOk, LoadLog, LoadProcess, Feed, Full, Orderly;
    if Persistent(w) { NamesIncrease(w); }
    match step
    case Append(e) => if w.proc.log.persist { AppendNumbers(w, e, gaps); } else { MemoryNumbers(w, e, gaps); }
    case FlushBegin => if w.proc.log.persist { BeginNumbers(w, gaps); }
    case WriteSealed(ok) => WriteSealedNumbers(w, ok, gaps);
    case WriteCopy(ok) => WriteCopyNumbers(w, ok, gaps);
    case Prune(ok) => PruneNumbers(w, ok, gaps);
    case FlushEnd => EndNumbers(w, gaps);
    case Crash => CrashNumbers(w, gaps);
    case Load(readable) => LoadNumbers(w, readable, gaps);
    case ListFails => ListFailsNumbers(w, gaps);
  }

  lemma ListFailsNumbers(w: World, gaps: bool)
    requires Numbered(w, gaps) && w.proc.Down?
    ensures Numbered(Next(w, ListFails), gaps)
  {
  }
}
