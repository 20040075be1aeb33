/** How events are packed into segments, and which pending segments are dropped.  All of it holds in every
    run, whatever the sizes of the events. */
module ActivityPacking {
  import opened ActivityTypes
  import opened ActivitySteps
  import opened ActivityInvariant
  import opened ActivityKeeps
  import opened ActivityAppend
  import opened ActivityLoad
  import opened ActivityNumbers
  import opened ActivityRuns

  // ---------------------------------------------------------------- what one step seals and drops

  /** Of the pending list `q` the newest SEGMENTS_KEPT segments stay; the events of the others are counted. */
  ghost predicate KeepsNewest(l: Log, q: seq<Segment>, v: Log) {
    var n := if |q| < SEGMENTS_KEPT then |q| else SEGMENTS_KEPT;
    && v.sealed == q[|q| - n..]
    && v.dropped == l.dropped + |Flatten(q[..|q| - n])|
    && v.lost == l.lost + Flatten(q[..|q| - n])
  }

  /** The event does not fit what is open. */
  ghost predicate Overflows(open: Segment, e: Event) {
    open != [] && Bytes(open) + EventBytes(e) > SEGMENT_BYTES
  }

  /** The open segment with the event, or with the event alone if it did not fit. */
  ghost function Grown(open: Segment, e: Event): Segment {
    if Overflows(open, e) then [e] else open + [e]
  }

  ghost predicate AtLimit(s: Segment) {
    |s| >= SEGMENT_EVENTS || Bytes(s) >= SEGMENT_BYTES
  }

  /** The segments an append seals: what was open if the event does not fit, and what is open then if that
      has reached a limit. */
  ghost function SealedBy(open: Segment, e: Event): seq<Segment> {
    (if Overflows(open, e) then [open] else []) + if AtLimit(Grown(open, e)) then [Grown(open, e)] else []
  }

  lemma EndTrims(w: World)
    requires Enabled(w, FlushEnd)
    ensures var v := Next(w, FlushEnd);
            && v.proc.Up? && v.proc.log.open == w.proc.log.open
            && KeepsNewest(w.proc.log, w.proc.flush.retry + w.proc.log.sealed, v.proc.log)
  {
    var q := w.proc.flush.retry + w.proc.log.sealed;
    FlattenTotal(q[..Extra(q)]);
  }

  lemma SealTrims(l: Log)
    ensures KeepsNewest(l, l.sealed + [l.open], Seal(l))
  {
    var q := l.sealed + [l.open];
    FlattenTotal(q[..Extra(q)]);
  }

  lemma {:induction false} FlattenJoin(a: seq<Segment>, b: seq<Segment>)
    ensures Flatten(a + b) == Flatten(a) + Flatten(b)
  {
    if b == [] {
      assert a + b == a;
    } else {
      FlattenJoin(a, b[..|b| - 1]);
      assert (a + b)[..|a + b| - 1] == a + b[..|b| - 1];
    }
  }

  /** Trimming after each of two seals is trimming once. */
  lemma TrimTwice(l: Log, q: seq<Segment>, u: Log, s: Segment, v: Log)
    requires KeepsNewest(l, q, u) && KeepsNewest(u, u.sealed + [s], v)
    ensures KeepsNewest(l, q + [s], v)
  {
    var n := if |q| < SEGMENTS_KEPT then |q| else SEGMENTS_KEPT;
    var r := u.sealed + [s];
    var m := if |r| < SEGMENTS_KEPT then |r| else SEGMENTS_KEPT;
    assert q + [s] == q[..|q| - n] + r;
    FlattenJoin(q[..|q| - n], r[..|r| - m]);
    assert (q + [s])[..|q| + 1 - m] == q[..|q| - n] + r[..|r| - m];
    assert (q + [s])[|q| + 1 - m..] == r[|r| - m..];
    hide Flatten;
  }

  lemma NothingTrimmed(l: Log, v: Log)
    requires |l.sealed| <= SEGMENTS_KEPT && v.sealed == l.sealed && v.dropped == l.dropped && v.lost == l.lost
    ensures KeepsNewest(l, l.sealed, v)
  {
    assert l.lost + [] == l.lost;
  }

  /** The parts of the log that sealing changes. */
  ghost predicate SameQueue(a: Log, b: Log) {
    a.sealed == b.sealed && a.dropped == b.dropped && a.lost == b.lost
  }

  lemma SealCloses(l: Log)
    ensures Seal(l).open == [] && Seal(l).openBytes == Bytes([])
  {
    hide Flatten, Total;
  }

  /** Making room for the event. */
  ghost function MadeRoom(l: Log, e: Event): Log {
    if l.open != [] && l.openBytes + EventBytes(e) > SEGMENT_BYTES then Seal(l) else l
  }

  lemma RoomTrims(l: Log, e: Event)
    requires |l.sealed| <= SEGMENTS_KEPT && l.openBytes == Bytes(l.open)
    ensures var r := MadeRoom(l, e);
            && KeepsNewest(l, l.sealed + (if Overflows(l.open, e) then [l.open] else []), r)
            && r.open + [e] == Grown(l.open, e) && r.openBytes == Bytes(r.open)
  {
    hide Seal, Bytes, EventBytes, KeepsNewest;
    assert l.sealed + [] == l.sealed;
    NothingTrimmed(l, l);
    SealTrims(l);
    SealCloses(l);
  }

  lemma ExtendPacks(l: Log, e: Event)
    requires l.openBytes == Bytes(l.open)
    ensures var x := Extend(l, e);
            x.open == l.open + [e] && x.openBytes == Bytes(x.open) && SameQueue(l, x)
  {
    BytesSnoc(l.open, e);
    hide Bytes, EventBytes;
  }

  lemma SameTrim(l: Log, q: seq<Segment>, a: Log, b: Log)
    requires KeepsNewest(l, q, a) && SameQueue(a, b)
    ensures KeepsNewest(l, q, b)
  {
  }

  lemma FeedIs(l: Log, e: Event)
    requires EventBytes(e) <= SEGMENT_BYTES
    ensures var x := Extend(MadeRoom(l, e), e);
            Feed(l, e) == if Full(x) then Seal(x) else x
  {
    hide Seal, Extend, EventBytes;
  }

  lemma FeedSeals(l: Log, e: Event)
    requires |l.sealed| <= SEGMENTS_KEPT && l.openBytes == Bytes(l.open) && EventBytes(e) <= SEGMENT_BYTES
    ensures var v := Feed(l, e);
            && KeepsNewest(l, l.sealed + SealedBy(l.open, e), v)
            && v.open == if AtLimit(Grown(l.open, e)) then [] else Grown(l.open, e)
  {
    hide Feed, MadeRoom, Extend, Seal, EventBytes, Bytes, Overflows, KeepsNewest, Grown;
    FeedIs(l, e);
    RoomTrims(l, e);
    var r := MadeRoom(l, e);
    ExtendPacks(r, e);
    var x := Extend(r, e);
    var q := l.sealed + (if Overflows(l.open, e) then [l.open] else []);
    SameTrim(l, q, r, x);
    SealCloses(x);
    SealTrims(x);
    if AtLimit(x.open) {
      TrimTwice(l, q, x, x.open, Seal(x));
      assert q + [x.open] == l.sealed + SealedBy(l.open, e);
    } else {
      assert q == l.sealed + SealedBy(l.open, e);
    }
  }

  lemma AppendFeeds(w: World, raw: Event)
    requires Persistent(w)
    ensures var l, e := w.proc.log, Stamp(w, raw);
            && Next(w, Append(raw)).proc.Up?
            && Next(w, Append(raw)).proc.log == Feed(l.(next := l.next + 1, hist := l.hist + [e]), e)
  {
    hide Feed, EventBytes;
  }

  lemma OpenCounted(w: World)
    requires BaseInv(w) && Persistent(w)
    ensures w.proc.log.openBytes == Bytes(w.proc.log.open) && |w.proc.log.sealed| <= SEGMENTS_KEPT
  {
    hide Bytes, PlacesOk, FilesOk, AllLive, InOrder, AllBelow, CopyOk, DirtyOk, NamesOk, NextOk;
  }

  lemma SameStart(a: Log, b: Log, q: seq<Segment>, v: Log)
    requires KeepsNewest(a, q, v) && SameQueue(a, b)
    ensures KeepsNewest(b, q, v)
  {
  }

  /** What an append does to the segments in memory; an oversized event is counted and changes none. */
  ghost predicate Packed(l: Log, e: Event, v: Log) {
    if EventBytes(e) > SEGMENT_BYTES then
      v.sealed == l.sealed && v.open == l.open && v.dropped == l.dropped + 1 && v.lost == l.lost + [e]
    else
      && KeepsNewest(l, l.sealed + SealedBy(l.open, e), v)
      && v.open == if AtLimit(Grown(l.open, e)) then [] else Grown(l.open, e)
  }

  lemma FeedPacks(l: Log, e: Event)
    requires |l.sealed| <= SEGMENTS_KEPT && l.openBytes == Bytes(l.open)
    ensures Packed(l, e, Feed(l.(next := l.next + 1, hist := l.hist + [e]), e))
  {
    hide EventBytes, Bytes, Grown, AtLimit, SealedBy, KeepsNewest;
    var stored := l.(next := l.next + 1, hist := l.hist + [e]);
    if EventBytes(e) <= SEGMENT_BYTES {
      hide Feed;
      FeedSeals(stored, e);
      SameStart(stored, l, l.sealed + SealedBy(l.open, e), Feed(stored, e));
    }
  }

  /** In every reachable state: an append seals and drops exactly so; the end of a flush puts the segments whose
      write failed before the others and drops the same way; and no other step drops anything. */
  lemma DropsOldest(w: World, step: Step)
    requires Reachable(w) && Persistent(w) && Enabled(w, step) && !step.Crash?
    ensures Next(w, step).proc.Up?
    ensures var l, v := w.proc.log, Next(w, step).proc.log;
            match step
            case Append(raw) => Packed(l, Stamp(w, raw), v)
            case FlushEnd => KeepsNewest(l, w.proc.flush.retry + l.sealed, v) && v.open == l.open
            case _ => v.dropped == l.dropped && v.lost == l.lost
  {
    ReachableBase(w);
    hide Reachable, BaseInv, KeepsNewest, Packed, Next, Stamp;
    match step
    case Append(raw) =>
      OpenCounted(w);
      AppendPacks(w, raw);
    case FlushEnd => EndTrims(w);
    case _ => OthersDropNothing(w, step);
  }

  lemma AppendPacks(w: World, raw: Event)
    requires Persistent(w) && w.proc.log.openBytes == Bytes(w.proc.log.open) && |w.proc.log.sealed| <= SEGMENTS_KEPT
    ensures Next(w, Append(raw)).proc.Up? && Packed(w.proc.log, Stamp(w, raw), Next(w, Append(raw)).proc.log)
  {
    hide Packed, Feed, Next, Bytes;
    AppendFeeds(w, raw);
    FeedPacks(w.proc.log, Stamp(w, raw));
  }

  lemma OthersDropNothing(w: World, step: Step)
    requires w.proc.Up? && Enabled(w, step) && !step.Append? && !step.FlushEnd? && !step.Crash?
    ensures Next(w, step).proc.Up?
    ensures Next(w, step).proc.log.dropped == w.proc.log.dropped && Next(w, step).proc.log.lost == w.proc.log.lost
  {
    hide InsertName;
  }

  // ---------------------------------------------------------------- numbers rise through the pending segments

  /** Numbers rise within each segment and from segment to segment, and stay below `next`. */
  ghost predicate Rises(q: seq<Segment>, next: nat) {
    && (forall s :: s in q ==> Ascending(s))
    && (forall s, e :: s in q && e in s ==> e.seqno < next)
    && (forall i, j, a, b :: 0 <= i < j < |q| && a in q[i] && b in q[j] ==> a.seqno < b.seqno)
  }

  ghost predicate Rising(w: World) {
    && (forall k :: k in w.disk ==> Ascending(w.disk[k]))
    && (Persistent(w) ==>
          && Rises(Longer(w.proc), w.proc.log.next)
          && (w.proc.flush.Flushing? ==> Ascending(w.proc.flush.copy)))
  }

  lemma RisesWithout(q: seq<Segment>, i: nat, j: nat, next: nat)
    requires i <= j <= |q| && Rises(q, next)
    ensures Rises(Without(q, i, j), next)
  {
    hide Ascending;
    var r := Without(q, i, j);
    WithoutMembers(q, i, j);
    assert forall a :: 0 <= a < |r| ==> r[a] == q[if a < i then a else a + j - i];
    hide Without;
  }

  lemma RisesEmpty(q: seq<Segment>, next: nat)
    requires Rises(q, next)
    ensures Rises(q + [[]], next)
  {
    hide Ascending;
    assert Ascending([]) by { NothingAscends(); }
  }

  lemma NothingAscends()
    ensures Ascending([])
  {
  }

  lemma RisesGrow(q: seq<Segment>, open: Segment, e: Event)
    requires Rises(q + [open], e.seqno)
    ensures Rises(q + [open + [e]], e.seqno + 1)
  {
    var r := q + [open + [e]];
    assert forall s :: s in q ==> s in q + [open];
    assert open in q + [open];
    assert Ascending(open + [e]) by {
      forall i | 0 <= i < |open| ensures open[i].seqno < e.seqno { assert open[i] in open; }
    }
    hide Ascending;
    forall i, j, a: Event, b: Event | 0 <= i < j < |r| && a in r[i] && b in r[j] ensures a.seqno < b.seqno {
      assert r[i] == (q + [open])[i] && r[i] in q + [open];
      if j == |q| {
        assert b in open ==> b in (q + [open])[j];
      } else {
        assert r[j] == (q + [open])[j];
      }
    }
  }

  lemma SealRising(w: World)
    requires Persistent(w) && Rising(w)
    ensures Rising(Sealed(w))
  {
    hide Rises, Ascending, Without, Pending;
    var all := w.proc.log.sealed + [w.proc.log.open];
    SealQueue(w);
    var q := Without(Longer(w.proc), Kept(w.proc), Kept(w.proc) + Extra(all));
    RisesWithout(Longer(w.proc), Kept(w.proc), Kept(w.proc) + Extra(all), w.proc.log.next);
    RisesEmpty(q, w.proc.log.next);
    assert Sealed(w).proc.log.open == [];
  }

  lemma ExtendRising(w: World, e: Event)
    requires Persistent(w) && Rising(w) && e.seqno == w.proc.log.next
    ensures Rising(Extended(w, e))
  {
    hide Rises, Ascending;
    assert Pending(Extended(w, e).proc) == Pending(w.proc);
    RisesGrow(Pending(w.proc), w.proc.log.open, e);
  }

  lemma RisesOn(q: seq<Segment>, next: nat, later: nat)
    requires Rises(q, next) && next <= later
    ensures Rises(q, later)
  {
    hide Ascending;
  }

  lemma AppendRising(w: World, raw: Event)
    requires Persistent(w) && Rising(w)
    ensures Rising(Next(w, Append(raw)))
  {
    hide Rises, Next, EventBytes, Longer, Ascending, Seal;
    var e := Stamp(w, raw);
    if EventBytes(e) > SEGMENT_BYTES {
      AppendSkips(w, raw);
      SkipRising(w, e);
    } else {
      AppendStores(w, raw);
      var r := Roomy(w, e);
      if r != w { SealRising(w); }
      assert r.proc.log.next == w.proc.log.next && Persistent(r) by { SealSame(w); }
      ExtendRising(r, e);
      if Full(Extended(r, e).proc.log) { SealRising(Extended(r, e)); }
    }
  }

  lemma SealSame(w: World)
    requires w.proc.Up?
    ensures Sealed(w).proc.log.next == w.proc.log.next && Sealed(w).proc.log.persist == w.proc.log.persist
    ensures Sealed(w).proc.log.hist == w.proc.log.hist && Sealed(w).proc.log.open == []
  {
  }

  lemma SkipRising(w: World, e: Event)
    requires Persistent(w) && Rising(w)
    ensures Rising(Skipped(w, e))
  {
    hide Rises;
    assert Longer(Skipped(w, e).proc) == Longer(w.proc);
    RisesOn(Longer(w.proc), w.proc.log.next, w.proc.log.next + 1);
  }

  lemma WriteSealedRising(w: World, ok: bool)
    requires Persistent(w) && Rising(w) && Enabled(w, WriteSealed(ok))
    ensures Rising(Next(w, WriteSealed(ok)))
  {
    hide Ascending, InsertName, Without, First;
    var n, q := |w.proc.flush.retry|, Pending(w.proc);
    TodoHead(w, ok);
    assert q[n] in Longer(w.proc);
    RisesWithout(Longer(w.proc), n, n + 1, w.proc.log.next);
    WithoutFront(q, n, w.proc.log.open);
    hide Rises;
  }

  lemma WithoutFront(q: seq<Segment>, n: nat, s: Segment)
    requires n < |q|
    ensures Without(q + [s], n, n + 1) == Without(q, n, n + 1) + [s]
  {
  }

  lemma EndRising(w: World)
    requires Persistent(w) && Rising(w) && Enabled(w, FlushEnd)
    ensures Rising(Next(w, FlushEnd))
  {
    hide Rises, Ascending;
    var q := Pending(w.proc);
    EndQueue(w);
    RisesWithout(Longer(w.proc), 0, Extra(q), w.proc.log.next);
    assert Without(Longer(w.proc), 0, Extra(q)) == Without(q, 0, Extra(q)) + [w.proc.log.open];
    hide Without;
  }

  lemma LoadRising(w: World, readable: set<nat>)
    requires Rising(w) && w.proc.Down?
    ensures Rising(Next(w, Load(readable)))
  {
    hide LoadNext, LoadEvents, Ascending, Newest, SortedNames, Bytes;
    var names := SortedNames(w.disk.Keys);
    NewestReads(names, w.disk);
    var l := LoadLog(names, w.disk, readable);
    NothingAscends();
    LoadOpenSegment(names, w.disk, readable);
    hide LoadLog;
    if l.open != [] {
      var read := Newest(names);
      NextAbove(read, w.disk, readable, |read| - 1);
      forall e | e in l.open ensures e.seqno < l.next { var j :| 0 <= j < |l.open| && l.open[j] == e; }
    }
  }

  lemma StepRising(w: World, step: Step)
    requires Rising(w) && BaseInv(w) && Enabled(w, step)
    ensures Rising(Next(w, step))
  {
    hide BaseInv, LoadProcess, SortedNames, Rises, Feed, InsertName, Ascending;
    NothingAscends();
    match step
    case Append(raw) => if w.proc.log.persist { AppendRising(w, raw); }
    case FlushBegin =>
      if w.proc.log.persist {
        assert Longer(Next(w, step).proc) == Longer(w.proc);
        OpenRises(Pending(w.proc), w.proc.log.open, w.proc.log.next);
      }
    case WriteSealed(ok) => PersistentFlush(w); WriteSealedRising(w, ok);
    case WriteCopy(ok) => PersistentFlush(w); assert Longer(Next(w, step).proc) == Longer(w.proc);
    case Prune(ok) => PersistentFlush(w); assert Longer(Next(w, step).proc) == Longer(w.proc);
    case FlushEnd => PersistentFlush(w); EndRising(w);
    case Crash =>
    case Load(readable) => LoadRising(w, readable);
    case ListFails =>
  }

  lemma OpenRises(q: seq<Segment>, open: Segment, next: nat)
    requires Rises(q + [open], next)
    ensures Ascending(open)
  {
    assert open in q + [open];
  }

  lemma PersistentFlush(w: World)
    requires BaseInv(w) && w.proc.Up? && w.proc.flush.Flushing?
    ensures Persistent(w)
  {
  }

  // ---------------------------------------------------------------- why a segment was sealed

  /** `hist[i]` is the last event of `s`, and no event after it up to `j` was stored. */
  ghost predicate LastStored(hist: seq<Event>, s: Segment, i: nat, j: nat) {
    && s != [] && i < j <= |hist| && hist[i] == s[|s| - 1]
    && forall k :: i < k < j ==> EventBytes(hist[k]) > SEGMENT_BYTES
  }

  /** `s` has reached a limit, or the event that was stored after its last one does not fit. */
  ghost predicate SplitAt(hist: seq<Event>, s: Segment) {
    || AtLimit(s)
    || exists i: nat, j: nat :: LastStored(hist, s, i, j) && j < |hist|
                                && EventBytes(hist[j]) <= SEGMENT_BYTES
                                && Bytes(s) + EventBytes(hist[j]) > SEGMENT_BYTES
  }

  ghost predicate Split(w: World) {
    Persistent(w) ==>
      && (forall s :: s in Pending(w.proc) ==> SplitAt(w.proc.log.hist, s))
      && var l := w.proc.log; l.open != [] ==> exists i :: LastStored(l.hist, l.open, i, |l.hist|)
  }

  lemma StillSplit(hist: seq<Event>, e: Event, s: Segment)
    requires SplitAt(hist, s)
    ensures SplitAt(hist + [e], s)
  {
    hide AtLimit, EventBytes, Bytes;
    if !AtLimit(s) {
      var i: nat, j: nat :| LastStored(hist, s, i, j) && j < |hist|
                            && EventBytes(hist[j]) <= SEGMENT_BYTES && Bytes(s) + EventBytes(hist[j]) > SEGMENT_BYTES;
      assert LastStored(hist + [e], s, i, j);
    }
  }

  /** The open segment is full, or is about to make room for the event that comes next. */
  lemma OpenSplit(hist: seq<Event>, open: Segment, e: Event)
    requires open != [] ==> exists i :: LastStored(hist, open, i, |hist|)
    requires EventBytes(e) <= SEGMENT_BYTES && Overflows(open, e)
    ensures SplitAt(hist + [e], open)
  {
    hide EventBytes, Bytes, AtLimit;
    var i :| LastStored(hist, open, i, |hist|);
    assert LastStored(hist + [e], open, i, |hist|);
  }

  lemma NewLast(hist: seq<Event>, s: Segment, e: Event)
    ensures LastStored(hist + [e], s + [e], |hist|, |hist| + 1)
  {
  }

  lemma GrownLast(hist: seq<Event>, open: Segment, e: Event)
    ensures LastStored(hist + [e], Grown(open, e), |hist|, |hist| + 1)
  {
    hide EventBytes, Bytes;
    NewLast(hist, if Overflows(open, e) then [] else open, e);
    assert [] + [e] == [e];
  }

  lemma SkippedLast(hist: seq<Event>, s: Segment, e: Event)
    requires EventBytes(e) > SEGMENT_BYTES && exists i :: LastStored(hist, s, i, |hist|)
    ensures var h := hist + [e]; exists i :: LastStored(h, s, i, |h|)
  {
    hide EventBytes;
    var i :| LastStored(hist, s, i, |hist|);
    assert LastStored(hist + [e], s, i, |hist| + 1);
  }

  /** The pending segments after an append are among those before and those it sealed. */
  lemma AppendPending(w: World, raw: Event, s: Segment)
    requires Persistent(w) && Packed(w.proc.log, Stamp(w, raw), Next(w, Append(raw)).proc.log)
    requires s in Pending(Next(w, Append(raw)).proc)
    ensures s in Pending(w.proc)
            || (EventBytes(Stamp(w, raw)) <= SEGMENT_BYTES && s in SealedBy(w.proc.log.open, Stamp(w, raw)))
  {
    var l, v := w.proc.log, Next(w, Append(raw));
    AppendKeepsFlush(w, raw);
    hide Next, EventBytes, SealedBy, Flatten, AtLimit, Grown;
    if s in v.proc.log.sealed && EventBytes(Stamp(w, raw)) <= SEGMENT_BYTES {
      assert s in l.sealed + SealedBy(l.open, Stamp(w, raw));
    }
  }

  lemma AppendKeepsFlush(w: World, raw: Event)
    requires Persistent(w)
    ensures var v := Next(w, Append(raw));
            Persistent(v) && v.proc.flush == w.proc.flush && v.proc.log.hist == w.proc.log.hist + [Stamp(w, raw)]
  {
    AppendFeeds(w, raw);
    FeedSame(w.proc.log.(next := w.proc.log.next + 1, hist := w.proc.log.hist + [Stamp(w, raw)]), Stamp(w, raw));
    hide Feed, EventBytes;
  }

  lemma FeedSame(l: Log, e: Event)
    ensures Feed(l, e).persist == l.persist && Feed(l, e).hist == l.hist
  {
    hide EventBytes, Flatten, Total;
  }

  lemma AppendedSplit(hist: seq<Event>, open: Segment, e: Event, s: Segment)
    requires open != [] ==> exists i :: LastStored(hist, open, i, |hist|)
    requires EventBytes(e) <= SEGMENT_BYTES && s in SealedBy(open, e)
    ensures SplitAt(hist + [e], s)
  {
    hide EventBytes, Bytes, LastStored, SplitAt, Overflows, AtLimit, Grown;
    if Overflows(open, e) && s == open {
      OpenSplit(hist, open, e);
    } else {
      AtLimitSplit(hist + [e], s);
    }
  }

  lemma OpenStillLast(l: Log, e: Event, v: Log)
    requires Packed(l, e, v) && v.hist == l.hist + [e] && v.open != []
    requires l.open != [] ==> exists i :: LastStored(l.hist, l.open, i, |l.hist|)
    ensures exists i :: LastStored(v.hist, v.open, i, |v.hist|)
  {
    hide EventBytes, Bytes, LastStored, KeepsNewest, AtLimit, Grown;
    if EventBytes(e) > SEGMENT_BYTES {
      SkippedLast(l.hist, l.open, e);
    } else {
      GrownLast(l.hist, l.open, e);
    }
  }

  lemma AppendSplit(w: World, raw: Event)
    requires Persistent(w) && Split(w) && w.proc.log.openBytes == Bytes(w.proc.log.open)
    requires |w.proc.log.sealed| <= SEGMENTS_KEPT
    ensures Split(Next(w, Append(raw)))
  {
    hide Next, EventBytes, Bytes, Pending, LastStored, SplitAt, Stamp, Packed, SealedBy;
    var l, e, v := w.proc.log, Stamp(w, raw), Next(w, Append(raw));
    AppendPacks(w, raw);
    AppendKeepsFlush(w, raw);
    forall s | s in Pending(v.proc) ensures SplitAt(v.proc.log.hist, s) {
      AppendPending(w, raw, s);
      if s in Pending(w.proc) {
        StillSplit(l.hist, e, s);
      } else {
        AppendedSplit(l.hist, l.open, e, s);
      }
    }
    if v.proc.log.open != [] { OpenStillLast(l, e, v.proc.log); }
  }

  lemma AtLimitSplit(hist: seq<Event>, s: Segment)
    requires AtLimit(s)
    ensures SplitAt(hist, s)
  {
  }

  lemma WriteSealedSplit(w: World, ok: bool)
    requires Persistent(w) && Split(w) && Enabled(w, WriteSealed(ok))
    ensures Split(Next(w, WriteSealed(ok)))
  {
    hide SplitAt, LastStored, InsertName, Without;
    var n := |w.proc.flush.retry|;
    TodoHead(w, ok);
    WithoutMembers(Pending(w.proc), n, n + 1);
    hide Pending;
  }

  lemma EndSplit(w: World)
    requires Persistent(w) && Split(w) && Enabled(w, FlushEnd)
    ensures Split(Next(w, FlushEnd))
  {
    hide SplitAt, LastStored, Without;
    EndQueue(w);
    WithoutMembers(Pending(w.proc), 0, Extra(Pending(w.proc)));
    hide Pending;
  }

  lemma LoadSplit(w: World, readable: set<nat>)
    requires w.proc.Down? && FilesOk(w.disk)
    ensures Split(Next(w, Load(readable)))
  {
    hide LoadNext, LoadEvents, Newest, SortedNames, Bytes, EventBytes;
    var names := SortedNames(w.disk.Keys);
    NewestReads(names, w.disk);
    LoadOpenSegment(names, w.disk, readable);
    var l, read := LoadLog(names, w.disk, readable), Newest(names);
    if l.open != [] {
      EventsLast(read, w.disk, readable);
      assert LastStored(l.hist, l.open, |l.hist| - 1, |l.hist|);
    }
  }

  /** Steps that change neither the history nor the segments in memory. */
  lemma QuietSplit(w: World, step: Step)
    requires Split(w) && Persistent(w) && Enabled(w, step)
    requires step.FlushBegin? || step.WriteCopy? || step.Prune?
    ensures Split(Next(w, step))
  {
    hide InsertName, SplitAt, LastStored;
    assert Pending(Next(w, step).proc) == Pending(w.proc);
  }

  lemma MemoryStays(w: World, step: Step)
    requires BaseInv(w) && w.proc.Up? && !Persistent(w) && Enabled(w, step)
    ensures !Persistent(Next(w, step))
  {
    hide FilesOk;
  }

  lemma StepSplit(w: World, step: Step)
    requires Split(w) && BaseInv(w) && Enabled(w, step)
    ensures Split(Next(w, step))
  {
    if w.proc.Down? {
      assert FilesOk(w.disk);
      if step.Load? { LoadSplit(w, step.readable); }
    } else if !Persistent(w) {
      MemoryStays(w, step);
    } else {
      hide BaseInv, Next, SplitAt, LastStored, Split;
      match step
      case Append(raw) => OpenCounted(w); AppendSplit(w, raw);
      case WriteSealed(ok) => WriteSealedSplit(w, ok);
      case FlushEnd => EndSplit(w);
      case Crash => CrashSplit(w);
      case _ => QuietSplit(w, step);
    }
  }

  lemma CrashSplit(w: World)
    requires w.proc.Up?
    ensures Split(Next(w, Crash))
  {
  }

  // ---------------------------------------------------------------- runs

  lemma {:induction false} RunPacks(w: World, steps: seq<Step>)
    requires BaseInv(w) && Rising(w) && Split(w) && Runs(w, steps)
    ensures Rising(After(w, steps)) && Split(After(w, steps))
    decreases |steps|
  {
    hide BaseInv, Rising, Split, Next, Enabled;
    if steps == [] {
    } else {
      BaseStep(w, steps[0]);
      StepRising(w, steps[0]);
      StepSplit(w, steps[0]);
      RunPacks(Next(w, steps[0]), steps[1..]);
    }
  }

  lemma ReachablePacks(w: World)
    requires Reachable(w)
    ensures Rising(w) && Split(w)
  {
    var steps :| Runs(Fresh(w.node), steps) && After(Fresh(w.node), steps) == w;
    RunPacks(Fresh(w.node), steps);
  }

  /** In every reachable state a segment was sealed only because it had reached a limit, or because the next
      event to be stored does not fit it. */
  lemma SealedForAReason(w: World, s: Segment)
    requires Reachable(w) && Persistent(w) && s in Pending(w.proc)
    ensures SplitAt(w.proc.log.hist, s)
  {
    ReachablePacks(w);
  }

  /** SEGMENTS_KEPT segments are pending, and all their events are newer than `e`. */
  ghost predicate FullOfNewer(w: World, e: Event) {
    && w.proc.Up? && |w.proc.log.sealed| == SEGMENTS_KEPT
    && forall s, x :: s in w.proc.log.sealed && x in s ==> e.seqno < x.seqno
  }

  lemma CutIsOlder(l: Log, q: seq<Segment>, v: Log, next: nat, e: Event)
    requires KeepsNewest(l, q, v) && Rises(q, next) && e in v.lost && e !in l.lost
    ensures |v.sealed| == SEGMENTS_KEPT && forall s, x :: s in v.sealed && x in s ==> e.seqno < x.seqno
  {
    hide Ascending;
    var n := if |q| < SEGMENTS_KEPT then |q| else SEGMENTS_KEPT;
    var cut := q[..|q| - n];
    FlattenHas(cut, e);
    hide Flatten;
    var t :| t in cut && e in t;
    var i :| 0 <= i < |q| - n && q[i] == t;
    forall s, x | s in v.sealed && x in s ensures e.seqno < x.seqno {
      var j :| 0 <= j < n && v.sealed[j] == s;
      assert q[|q| - n + j] == s;
    }
  }

  lemma RisesTail(head: seq<Segment>, q: seq<Segment>, next: nat)
    requires Rises(head + q, next)
    ensures Rises(q, next)
  {
    hide Ascending;
    assert forall i :: 0 <= i < |q| ==> (head + q)[|head| + i] == q[i];
  }

  lemma RisesFront(q: seq<Segment>, s: Segment, next: nat)
    requires Rises(q + [s], next)
    ensures Rises(q, next)
  {
    hide Ascending;
    assert forall i :: 0 <= i < |q| ==> (q + [s])[i] == q[i];
  }

  /** The list before trimming rises. */
  lemma AppendListRises(sealed: seq<Segment>, open: Segment, e: Event)
    requires Rises(sealed + [open], e.seqno)
    ensures Rises(sealed + SealedBy(open, e), e.seqno + 1)
  {
    hide AtLimit, Overflows, Rises;
    var q := sealed + (if Overflows(open, e) then [open] else []);
    RisesFront(sealed, open, e.seqno);
    assert sealed + [] == sealed;
    assert Rises(q, e.seqno);
    RisesEmpty(q, e.seqno);
    RisesGrow(q, [], e);
    RisesGrow(sealed, open, e);
    assert [] + [e] == [e];
    assert sealed + SealedBy(open, e) == q + if AtLimit(Grown(open, e)) then [Grown(open, e)] else [];
    RisesOn(q, e.seqno, e.seqno + 1);
    assert q + [] == q;
  }

  lemma SealedRises(w: World)
    requires Rising(w) && Persistent(w)
    ensures Rises(w.proc.log.sealed + [w.proc.log.open], w.proc.log.next)
    ensures w.proc.flush.Flushing? && w.proc.flush.todo == [] ==>
              Rises(w.proc.flush.retry + w.proc.log.sealed, w.proc.log.next)
  {
    hide Rises;
    var l, f := w.proc.log, w.proc.flush;
    var head := if f.Idle? then [] else f.retry + f.todo;
    assert Longer(w.proc) == head + (l.sealed + [l.open]);
    RisesTail(head, l.sealed + [l.open], l.next);
    if f.Flushing? && f.todo == [] {
      assert Pending(w.proc) == f.retry + l.sealed;
      RisesFront(Pending(w.proc), l.open, l.next);
    }
  }

  lemma PackedDrops(l: Log, added: Event, v: Log, e: Event)
    requires Packed(l, added, v) && Rises(l.sealed + [l.open], added.seqno) && e in v.lost && e !in l.lost
    requires EventBytes(e) <= SEGMENT_BYTES
    ensures |v.sealed| == SEGMENTS_KEPT && forall s, x :: s in v.sealed && x in s ==> e.seqno < x.seqno
  {
    hide EventBytes, KeepsNewest, Rises, SealedBy, AtLimit, Grown;
    AppendListRises(l.sealed, l.open, added);
    CutIsOlder(l, l.sealed + SealedBy(l.open, added), v, added.seqno + 1, e);
  }

  /** In every reachable state a step counts an event that fits a segment as dropped only if SEGMENTS_KEPT
      pending segments with newer events remain. */
  lemma DropsOnlyWhenFull(w: World, step: Step, e: Event)
    requires Reachable(w) && Persistent(w) && Enabled(w, step) && !step.Crash? && EventBytes(e) <= SEGMENT_BYTES
    requires Next(w, step).proc.Up? && e in Next(w, step).proc.log.lost && e !in w.proc.log.lost
    ensures FullOfNewer(Next(w, step), e)
  {
    hide Reachable, Rising, Split, Next, KeepsNewest, Rises, EventBytes, Packed;
    ReachablePacks(w);
    ReachableBase(w);
    SealedRises(w);
    match step
    case Append(raw) =>
      OpenCounted(w);
      AppendPacks(w, raw);
      PackedDrops(w.proc.log, Stamp(w, raw), Next(w, step).proc.log, e);
    case FlushEnd =>
      EndTrims(w);
      CutIsOlder(w.proc.log, w.proc.flush.retry + w.proc.log.sealed, Next(w, step).proc.log, w.proc.log.next, e);
    case _ => OthersDropNothing(w, step);
  }

  /** So every event of a run that was counted as dropped is oversized, or was dropped after a step that left
      SEGMENTS_KEPT pending segments with newer events. */
  lemma {:induction false} DroppedWhenFull(w: World, steps: seq<Step>, e: Event) returns (n: nat)
    requires Reachable(w) && Runs(w, steps) && EventBytes(e) <= SEGMENT_BYTES
    requires After(w, steps).proc.Up? && e in After(w, steps).proc.log.lost
    requires w.proc.Up? ==> e !in w.proc.log.lost
    ensures 0 < n <= |steps| && Runs(w, steps[..n]) && FullOfNewer(After(w, steps[..n]), e)
    decreases |steps|
  {
    hide Reachable, Next, Enabled, EventBytes, FullOfNewer;
    var v := Next(w, steps[0]);
    ReachableNext(w, steps[0]);
    if v.proc.Up? && e in v.proc.log.lost {
      n := 1;
      assert steps[..1] == [steps[0]];
      LostByStep(w, steps[0], e);
    } else {
      var m := DroppedWhenFull(v, steps[1..], e);
      n := m + 1;
      assert steps[..n][1..] == steps[1..][..m];
    }
  }

  lemma LostByStep(w: World, step: Step, e: Event)
    requires Reachable(w) && Enabled(w, step) && EventBytes(e) <= SEGMENT_BYTES
    requires Next(w, step).proc.Up? && e in Next(w, step).proc.log.lost
    requires w.proc.Up? ==> e !in w.proc.log.lost
    ensures FullOfNewer(Next(w, step), e)
  {
    if Persistent(w) {
      hide Reachable, Next, FullOfNewer, EventBytes;
      DropsOnlyWhenFull(w, step, e);
    } else {
      MemoryDropsNothing(w, step);
    }
  }

  lemma MemoryDropsNothing(w: World, step: Step)
    requires Enabled(w, step) && !Persistent(w) && Next(w, step).proc.Up? && Reachable(w)
    ensures Next(w, step).proc.log.lost == if w.proc.Up? then w.proc.log.lost else []
  {
    ReachableBase(w);
    hide LoadNext, LoadEvents, SortedNames, Newest;
  }

  lemma ReachableNext(w: World, step: Step)
    requires Reachable(w) && Enabled(w, step)
    ensures Reachable(Next(w, step))
  {
    var steps :| Runs(Fresh(w.node), steps) && After(Fresh(w.node), steps) == w;
    hide Next, Enabled;
    RunsSnoc(Fresh(w.node), steps, step);
    ReachableBase(w);
    BaseStep(w, step);
  }

  lemma {:induction false} RunsSnoc(w: World, steps: seq<Step>, step: Step)
    requires Runs(w, steps) && Enabled(After(w, steps), step)
    ensures Runs(w, steps + [step]) && After(w, steps + [step]) == Next(After(w, steps), step)
    decreases |steps|
  {
    hide Next, Enabled;
    if steps == [] {
      assert steps + [step] == [step] && [step][1..] == [];
    } else {
      assert (steps + [step])[1..] == steps[1..] + [step];
      RunsSnoc(Next(w, steps[0]), steps[1..], step);
    }
  }
}
