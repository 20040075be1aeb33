/** What every step of the activity log keeps, in two layers: `BaseInv` is about names, prefixes and where
    events are, and holds in every run; `Numbered` is about sequence numbers, and holds if oversized events
    do not come together with small ones. */
module ActivityInvariant {
  import opened ActivityTypes
  import opened ActivitySteps

  // ---------------------------------------------------------------- segments in memory and files

  /** Files are not empty, and named by their first event. */
  ghost predicate FilesOk(disk: map<nat, Segment>) {
    forall k :: k in disk ==> disk[k] != [] && First(disk[k]) == k
  }

  /** What a segment in memory is compared with; `frozen` holds the files this process must not write. */
  datatype Ctx = Ctx(disk: map<nat, Segment>, frozen: set<nat>)

  ghost function CtxOf(w: World): Ctx
    requires w.proc.Up?
  {
    Ctx(w.disk, w.proc.unread + w.proc.skipped)
  }

  /** A segment held in memory: it extends its file, and its file is one this process may write. */
  ghost predicate LiveOk(first: nat, s: Segment, c: Ctx) {
    && s != []
    && First(s) == first
    && first !in c.frozen
    && (first in c.disk ==> c.disk[first] <= s)
  }

  /** All sealed segments in memory, oldest first: failed writes, writes to come, newly sealed ones. */
  ghost function Pending(p: Process): seq<Segment>
    requires p.Up?
  {
    if p.flush.Idle? then p.log.sealed else p.flush.retry + p.flush.todo + p.log.sealed
  }

  ghost predicate NextOk(next: nat, c: Ctx) {
    && (forall k :: k in c.disk ==> k < next)
    && (forall k :: k in c.frozen ==> k < next)
  }

  /** The open segment has the newest name. */
  ghost predicate OpenOk(l: Log, c: Ctx) {
    && l.openBytes == Bytes(l.open)
    && (l.open != [] ==>
          && LiveOk(l.openFirst, l.open, c)
          && l.openFirst < l.next
          && forall k :: k in c.disk ==> k <= l.openFirst)
  }

  ghost predicate AllLive(q: seq<Segment>, c: Ctx) {
    forall s :: s in q ==> LiveOk(First(s), s, c)
  }

  ghost predicate InOrder(q: seq<Segment>) {
    forall i, j :: 0 <= i < j < |q| ==> First(q[i]) < First(q[j])
  }

  ghost predicate AllBelow(q: seq<Segment>, first: nat) {
    forall s :: s in q ==> First(s) < first
  }

  /** The copy of the open segment taken by a running flush: the segment may have grown since, or been
      sealed. */
  ghost predicate CopyOk(f: FlushState, l: Log, c: Ctx) {
    f.Flushing? && f.copy != [] ==>
      && LiveOk(f.copyFirst, f.copy, c)
      && f.copyFirst < l.next
      && AllBelow(f.retry + f.todo, f.copyFirst)
      && (forall s :: s in l.sealed && First(s) == f.copyFirst ==> f.copy <= s)
      && (l.open != [] ==> f.copyFirst <= l.openFirst && (l.openFirst == f.copyFirst ==> f.copy <= l.open))
  }

  ghost predicate OpenSaved(l: Log, disk: map<nat, Segment>) {
    l.open == [] || (l.openFirst in disk && disk[l.openFirst] == l.open)
  }

  ghost predicate CopyIsOpen(f: FlushState, l: Log) {
    f.Flushing? && f.copy == l.open && f.copyFirst == l.openFirst
  }

  /** A clean log has nothing unsaved that a running flush is not about to save or to report. */
  ghost predicate DirtyOk(f: FlushState, l: Log, disk: map<nat, Segment>) {
    !l.dirty ==>
      && l.sealed == []
      && (OpenSaved(l, disk) || CopyIsOpen(f, l) || (f.Flushing? && f.copyFailed))
  }

  ghost predicate BoundsOk(f: FlushState, l: Log) {
    && |l.sealed| <= SEGMENTS_KEPT
    && (f.Flushing? ==> |f.retry| + |f.todo| <= SEGMENTS_KEPT)
    && (f.Flushing? && (f.retry != [] || f.copyFailed || f.stopped) ==> f.failed)
    && l.dropped == |l.lost|
  }

  ghost predicate OnDisk(disk: map<nat, Segment>, e: Event) {
    exists k :: k in disk && e in disk[k]
  }

  ghost predicate InPending(q: seq<Segment>, e: Event) {
    exists s :: s in q && e in s
  }

  /** Where an event of a process can be. */
  ghost predicate Located(e: Event, open: Segment, q: seq<Segment>, disk: map<nat, Segment>, pruned: set<Event>,
                          lost: seq<Event>)
  {
    e in open || InPending(q, e) || OnDisk(disk, e) || e in pruned || e in lost
  }

  ghost predicate LocatedOk(hist: seq<Event>, open: Segment, q: seq<Segment>, disk: map<nat, Segment>,
                            pruned: set<Event>, lost: seq<Event>)
  {
    forall e :: e in hist ==> Located(e, open, q, disk, pruned, lost)
  }

  ghost predicate EventsLocated(w: World)
    requires w.proc.Up?
  {
    LocatedOk(w.proc.log.hist, w.proc.log.open, Pending(w.proc), w.disk, w.proc.pruned, w.proc.log.lost)
  }

  /** The files a flush found or wrote are on disk, but for the oldest ones it removed. */
  ghost predicate FlushNamesOk(f: FlushState, names: seq<nat>, disk: map<nat, Segment>) {
    f.Flushing? ==>
      && disk.Keys <= f.names
      && (disk.Keys != f.names ==> WritesDone(f) && |names| >= SEGMENTS_KEPT)
      && (forall k, j :: k in f.names && k !in disk && j in disk ==> k < j)
  }

  /** The list of file names, the open segment and its copy. */
  ghost predicate OpenPartOk(w: World)
    requires w.proc.Up?
  {
    var c := CtxOf(w);
    var l := w.proc.log;
    && NamesOk(l.segments, w.disk)
    && NextOk(l.next, c)
    && OpenOk(l, c)
    && CopyOk(w.proc.flush, l, c)
    && DirtyOk(w.proc.flush, l, w.disk)
  }

  /** The pending segments. */
  ghost predicate QueueOk(w: World)
    requires w.proc.Up?
  {
    var l := w.proc.log;
    var q := Pending(w.proc);
    && AllLive(q, CtxOf(w))
    && InOrder(q)
    && AllBelow(q, l.next)
    && (l.open != [] ==> AllBelow(q, l.openFirst))
    && BoundsOk(w.proc.flush, l)
  }

  /** Where the events of the process are, and which files a flush leaves. */
  ghost predicate PlacesOk(w: World)
    requires w.proc.Up?
  {
    EventsLocated(w) && FlushNamesOk(w.proc.flush, w.proc.log.segments, w.disk)
  }

  /** A persistent process; the open segment may have just become full. */
  ghost predicate ProcessOk(w: World)
    requires w.proc.Up?
  {
    OpenPartOk(w) && QueueOk(w) && PlacesOk(w)
  }

  ghost predicate Persistent(w: World) {
    w.proc.Up? && w.proc.log.persist
  }

  ghost predicate BaseInv(w: World) {
    && FilesOk(w.disk)
    && (Persistent(w) ==> ProcessOk(w) && !Full(w.proc.log))
    && (w.proc.Up? && !Persistent(w) ==> w.proc.flush.Idle?)
  }

  // ---------------------------------------------------------------- sequence numbers

  /** The i-th event of a segment has the i-th number from the segment's name, and is known under it. */
  ghost predicate InPlace(first: nat, s: Segment, i: nat, known: map<nat, Placed>)
    requires i < |s|
  {
    s[i].seqno == first + i && first + i in known && known[first + i] == Placed(s[i], first)
  }

  /** `s` is a run of at most SEGMENT_EVENTS consecutive numbers starting at `first`, within the
      byte limit, whose events belong to the segment `first` and to no other. */
  ghost predicate SegmentOk(first: nat, s: Segment, known: map<nat, Placed>) {
    && 0 < |s| <= SEGMENT_EVENTS
    && Bytes(s) <= SEGMENT_BYTES
    && forall i {:trigger s[i]} {:trigger InPlace(first, s, i, known)} :: 0 <= i < |s| ==>
         InPlace(first, s, i, known)
  }

  ghost predicate DiskOk(disk: map<nat, Segment>, known: map<nat, Placed>) {
    forall k :: k in disk ==> SegmentOk(k, disk[k], known)
  }

  ghost predicate KnownOk(known: map<nat, Placed>) {
    forall n :: n in known ==> known[n].event.seqno == n && known[n].first <= n
  }

  /** Every known event is on disk. */
  ghost predicate Settled(disk: map<nat, Segment>, known: map<nat, Placed>) {
    forall n :: n in known ==> Stored(disk, n, known[n])
  }

  ghost predicate KnownBelow(known: map<nat, Placed>, next: nat) {
    forall n :: n in known ==> n < next
  }

  ghost predicate AllRuns(q: seq<Segment>, known: map<nat, Placed>) {
    forall s :: s in q ==> SegmentOk(First(s), s, known)
  }

  /** Open, pending and copied segments are runs, and the open one ends at the next number, unless numbers
      may have been used up without being stored. */
  ghost predicate RunsOk(w: World, gaps: bool)
    requires w.proc.Up?
  {
    var l := w.proc.log;
    && KnownBelow(w.known, l.next)
    && AllRuns(Pending(w.proc), w.known)
    && (l.open != [] ==>
          && SegmentOk(l.openFirst, l.open, w.known)
          && (gaps || l.openFirst + |l.open| == l.next))
    && (w.proc.flush.Flushing? && w.proc.flush.copy != [] ==>
          SegmentOk(w.proc.flush.copyFirst, w.proc.flush.copy, w.known))
  }

  /** The numbers of the history ascend; an event that is not stored has a number no stored event has. */
  ghost predicate HistOk(hist: seq<Event>, known: map<nat, Placed>) {
    && Ascending(hist)
    && (forall i :: 0 <= i < |hist| ==>
          if EventBytes(hist[i]) <= SEGMENT_BYTES
          then hist[i].seqno in known && known[hist[i].seqno].event == hist[i]
          else hist[i].seqno !in known)
  }

  /** `n` is below the newest SEGMENTS_KEPT names. */
  ghost predicate BelowKept(n: nat, names: seq<nat>) {
    |names| >= SEGMENTS_KEPT && n < names[|names| - SEGMENTS_KEPT]
  }

  ghost predicate KeptOk(pruned: set<Event>, skipped: set<nat>, names: seq<nat>) {
    && (forall e :: e in pruned ==> BelowKept(e.seqno, names))
    && (forall k :: k in skipped ==> BelowKept(k, names))
  }

  /** Every event in memory or in flight is one of the history. */
  ghost predicate HeldInHist(l: Log, q: seq<Segment>, f: FlushState) {
    && Elements(l.open) <= Elements(l.hist)
    && (forall s :: s in q ==> Elements(s) <= Elements(l.hist))
    && (f.Flushing? ==> Elements(f.copy) <= Elements(l.hist))
  }

  /** Files this process read or wrote hold events of its history only. */
  ghost predicate DiskInHist(c: Ctx, hist: seq<Event>) {
    forall k :: k in c.disk && k !in c.frozen ==> Elements(c.disk[k]) <= Elements(hist)
  }

  /** With every file read, the next number follows the newest event. */
  ghost predicate TightOk(l: Log, unread: set<nat>) {
    && (l.loadFailed <==> unread != {})
    && (!l.loadFailed ==> if l.hist == [] then l.next == 0 else l.hist[|l.hist| - 1].seqno + 1 == l.next)
  }

  ghost predicate HistBelow(hist: seq<Event>, next: nat) {
    forall i :: 0 <= i < |hist| ==> hist[i].seqno < next
  }

  /** The history of the process, its files and its pruned events. */
  ghost predicate HistoryOk(w: World)
    requires w.proc.Up?
  {
    var l := w.proc.log;
    && HistOk(l.hist, w.known)
    && HistBelow(l.hist, l.next)
    && KeptOk(w.proc.pruned, w.proc.skipped, l.segments)
    && HeldInHist(l, Pending(w.proc), w.proc.flush)
    && DiskInHist(CtxOf(w), l.hist)
    && TightOk(l, w.proc.unread)
  }

  /** A process whose listing failed numbers its events from zero. */
  ghost predicate CountsUp(l: Log) {
    l.next == |l.hist| && forall i :: 0 <= i < |l.hist| ==> l.hist[i].seqno == i
  }

  ghost predicate Numbered(w: World, gaps: bool) {
    && KnownOk(w.known)
    && DiskOk(w.disk, w.known)
    && (Persistent(w) ==> RunsOk(w, gaps) && HistoryOk(w))
    && (!Persistent(w) ==> Settled(w.disk, w.known))
    && (w.proc.Up? && !Persistent(w) ==> CountsUp(w.proc.log))
  }

  ghost predicate Inv(w: World) {
    BaseInv(w) && Numbered(w, false)
  }

  // ---------------------------------------------------------------- segments never overlap

  /** Two segments that share a number are the same segment, and then one is a prefix of the other. */
  lemma SameSegment(a: nat, s: Segment, b: nat, t: Segment, known: map<nat, Placed>, n: nat)
    requires SegmentOk(a, s, known) && SegmentOk(b, t, known)
    requires a <= n < a + |s| && b <= n < b + |t|
    ensures a == b
    ensures |s| <= |t| ==> s <= t
  {
    assert InPlace(a, s, n - a, known) && InPlace(b, t, n - b, known);
    forall i | 0 <= i < |s| && i < |t| ensures s[i] == t[i] {
      assert InPlace(a, s, i, known) && InPlace(b, t, i, known);
    }
  }

  /** A segment ends before the next one starts. */
  lemma Ordered(a: nat, s: Segment, b: nat, t: Segment, known: map<nat, Placed>)
    requires SegmentOk(a, s, known) && SegmentOk(b, t, known)
    requires a < b
    ensures a + |s| <= b
  {
    if a + |s| > b {
      SameSegment(a, s, b, t, known, b);
    }
  }
}
