/** The activity log of one node as a step system.  Every step is one region of the source that
    runs under `mu` (or one storage call between two such regions), so appends may come between any
    two steps of a flush, and a crash may come anywhere. */
module ActivitySteps {
  import opened ActivityTypes

  /** The in-memory log.  `hist` and `lost` are history variables: the events put into the ring
      since start-up (the ring holds the newest of them) and the events counted by `dropped`. */
  datatype Log = Log(
    persist: bool,
    next: nat,
    open: Segment,
    openFirst: nat,
    openBytes: nat,
    sealed: seq<Segment>,
    dirty: bool,
    dropped: nat,
    loadFailed: bool,
    flushErr: bool,
    segments: seq<nat>,
    hist: seq<Event>,
    lost: seq<Event>)

  /** The locals of a running `Flush`: segments still to write, segments whose write failed, and
      the copy of the open segment (empty once it was tried).  `names` is a history variable: the
      files present when the flush began and those it wrote. */
  datatype FlushState =
    | Idle
    | Flushing(
        todo: seq<Segment>,
        retry: seq<Segment>,
        copy: Segment,
        copyFirst: nat,
        copyFailed: bool,
        failed: bool,
        stopped: bool,
        names: set<nat>)

  /** A process.  `pruned`, `skipped` and `unread` are history variables: events whose file was
      removed, files older than the newest fifty at load, and files load could not read. */
  datatype Process =
    | Down
    | Up(log: Log, flush: FlushState, pruned: set<Event>, skipped: set<nat>, unread: set<nat>)

  /** An event together with the name of the only segment it may be stored in. */
  datatype Placed = Placed(event: Event, first: nat)

  /** `known` is a history variable: every event that is or may yet come on disk, by number. */
  datatype World = World(node: string, disk: map<nat, Segment>, known: map<nat, Placed>, proc: Process)

  datatype Step =
    | Append(event: Event)
    | FlushBegin
    | WriteSealed(ok: bool)
    | WriteCopy(ok: bool)
    | Prune(ok: bool)
    | FlushEnd
    | Crash
    | Load(readable: set<nat>)
    | ListFails

  // ---------------------------------------------------------------- operations under mu

  function Extra(sealed: seq<Segment>): (n: nat)
    ensures n <= |sealed|
    ensures |sealed[n..]| <= SEGMENTS_KEPT
  {
    if |sealed| > SEGMENTS_KEPT then |sealed| - SEGMENTS_KEPT else 0
  }

  function Trim(l: Log): Log {
    var cut := l.sealed[..Extra(l.sealed)];
    l.(sealed := l.sealed[Extra(l.sealed)..], dropped := l.dropped + Total(cut), lost := l.lost + Flatten(cut))
  }

  function Seal(l: Log): Log {
    Trim(l.(sealed := l.sealed + [l.open], open := [], openBytes := 0))
  }

  /** Add to the open segment an event that is known to fit into it. */
  function Extend(l: Log, e: Event): Log {
    l.(open := l.open + [e],
       openFirst := if l.open == [] then e.seqno else l.openFirst,
       openBytes := l.openBytes + EventBytes(e),
       dirty := true)
  }

  predicate Full(l: Log) {
    |l.open| >= SEGMENT_EVENTS || l.openBytes >= SEGMENT_BYTES
  }

  function Feed(l: Log, e: Event): Log {
    if EventBytes(e) > SEGMENT_BYTES then
      l.(dropped := l.dropped + 1, lost := l.lost + [e])
    else
      var roomy := if l.open != [] && l.openBytes + EventBytes(e) > SEGMENT_BYTES then Seal(l) else l;
      var fed := Extend(roomy, e);
      if Full(fed) then Seal(fed) else fed
  }

  function AppendEvent(l: Log, e: Event): Log {
    var stored := l.(next := l.next + 1, hist := l.hist + [e]);
    if l.persist then Feed(stored, e) else stored
  }

  function BeginFlush(l: Log): Log {
    l.(sealed := [], dirty := false)
  }

  ghost function Begun(l: Log, disk: map<nat, Segment>): FlushState {
    Flushing(l.sealed, [], if l.dirty then l.open else [], l.openFirst, false, false, false, disk.Keys)
  }

  function EndFlush(l: Log, retry: seq<Segment>, copyFailed: bool, failed: bool): Log {
    Trim(l.(sealed := retry + l.sealed)).(
      dirty := l.dirty || retry != [] || copyFailed,
      flushErr := failed)
  }

  /** The number of names below `first`; in a sorted list, the position `first` belongs to. */
  function Position(names: seq<nat>, first: nat): (i: nat)
    ensures i <= |names|
    ensures forall k :: 0 <= k < i ==> names[k] < first
    ensures i < |names| ==> names[i] >= first
  {
    if names == [] || names[0] >= first then 0 else 1 + Position(names[1..], first)
  }

  function InsertName(names: seq<nat>, first: nat): seq<nat> {
    var i := Position(names, first);
    if i < |names| && names[i] == first then names else names[..i] + [first] + names[i..]
  }

  // ---------------------------------------------------------------- load

  ghost function MaxOf(s: set<nat>): (m: nat)
    requires s != {}
    ensures m in s && forall k :: k in s ==> k <= m
  {
    MaxExists(s);
    var k :| k in s && forall j :: j in s ==> j <= k;
    k
  }

  lemma {:induction false} MaxExists(s: set<nat>)
    requires s != {}
    ensures exists k :: k in s && forall j :: j in s ==> j <= k
  {
    var k :| k in s;
    var rest := s - {k};
    if rest == {} {
      assert s == {k};
    } else {
      MaxExists(rest);
      var m :| m in rest && forall j :: j in rest ==> j <= m;
      var top := if k > m then k else m;
      forall j | j in s ensures j <= top { assert j == k || j in rest; }
      assert top in s;
    }
  }

  ghost function SortedNames(s: set<nat>): (r: seq<nat>)
    ensures Increasing(r)
    ensures forall k :: k in s <==> k in r
  {
    if s == {} then [] else
      var m := MaxOf(s);
      SortedNames(s - {m}) + [m]
  }

  /** The newest names, which load reads. */
  function Newest(names: seq<nat>): seq<nat> {
    if |names| > SEGMENTS_KEPT then names[|names| - SEGMENTS_KEPT..] else names
  }

  /** What reading a segment does to the number load continues from. */
  function NextPast(next: nat, s: Segment): nat {
    if s == [] then next else Max(NextPast(next, s[..|s| - 1]), s[|s| - 1].seqno + 1)
  }

  ghost predicate Reads(read: seq<nat>, disk: map<nat, Segment>) {
    forall i :: 0 <= i < |read| ==> read[i] in disk
  }

  /** The events of the readable files, oldest file first. */
  ghost function LoadEvents(read: seq<nat>, disk: map<nat, Segment>, readable: set<nat>): seq<Event>
    requires Reads(read, disk)
  {
    if read == [] then [] else
      var first := read[|read| - 1];
      LoadEvents(read[..|read| - 1], disk, readable) + if first in readable then disk[first] else []
  }

  /** The sequence number load continues from; an unreadable file reserves SEGMENT_EVENTS numbers. */
  ghost function LoadNext(read: seq<nat>, disk: map<nat, Segment>, readable: set<nat>): nat
    requires Reads(read, disk)
  {
    if read == [] then 0 else
      var first := read[|read| - 1];
      var next := LoadNext(read[..|read| - 1], disk, readable);
      if first in readable then NextPast(Max(next, first + 1), disk[first]) else Max(next, first + SEGMENT_EVENTS)
  }

  /** The newest file's events, when it could be read. */
  ghost function LoadNewest(read: seq<nat>, disk: map<nat, Segment>, readable: set<nat>): Segment
    requires Reads(read, disk)
  {
    if read != [] && read[|read| - 1] in readable then disk[read[|read| - 1]] else []
  }

  ghost predicate Reopens(read: seq<nat>, disk: map<nat, Segment>, readable: set<nat>)
    requires Reads(read, disk)
  {
    var newest := LoadNewest(read, disk, readable);
    && newest != []
    && |newest| < SEGMENT_EVENTS
    && Bytes(newest) < SEGMENT_BYTES
    && newest[|newest| - 1].seqno + 1 == LoadNext(read, disk, readable)
  }

  /** `names` lists the files on disk in order. */
  ghost predicate NamesOk(names: seq<nat>, disk: map<nat, Segment>) {
    && Increasing(names)
    && forall k :: k in disk <==> k in names
  }

  lemma NewestReads(names: seq<nat>, disk: map<nat, Segment>)
    requires NamesOk(names, disk)
    ensures Reads(Newest(names), disk)
  {
    forall i | 0 <= i < |Newest(names)| ensures Newest(names)[i] in disk { assert Newest(names)[i] in names; }
  }

  ghost function LoadLog(names: seq<nat>, disk: map<nat, Segment>, readable: set<nat>): Log
    requires NamesOk(names, disk)
  {
    NewestReads(names, disk);
    var read := Newest(names);
    var newest := LoadNewest(read, disk, readable);
    var reopen := Reopens(read, disk, readable);
    Log(
      true,
      LoadNext(read, disk, readable),
      if reopen then newest else [],
      if reopen then read[|read| - 1] else 0,
      if reopen then Bytes(newest) else 0,
      [], false, 0,
      exists i :: 0 <= i < |read| && read[i] !in readable,
      false,
      names,
      LoadEvents(read, disk, readable),
      [])
  }

  ghost function LoadProcess(names: seq<nat>, disk: map<nat, Segment>, readable: set<nat>): Process
    requires NamesOk(names, disk)
  {
    Up(LoadLog(names, disk, readable), Idle, {},
       set k | k in disk && k !in Newest(names),
       set k | k in Newest(names) && k !in readable)
  }

  /** The log of a run whose listing failed: kept in memory only. */
  function MemoryOnly(): Log {
    Log(false, 0, [], 0, 0, [], false, 0, true, false, [], [], [])
  }

  // ---------------------------------------------------------------- the step relation

  predicate WritesDone(f: FlushState) {
    f.Flushing? && f.todo == [] && f.copy == []
  }

  ghost predicate Enabled(w: World, step: Step) {
    match step
    case Append(_) => w.proc.Up?
    case FlushBegin => w.proc.Up? && w.proc.flush.Idle?
    case WriteSealed(_) => w.proc.Up? && w.proc.flush.Flushing? && w.proc.flush.todo != []
    case WriteCopy(_) => w.proc.Up? && w.proc.flush.Flushing? && w.proc.flush.todo == [] && w.proc.flush.copy != []
    case Prune(_) =>
      && w.proc.Up? && WritesDone(w.proc.flush) && !w.proc.flush.stopped
      && |w.proc.log.segments| > SEGMENTS_KEPT
    case FlushEnd =>
      && w.proc.Up? && WritesDone(w.proc.flush)
      && (w.proc.flush.stopped || |w.proc.log.segments| <= SEGMENTS_KEPT)
    case Crash => w.proc.Up?
    case Load(_) => w.proc.Down?
    case ListFails => w.proc.Down?
  }

  /** The event a process stores when `e` is appended. */
  function Stamp(w: World, e: Event): Event
    requires w.proc.Up?
  {
    e.(node := w.node, seqno := w.proc.log.next)
  }

  ghost function AppendStep(w: World, e: Event): World
    requires w.proc.Up?
  {
    var l := AppendEvent(w.proc.log, Stamp(w, e));
    var first := if w.proc.log.open == [] || w.proc.log.openBytes + EventBytes(Stamp(w, e)) > SEGMENT_BYTES
                 then w.proc.log.next else w.proc.log.openFirst;
    w.(proc := w.proc.(log := l),
       known := if w.proc.log.persist && EventBytes(Stamp(w, e)) <= SEGMENT_BYTES
                then w.known[w.proc.log.next := Placed(Stamp(w, e), first)] else w.known)
  }

  /** Save `s` under `first` and note the name. */
  ghost function Write(w: World, first: nat, s: Segment, f: FlushState): World
    requires w.proc.Up?
  {
    w.(disk := w.disk[first := s],
       proc := w.proc.(log := w.proc.log.(segments := InsertName(w.proc.log.segments, first)), flush := f))
  }

  ghost function WriteSealedStep(w: World, ok: bool): World
    requires Enabled(w, WriteSealed(ok))
  {
    var f := w.proc.flush;
    var s := f.todo[0];
    if ok then
      Write(w, First(s), s, f.(todo := f.todo[1..], names := f.names + {First(s)}))
    else
      w.(proc := w.proc.(flush := f.(todo := f.todo[1..], retry := f.retry + [s], failed := true)))
  }

  ghost function WriteCopyStep(w: World, ok: bool): World
    requires Enabled(w, WriteCopy(ok))
  {
    var f := w.proc.flush;
    if ok then
      Write(w, f.copyFirst, f.copy, f.(copy := [], names := f.names + {f.copyFirst}))
    else
      w.(proc := w.proc.(flush := f.(copy := [], copyFailed := true, failed := true)))
  }

  ghost function PruneStep(w: World, ok: bool): World
    requires Enabled(w, Prune(ok))
  {
    var oldest := w.proc.log.segments[0];
    if ok then
      World(w.node, w.disk - {oldest}, w.known,
            w.proc.(log := w.proc.log.(segments := w.proc.log.segments[1..]),
                    pruned := w.proc.pruned + if oldest in w.disk then Elements(w.disk[oldest]) else {}))
    else
      w.(proc := w.proc.(flush := w.proc.flush.(stopped := true, failed := true)))
  }

  ghost predicate Stored(disk: map<nat, Segment>, n: nat, p: Placed) {
    p.first in disk && n < p.first + |disk[p.first]|
  }

  ghost function StoredOnly(known: map<nat, Placed>, disk: map<nat, Segment>): map<nat, Placed> {
    map n | n in known && Stored(disk, n, known[n]) :: known[n]
  }

  ghost function Next(w: World, step: Step): World
    requires Enabled(w, step)
  {
    match step
    case Append(e) => AppendStep(w, e)
    case FlushBegin =>
      if w.proc.log.persist then
        w.(proc := w.proc.(log := BeginFlush(w.proc.log), flush := Begun(w.proc.log, w.disk)))
      else w
    case WriteSealed(ok) => WriteSealedStep(w, ok)
    case WriteCopy(ok) => WriteCopyStep(w, ok)
    case Prune(ok) => PruneStep(w, ok)
    case FlushEnd =>
      var f := w.proc.flush;
      w.(proc := w.proc.(log := EndFlush(w.proc.log, f.retry, f.copyFailed, f.failed), flush := Idle))
    case Crash => World(w.node, w.disk, StoredOnly(w.known, w.disk), Down)
    case Load(readable) => w.(proc := LoadProcess(SortedNames(w.disk.Keys), w.disk, readable))
    case ListFails => w.(proc := Up(MemoryOnly(), Idle, {}, {}, {}))
  }

  /** A node that has never run. */
  ghost function Fresh(node: string): World {
    World(node, map[], map[], Down)
  }

  /** `steps` can be taken one after the other from `w`. */
  ghost predicate Runs(w: World, steps: seq<Step>)
    decreases |steps|
  {
    steps == [] || (Enabled(w, steps[0]) && Runs(Next(w, steps[0]), steps[1..]))
  }

  ghost function After(w: World, steps: seq<Step>): World
    requires Runs(w, steps)
    decreases |steps|
  {
    if steps == [] then w else After(Next(w, steps[0]), steps[1..])
  }

  /** A step does not append an event larger than a segment. */
  predicate Fits(node: string, step: Step) {
    step.Append? ==> EventBytes(step.event.(node := node)) <= SEGMENT_BYTES
  }

  predicate AllFit(node: string, steps: seq<Step>) {
    forall i :: 0 <= i < |steps| ==> Fits(node, steps[i])
  }
}
