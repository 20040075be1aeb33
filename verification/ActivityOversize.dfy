/** When numbers are unique.  An oversized event uses up a number without being stored, so a file with two
    events may span more numbers than an unreadable file reserves.  Numbers are unique in all runs of some
    events if and only if none of them is oversized, or none is small enough to share a segment. */
module ActivityOversize {
  import opened ActivityTypes
  import opened ActivitySteps
  import opened ActivityInvariant
  import opened ActivityKeeps
  import opened ActivityAppend
  import opened ActivityLoad
  import opened ActivityNumbers
  import opened ActivityRuns

  /** The size of an event once it carries the node's name. */
  function SizeAt(node: string, e: Event): nat {
    EventBytes(e.(node := node))
  }

  predicate Oversized(node: string, e: Event) {
    SizeAt(node, e) > SEGMENT_BYTES
  }

  /** Two such events fit one segment. */
  predicate Small(node: string, e: Event) {
    2 * SizeAt(node, e) <= SEGMENT_BYTES
  }

  /** The steps append events of `events` only. */
  ghost predicate AppendsFrom(events: iset<Event>, steps: seq<Step>) {
    forall i :: 0 <= i < |steps| && steps[i].Append? ==> steps[i].event in events
  }

  /** None of the events is oversized, or none is small enough to share a segment. */
  ghost predicate Harmless(node: string, events: iset<Event>) {
    (forall e :: e in events ==> !Oversized(node, e)) || (forall e :: e in events ==> !Small(node, e))
  }

  /** Some run of harmless events leads here. */
  ghost predicate HarmlessReachable(w: World) {
    exists steps, events :: HarmlessRun(w, steps, events)
  }

  ghost predicate HarmlessRun(w: World, steps: seq<Step>, events: iset<Event>) {
    && Runs(Fresh(w.node), steps) && After(Fresh(w.node), steps) == w
    && AppendsFrom(events, steps) && Harmless(w.node, events)
  }

  /** In every persistent state of every run that appends events of `events` only, two events with one
      number are one event, and the next number is new. */
  ghost predicate AlwaysUnique(node: string, events: iset<Event>) {
    forall steps :: Runs(Fresh(node), steps) && AppendsFrom(events, steps) ==> UniqueIn(After(Fresh(node), steps))
  }

  ghost predicate UniqueIn(w: World) {
    Persistent(w) ==> forall a, b :: Somewhere(w, a) && Somewhere(w, b) ==>
      a.seqno < w.proc.log.next && (a.seqno == b.seqno ==> a == b)
  }

  // ---------------------------------------------------------------- large events do not share segments

  predicate Single(s: Segment) {
    |s| == 1 && 2 * EventBytes(s[0]) > SEGMENT_BYTES
  }

  ghost predicate AllSingle(q: seq<Segment>) {
    forall s :: s in q ==> Single(s)
  }

  /** Every segment holds one large event. */
  ghost predicate Lonely(w: World) {
    && (forall k :: k in w.disk ==> Single(w.disk[k]))
    && (w.proc.Up? ==>
          && AllSingle(Pending(w.proc))
          && (w.proc.log.open == [] || Single(w.proc.log.open))
          && (w.proc.flush.Flushing? ==> w.proc.flush.copy == [] || Single(w.proc.flush.copy)))
  }

  /** An event next to a large one seals the segment first. */
  lemma LargeIsAlone(w: World, e: Event)
    requires w.proc.Up? && Lonely(w) && w.proc.log.openBytes == Bytes(w.proc.log.open)
    requires 2 * EventBytes(e) > SEGMENT_BYTES
    ensures Roomy(w, e).proc.log.open == []
  {
    if w.proc.log.open != [] { SingleBytes(w.proc.log.open); }
    hide EventBytes, Bytes;
  }

  lemma SingleBytes(s: Segment)
    requires Single(s)
    ensures 2 * Bytes(s) > SEGMENT_BYTES
  {
    hide EventBytes;
    assert s == [] + [s[0]];
    BytesSnoc([], s[0]);
  }

  lemma SealLonely(w: World)
    requires w.proc.Up? && Lonely(w) && w.proc.log.open != []
    ensures Lonely(Sealed(w))
  {
    hide Single, Without;
    var all := w.proc.log.sealed + [w.proc.log.open];
    SealQueue(w);
    WithoutMembers(Longer(w.proc), Kept(w.proc), Kept(w.proc) + Extra(all));
  }

  lemma ExtendLonely(w: World, e: Event)
    requires w.proc.Up? && Lonely(w) && w.proc.log.open == [] && 2 * EventBytes(e) > SEGMENT_BYTES
    ensures Lonely(Extended(w, e))
  {
    assert Pending(Extended(w, e).proc) == Pending(w.proc);
  }

  lemma AppendLonely(w: World, raw: Event)
    requires BaseInv(w) && Lonely(w) && Persistent(w) && !Small(w.node, raw)
    ensures Lonely(Next(w, Append(raw))) && Orderly(w, Stamp(w, raw), true)
  {
    var e := Stamp(w, raw);
    assert EventBytes(e) == SizeAt(w.node, raw);
    assert w.proc.log.openBytes == Bytes(w.proc.log.open) by { OpenBytes(w); }
    hide BaseInv, Lonely, Next, EventBytes, Bytes;
    if EventBytes(e) > SEGMENT_BYTES {
      AppendSkips(w, raw);
      SkipLonely(w, e);
    } else {
      AppendStores(w, raw);
      LargeIsAlone(w, e);
      var r := Roomy(w, e);
      if r != w { SealLonely(w); }
      ExtendLonely(r, e);
      if Full(Extended(r, e).proc.log) { SealLonely(Extended(r, e)); }
    }
  }

  lemma SkipLonely(w: World, e: Event)
    requires w.proc.Up? && Lonely(w)
    ensures Lonely(Skipped(w, e))
  {
    assert Pending(Skipped(w, e).proc) == Pending(w.proc);
  }

  lemma SealedLonely(w: World, ok: bool)
    requires Lonely(w) && Enabled(w, WriteSealed(ok))
    ensures Lonely(Next(w, WriteSealed(ok)))
  {
    hide InsertName;
    var n := |w.proc.flush.retry|;
    TodoHead(w, ok);
    assert w.proc.flush.todo[0] in Pending(w.proc);
    WithoutMembers(Pending(w.proc), n, n + 1);
  }

  lemma EndLonely(w: World)
    requires Lonely(w) && Enabled(w, FlushEnd)
    ensures Lonely(Next(w, FlushEnd))
  {
    EndQueue(w);
    WithoutMembers(Pending(w.proc), 0, Extra(Pending(w.proc)));
  }

  lemma LoadLonely(w: World, readable: set<nat>)
    requires Lonely(w) && w.proc.Down?
    ensures Lonely(Next(w, Load(readable)))
  {
    hide LoadNext, LoadEvents;
    var names := SortedNames(w.disk.Keys);
    NewestReads(names, w.disk);
    hide SortedNames, Newest;
  }

  lemma StepLonely(w: World, step: Step)
    requires BaseInv(w) && Lonely(w) && Enabled(w, step)
    requires step.Append? && w.proc.log.persist ==> !Small(w.node, step.event)
    ensures Lonely(Next(w, step))
  {
    hide BaseInv, LoadProcess, SortedNames, Small, Single;
    match step
    case Append(e) => if w.proc.log.persist { AppendLonely(w, e); }
    case FlushBegin => assert Pending(Next(w, step).proc) == Pending(w.proc);
    case WriteSealed(ok) => SealedLonely(w, ok);
    case WriteCopy(ok) => assert Pending(Next(w, step).proc) == Pending(w.proc);
    case Prune(ok) => assert Pending(Next(w, step).proc) == Pending(w.proc);
    case FlushEnd => EndLonely(w);
    case Crash =>
    case Load(readable) => LoadLonely(w, readable);
    case ListFails =>
  }

  lemma {:induction false} LonelyRun(w: World, steps: seq<Step>, events: iset<Event>)
    requires BaseInv(w) && Lonely(w) && Numbered(w, true) && Runs(w, steps) && AppendsFrom(events, steps)
    requires forall e :: e in events ==> !Small(w.node, e)
    ensures Numbered(After(w, steps), true)
    decreases |steps|
  {
    if steps == [] {
    } else {
      hide BaseInv, Lonely, Numbered, Next, Small, Orderly;
      var step := steps[0];
      assert step.Append? ==> step.event in events;
      if step.Append? && w.proc.log.persist { AppendLonely(w, step.event); }
      BaseStep(w, step);
      StepLonely(w, step);
      StepNumbers(w, step, true);
      assert forall i :: 0 <= i < |steps[1..]| ==> steps[1..][i] == steps[i + 1];
      LonelyRun(Next(w, step), steps[1..], events);
    }
  }

  lemma FittingRun(node: string, steps: seq<Step>, events: iset<Event>)
    requires AppendsFrom(events, steps) && forall e :: e in events ==> !Oversized(node, e)
    ensures AllFit(node, steps)
  {
  }

  lemma HarmlessNumbered(node: string, steps: seq<Step>, events: iset<Event>) returns (gaps: bool)
    requires Runs(Fresh(node), steps) && AppendsFrom(events, steps) && Harmless(node, events)
    ensures BaseInv(After(Fresh(node), steps)) && Numbered(After(Fresh(node), steps), gaps)
  {
    hide Oversized, Small, Next;
    gaps := exists e :: e in events && Oversized(node, e);
    if gaps {
      LonelyRun(Fresh(node), steps, events);
      BaseRun(Fresh(node), steps);
    } else {
      FittingRun(node, steps, events);
      RunKeeps(Fresh(node), steps);
    }
  }

  lemma HarmlessIsUnique(node: string, events: iset<Event>)
    requires Harmless(node, events)
    ensures AlwaysUnique(node, events)
  {
    hide Harmless, Next, Numbered, BaseInv;
    forall steps | Runs(Fresh(node), steps) && AppendsFrom(events, steps)
      ensures UniqueIn(After(Fresh(node), steps))
    {
      var w := After(Fresh(node), steps);
      var gaps := HarmlessNumbered(node, steps, events);
      if Persistent(w) {
        forall a, b | Somewhere(w, a) && Somewhere(w, b)
          ensures a.seqno < w.proc.log.next && (a.seqno == b.seqno ==> a == b)
        {
          SameNumber(w, a, b, gaps);
        }
      }
    }
  }

  // ---------------------------------------------------------------- a small and an oversized event together

  /** `steps` lead from `w` to `v` and append events of `events` only. */
  ghost predicate Leads(w: World, steps: seq<Step>, v: World, events: iset<Event>) {
    Runs(w, steps) && After(w, steps) == v && AppendsFrom(events, steps)
  }

  lemma {:induction false} LeadsOn(w: World, steps: seq<Step>, v: World, more: seq<Step>, u: World, events: iset<Event>)
    requires Leads(w, steps, v, events) && Leads(v, more, u, events)
    ensures Leads(w, steps + more, u, events)
    decreases |steps|
  {
    hide Next, Enabled;
    if steps == [] {
      assert steps + more == more;
    } else {
      assert forall i :: 0 <= i < |steps[1..]| ==> steps[1..][i] == steps[i + 1];
      assert (steps + more)[1..] == steps[1..] + more;
      LeadsOn(Next(w, steps[0]), steps[1..], v, more, u, events);
    }
  }

  lemma LeadsStep(w: World, s: Step, events: iset<Event>)
    requires Enabled(w, s) && (s.Append? ==> s.event in events)
    ensures Leads(w, [s], Next(w, s), events)
  {
    hide Next, Enabled;
    var steps := [s];
    assert steps[1..] == [] && steps[0] == s;
    assert Runs(Next(w, s), steps[1..]);
    assert After(w, steps) == After(Next(w, steps[0]), steps[1..]);
  }

  /** Oversized events only count up. */
  lemma {:induction false} BurstCounts(w: World, e: Event, n: nat, events: iset<Event>)
    returns (steps: seq<Step>, v: World)
    requires Persistent(w) && Oversized(w.node, e) && e in events
    ensures Leads(w, steps, v, events)
    ensures v.disk == w.disk && v.node == w.node && Persistent(v) && v.proc == w.proc.(log := v.proc.log)
    ensures v.proc.log == w.proc.log.(next := w.proc.log.next + n, hist := v.proc.log.hist,
                                      lost := v.proc.log.lost, dropped := v.proc.log.dropped)
    ensures n > 0 ==> e.(node := w.node, seqno := w.proc.log.next + n - 1) in v.proc.log.hist
    decreases n
  {
    if n == 0 {
      steps, v := [], w;
    } else {
      var first, u := BurstCounts(w, e, n - 1, events);
      assert EventBytes(Stamp(u, e)) == SizeAt(w.node, e);
      AppendSkips(u, e);
      LeadsStep(u, Append(e), events);
      hide Next, Enabled, Leads, EventBytes, SizeAt;
      v := Next(u, Append(e));
      steps := first + [Append(e)];
      LeadsOn(w, first, u, [Append(e)], v, events);
      assert v.proc.log.hist == u.proc.log.hist + [Stamp(u, e)];
    }
  }

  /** What appending a small event to an empty open segment, or to one with another such event, leaves. */
  lemma AppendSmall(w: World, p: Event, events: iset<Event>) returns (v: World)
    requires Persistent(w) && Small(w.node, p) && p in events && |w.proc.log.open| <= 1
    requires w.proc.log.openBytes == |w.proc.log.open| * SizeAt(w.node, p)
    ensures Leads(w, [Append(p)], v, events)
    ensures var l := w.proc.log;
            var e := p.(node := w.node, seqno := l.next);
            var first := if l.open == [] then l.next else l.openFirst;
            var fed := l.(next := l.next + 1, hist := l.hist + [e], open := l.open + [e], dirty := true,
                          openFirst := first, openBytes := l.openBytes + SizeAt(w.node, p));
            && v.disk == w.disk && v.node == w.node && v.proc.Up? && v.proc == w.proc.(log := v.proc.log)
            && v.proc.log == if 2 * SizeAt(w.node, p) == SEGMENT_BYTES && |l.open| == 1 then Seal(fed) else fed
  {
    var e := Stamp(w, p);
    assert EventBytes(e) == SizeAt(w.node, p) > 0;
    AppendStores(w, p);
    LeadsStep(w, Append(p), events);
    v := Next(w, Append(p));
    hide Leads, Next, Enabled, EventBytes, SizeAt, Seal, AppendsFrom;
    assert Roomy(w, e) == w;
    assert Sealed(Extended(w, e)).proc.log == Seal(Extended(w, e).proc.log) by { SealDirty(Extended(w, e)); }
  }

  lemma SealDirty(w: World)
    requires w.proc.Up? && w.proc.log.dirty
    ensures Sealed(w).proc.log == Seal(w.proc.log)
  {
  }

  lemma FirstLoad(node: string, events: iset<Event>) returns (v: World)
    ensures Leads(Fresh(node), [Load({})], v, events)
    ensures v.disk == map[] && v.node == node && v.proc.Up? && v.proc.flush.Idle?
    ensures v.proc.log == Log(true, 0, [], 0, 0, [], false, 0, false, false, [], [], [])
  {
    v := Next(Fresh(node), Load({}));
    LeadsStep(Fresh(node), Load({}), events);
    assert SortedNames({}) == [];
    hide Leads;
  }

  /** Save one segment, open or sealed, and crash. */
  lemma SaveAndCrash(w: World, s: Segment, events: iset<Event>) returns (steps: seq<Step>, v: World)
    requires Persistent(w) && w.proc.flush.Idle? && w.disk == map[] && w.proc.log.segments == []
    requires w.proc.log.dirty && s != [] && First(s) == 0
    requires || (w.proc.log.open == s && w.proc.log.openFirst == 0 && w.proc.log.sealed == [])
             || (w.proc.log.open == [] && w.proc.log.sealed == [s])
    ensures Leads(w, steps, v, events)
    ensures v.disk == map[0 := s] && v.node == w.node && v.proc.Down?
  {
    var a := Next(w, FlushBegin);
    LeadsStep(w, FlushBegin, events);
    var write := if w.proc.log.open == [] then WriteSealed(true) else WriteCopy(true);
    var b := Next(a, write);
    LeadsStep(a, write, events);
    assert b.proc.log.segments == [0];
    var c := Next(b, FlushEnd);
    LeadsStep(b, FlushEnd, events);
    v := Next(c, Crash);
    LeadsStep(c, Crash, events);
    hide Leads, Next, Enabled;
    LeadsOn(w, [FlushBegin], a, [write], b, events);
    LeadsOn(w, [FlushBegin] + [write], b, [FlushEnd], c, events);
    LeadsOn(w, [FlushBegin] + [write] + [FlushEnd], c, [Crash], v, events);
    steps := [FlushBegin] + [write] + [FlushEnd] + [Crash];
  }

  /** Load when the only file cannot be read. */
  lemma LoadUnreadable(w: World, events: iset<Event>) returns (v: World)
    requires w.proc.Down? && w.disk.Keys == {0}
    ensures Leads(w, [Load({})], v, events)
    ensures v.disk == w.disk && v.node == w.node && Persistent(v) && v.proc.flush.Idle?
    ensures v.proc.log.next == SEGMENT_EVENTS && v.proc.log.open == [] && v.proc.log.openBytes == 0
  {
    hide Leads, SortedNames, LoadLog;
    OneName(SortedNames(w.disk.Keys));
    LoadsNothing(w.disk);
    LeadsStep(w, Load({}), events);
    v := Next(w, Load({}));
    assert v.proc.log == LoadLog([0], w.disk, {});
    hide NamesOk;
  }

  lemma LoadsNothing(disk: map<nat, Segment>)
    requires disk.Keys == {0}
    ensures NamesOk([0], disk)
    ensures var l := LoadLog([0], disk, {});
            l.persist && l.next == SEGMENT_EVENTS && l.open == [] && l.openBytes == 0
  {
    assert 0 in disk;
    hide LoadEvents, LoadNext;
    NothingRead(disk);
  }

  lemma OneName(names: seq<nat>)
    requires Increasing(names) && forall k :: k in names <==> k == 0
    ensures names == [0]
  {
    assert 0 in names;
    assert names[0] in names;
    assert names[|names| - 1] in names;
  }

  lemma NothingRead(disk: map<nat, Segment>)
    requires 0 in disk
    ensures Reads([0], disk) && LoadNext([0], disk, {}) == SEGMENT_EVENTS
  {
    var none: seq<nat> := [];
    assert [0][..0] == none;
    assert LoadNext(none, disk, {}) == 0;
  }

  /** A file with the numbers 0 and 1001. */
  lemma WideFile(node: string, e: Event, p: Event, events: iset<Event>) returns (steps: seq<Step>, v: World)
    requires Oversized(node, e) && Small(node, p) && e in events && p in events
    ensures Leads(Fresh(node), steps, v, events) && v.node == node && v.proc.Down?
    ensures v.disk == map[0 := [p.(node := node, seqno := 0), p.(node := node, seqno := SEGMENT_EVENTS + 1)]]
  {
    hide Next, Enabled, Leads, Oversized, Small, SizeAt;
    var a := FirstLoad(node, events);
    var b := AppendSmall(a, p, events);
    LeadsOn(Fresh(node), [Load({})], a, [Append(p)], b, events);
    var burst, c := BurstCounts(b, e, SEGMENT_EVENTS, events);
    LeadsOn(Fresh(node), [Load({})] + [Append(p)], b, burst, c, events);
    var d := AppendSmall(c, p, events);
    steps := [Load({})] + [Append(p)] + burst;
    LeadsOn(Fresh(node), steps, c, [Append(p)], d, events);
    var last := p.(node := node, seqno := SEGMENT_EVENTS + 1);
    assert c.proc.log.open + [last] == [p.(node := node, seqno := 0), last];
    var save;
    save, v := SaveAndCrash(d, c.proc.log.open + [last], events);
    LeadsOn(Fresh(node), steps + [Append(p)], d, save, v, events);
    steps := steps + [Append(p)] + save;
  }

  /** For every node, every oversized event and every small one, some run that appends nothing else gives
      one number to both: 1000 oversized events between two small ones make one file span 1002 numbers, a
      load that cannot read it continues at 1000, and the second event appended then takes 1001 again. */
  lemma OversizedRepeatsNumber(node: string, e: Event, p: Event, events: iset<Event>) returns (steps: seq<Step>)
    requires Oversized(node, e) && Small(node, p) && e in events && p in events
    ensures Runs(Fresh(node), steps) && AppendsFrom(events, steps)
    ensures var w := After(Fresh(node), steps);
            var n := SEGMENT_EVENTS + 1;
            && Persistent(w) && Somewhere(w, p.(node := node, seqno := n)) && Somewhere(w, e.(node := node, seqno := n))
            && p.(node := node, seqno := n) != e.(node := node, seqno := n)
  {
    var n := SEGMENT_EVENTS + 1;
    assert SizeAt(node, e) == EventBytes(e.(node := node, seqno := n));
    assert SizeAt(node, p) == EventBytes(p.(node := node, seqno := n));
    assert p.(node := node, seqno := n) != e.(node := node, seqno := n);
    hide Next, Enabled, Leads, Oversized, Small, SizeAt, EventBytes, AppendsFrom, Runs, After, Seal;
    var wide, a := WideFile(node, e, p, events);
    var b := LoadUnreadable(a, events);
    LeadsOn(Fresh(node), wide, a, [Load({})], b, events);
    var c := AppendSmall(b, p, events);
    LeadsOn(Fresh(node), wide + [Load({})], b, [Append(p)], c, events);
    var burst, d := BurstCounts(c, e, 1, events);
    steps := wide + [Load({})] + [Append(p)] + burst;
    LeadsOn(Fresh(node), wide + [Load({})] + [Append(p)], c, burst, d, events);
    LeadsEnd(Fresh(node), steps, d, events);
    assert p.(node := node, seqno := n) in d.disk[0];
    assert OnDisk(d.disk, p.(node := node, seqno := n));
  }

  lemma LeadsEnd(w: World, steps: seq<Step>, v: World, events: iset<Event>)
    requires Leads(w, steps, v, events)
    ensures Runs(w, steps) && After(w, steps) == v && AppendsFrom(events, steps)
  {
  }

  /** Numbers are unique in all runs of `events` if and only if none of them is oversized, or none is small
      enough to share a segment. */
  lemma UniqueExactly(node: string, events: iset<Event>)
    ensures AlwaysUnique(node, events) <==> Harmless(node, events)
  {
    hide Oversized, Small, Runs, After, AppendsFrom, Somewhere;
    if Harmless(node, events) {
      HarmlessIsUnique(node, events);
    } else {
      var e :| e in events && Oversized(node, e);
      var p :| p in events && Small(node, p);
      var steps := OversizedRepeatsNumber(node, e, p, events);
      assert !UniqueIn(After(Fresh(node), steps));
    }
  }
}
