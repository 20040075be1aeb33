/** Appending an event keeps the names, the prefixes and the places of events.  An append may drop an
    oversized event, or seal the open segment, extend the open segment, and seal again, in that order. */
module ActivityAppend {
  import opened ActivityTypes
  import opened ActivitySteps
  import opened ActivityInvariant
  import opened ActivityKeeps

  ghost function Sealed(w: World): World
    requires w.proc.Up?
  {
    w.(proc := w.proc.(log := Seal(w.proc.log).(dirty := true)))
  }

  ghost function Extended(w: World, e: Event): World
    requires w.proc.Up?
  {
    var l := w.proc.log;
    var first := if l.open == [] then l.next else l.openFirst;
    w.(proc := w.proc.(log := Extend(l.(next := l.next + 1, hist := l.hist + [e]), e)),
       known := w.known[l.next := Placed(e, first)])
  }

  /** An oversized event is counted and not stored. */
  ghost function Skipped(w: World, e: Event): World
    requires w.proc.Up?
  {
    var l := w.proc.log;
    w.(proc := w.proc.(log := l.(next := l.next + 1, hist := l.hist + [e], dropped := l.dropped + 1,
                                 lost := l.lost + [e])))
  }

  ghost function Roomy(w: World, e: Event): World
    requires w.proc.Up?
  {
    if w.proc.log.open != [] && w.proc.log.openBytes + EventBytes(e) > SEGMENT_BYTES then Sealed(w) else w
  }

  lemma AppendSkips(w: World, raw: Event)
    requires Persistent(w) && EventBytes(Stamp(w, raw)) > SEGMENT_BYTES
    ensures Next(w, Append(raw)) == Skipped(w, Stamp(w, raw))
  {
    hide Seal;
  }

  lemma AppendStores(w: World, raw: Event)
    requires Persistent(w) && EventBytes(Stamp(w, raw)) <= SEGMENT_BYTES
    ensures var v := Extended(Roomy(w, Stamp(w, raw)), Stamp(w, raw));
            Next(w, Append(raw)) == if Full(v.proc.log) then Sealed(v) else v
  {
    hide EventBytes;
  }

  // ---------------------------------------------------------------- sealing

  /** The pending list with the open segment added, before old segments are dropped. */
  ghost function Longer(p: Process): seq<Segment>
    requires p.Up?
  {
    Pending(p) + [p.log.open]
  }

  ghost function Kept(p: Process): nat
    requires p.Up?
  {
    if p.flush.Idle? then 0 else |p.flush.retry| + |p.flush.todo|
  }

  lemma SealSplit(head: seq<Segment>, sealed: seq<Segment>, open: Segment, cut: nat)
    requires cut <= |sealed + [open]|
    ensures var q := head + sealed + [open];
            && |head| + cut <= |q|
            && q[|head|..|head| + cut] == (sealed + [open])[..cut]
            && head + (sealed + [open])[cut..] == Without(q, |head|, |head| + cut)
  {
  }

  lemma SealQueue(w: World)
    requires w.proc.Up?
    ensures var n := Kept(w.proc);
            var cut := Extra(w.proc.log.sealed + [w.proc.log.open]);
            && n + cut <= |Longer(w.proc)|
            && Longer(w.proc)[n..n + cut] == (w.proc.log.sealed + [w.proc.log.open])[..cut]
            && Pending(Sealed(w).proc) == Without(Longer(w.proc), n, n + cut)
  {
    hide Without;
    var l := w.proc.log;
    var f := w.proc.flush;
    var head := if f.Idle? then [] else f.retry + f.todo;
    var all := l.sealed + [l.open];
    assert f.Idle? ==> head + l.sealed == l.sealed && head + all[Extra(all)..] == all[Extra(all)..];
    SealSplit(head, l.sealed, l.open, Extra(all));
  }

  lemma LongerOk(w: World)
    requires w.proc.Up? && OpenOk(w.proc.log, CtxOf(w)) && QueueOk(w) && w.proc.log.open != []
    ensures AllLive(Longer(w.proc), CtxOf(w)) && InOrder(Longer(w.proc)) && AllBelow(Longer(w.proc), w.proc.log.next)
  {
    var q := Pending(w.proc);
    forall i | 0 <= i < |q| ensures First(q[i]) < w.proc.log.openFirst { assert q[i] in q; }
  }

  lemma SealOpen(w: World)
    requires w.proc.Up? && OpenPartOk(w) && w.proc.log.open != []
    ensures OpenPartOk(Sealed(w))
  {
    hide NamesOk, NextOk, AllBelow;
  }

  lemma SealBounds(f: FlushState, l: Log)
    requires BoundsOk(f, l)
    ensures BoundsOk(f, Seal(l).(dirty := true))
  {
    var all := l.sealed + [l.open];
    FlattenTotal(all[..Extra(all)]);
  }

  lemma SealPending(w: World)
    requires w.proc.Up? && AllLive(Longer(w.proc), CtxOf(w)) && InOrder(Longer(w.proc))
    requires AllBelow(Longer(w.proc), w.proc.log.next)
    ensures var q := Pending(Sealed(w).proc);
            AllLive(q, CtxOf(w)) && InOrder(q) && AllBelow(q, w.proc.log.next)
  {
    hide AllLive, InOrder, Pending, Longer, Without;
    var n := Kept(w.proc);
    var cut := Extra(w.proc.log.sealed + [w.proc.log.open]);
    SealQueue(w);
    WithoutLive(Longer(w.proc), n, n + cut, CtxOf(w));
    WithoutOrder(Longer(w.proc), n, n + cut);
    WithoutMembers(Longer(w.proc), n, n + cut);
  }

  lemma SealSegments(w: World)
    requires w.proc.Up? && OpenPartOk(w) && QueueOk(w) && w.proc.log.open != []
    ensures OpenPartOk(Sealed(w)) && QueueOk(Sealed(w))
  {
    hide OpenPartOk, OpenOk, Pending, Longer, AllLive, InOrder, AllBelow, BoundsOk;
    OpenPart(w);
    SealOpen(w);
    LongerOk(w);
    SealPending(w);
    SealBounds(w.proc.flush, w.proc.log);
  }

  lemma OpenPart(w: World)
    requires w.proc.Up? && OpenPartOk(w)
    ensures OpenOk(w.proc.log, CtxOf(w))
  {
  }

  lemma SealPlaces(w: World)
    requires w.proc.Up? && PlacesOk(w)
    ensures PlacesOk(Sealed(w))
  {
    hide FlushNamesOk;
    var l := w.proc.log;
    var v := Sealed(w);
    var n := Kept(w.proc);
    var q := Longer(w.proc);
    var all := l.sealed + [l.open];
    var cut := Extra(all);
    SealQueue(w);
    forall e | e in l.hist ensures Located(e, [], q, w.disk, w.proc.pruned, l.lost) {
      assert Located(e, l.open, Pending(w.proc), w.disk, w.proc.pruned, l.lost);
      assert forall s :: s in Pending(w.proc) ==> s in q;
      assert l.open in q;
    }
    forall s, e | s in q[n..n + cut] && e in s ensures e in v.proc.log.lost { FlattenHas(all[..cut], e); }
    WithoutLocated(l.hist, [], q, n, n + cut, w.disk, w.disk, w.proc.pruned, l.lost, v.proc.log.lost);
  }

  lemma SealKeeps(w: World)
    requires w.proc.Up? && ProcessOk(w) && w.proc.log.open != []
    ensures ProcessOk(Sealed(w))
  {
    hide OpenPartOk, QueueOk, PlacesOk;
    SealSegments(w);
    SealPlaces(w);
  }

  // ---------------------------------------------------------------- extending

  ghost predicate HasRoom(l: Log, e: Event) {
    !Full(l) && e.seqno == l.next && EventBytes(e) <= SEGMENT_BYTES && l.openBytes + EventBytes(e) <= SEGMENT_BYTES
  }

  lemma ExtendOpen(w: World, e: Event)
    requires w.proc.Up? && OpenPartOk(w) && e.seqno == w.proc.log.next
    ensures OpenPartOk(Extended(w, e))
  {
    hide NamesOk, AllBelow, EventBytes, Bytes;
    var v := Extended(w, e);
    assert CtxOf(v) == CtxOf(w);
    ExtendOpenOk(w.proc.log, CtxOf(w), e);
    ExtendCopyOk(w.proc.flush, w.proc.log, CtxOf(w), e);
    hide OpenOk, CopyOk, LiveOk;
  }

  /** The log with an event added to its open segment. */
  ghost function Longest(l: Log, e: Event): Log {
    Extend(l.(next := l.next + 1, hist := l.hist + [e]), e)
  }

  lemma ExtendOpenOk(l: Log, c: Ctx, e: Event)
    requires OpenOk(l, c) && NextOk(l.next, c) && e.seqno == l.next
    ensures OpenOk(Longest(l, e), c)
  {
    BytesSnoc(l.open, e);
    hide EventBytes, Bytes;
  }

  lemma ExtendCopyOk(f: FlushState, l: Log, c: Ctx, e: Event)
    requires CopyOk(f, l, c) && e.seqno == l.next
    ensures CopyOk(f, Longest(l, e), c)
  {
    hide LiveOk, EventBytes, AllBelow;
  }

  lemma ExtendQueue(w: World, e: Event)
    requires w.proc.Up? && QueueOk(w) && e.seqno == w.proc.log.next
    ensures QueueOk(Extended(w, e))
  {
    hide InOrder, AllLive;
    var v := Extended(w, e);
    assert Pending(v.proc) == Pending(w.proc) && CtxOf(v) == CtxOf(w);
  }

  lemma ExtendPlaces(w: World, e: Event)
    requires w.proc.Up? && PlacesOk(w)
    ensures PlacesOk(Extended(w, e))
  {
    hide FlushNamesOk, InPending, OnDisk;
    var l := w.proc.log;
    var v := Extended(w, e);
    assert Pending(v.proc) == Pending(w.proc);
    forall x | x in v.proc.log.hist
      ensures Located(x, v.proc.log.open, Pending(v.proc), v.disk, v.proc.pruned, v.proc.log.lost)
    {
      assert x in l.hist ==> Located(x, l.open, Pending(w.proc), w.disk, w.proc.pruned, l.lost);
    }
  }

  lemma ExtendKeeps(w: World, e: Event)
    requires w.proc.Up? && ProcessOk(w) && e.seqno == w.proc.log.next
    ensures ProcessOk(Extended(w, e))
  {
    hide OpenPartOk, QueueOk, PlacesOk;
    ExtendOpen(w, e);
    ExtendQueue(w, e);
    ExtendPlaces(w, e);
  }

  // ---------------------------------------------------------------- oversized events

  lemma SkipKeeps(w: World, e: Event)
    requires w.proc.Up? && ProcessOk(w)
    ensures ProcessOk(Skipped(w, e))
  {
    hide LiveOk, NamesOk, AllLive, InOrder, FlushNamesOk, InPending, OnDisk;
    var l := w.proc.log;
    var v := Skipped(w, e);
    assert Pending(v.proc) == Pending(w.proc) && CtxOf(v) == CtxOf(w);
    forall x | x in v.proc.log.hist
      ensures Located(x, v.proc.log.open, Pending(v.proc), v.disk, v.proc.pruned, v.proc.log.lost)
    {
      assert x in l.hist ==> Located(x, l.open, Pending(w.proc), w.disk, w.proc.pruned, l.lost);
    }
  }

  // ---------------------------------------------------------------- appending

  lemma RoomyKeeps(w: World, e: Event)
    requires w.proc.Up? && ProcessOk(w) && !Full(w.proc.log)
    requires e.seqno == w.proc.log.next && EventBytes(e) <= SEGMENT_BYTES
    ensures ProcessOk(Roomy(w, e)) && HasRoom(Roomy(w, e).proc.log, e)
  {
    hide ProcessOk, OpenPartOk;
    if Roomy(w, e) != w {
      SealKeeps(w);
    }
    assert w.proc.log.open == [] ==> w.proc.log.openBytes == 0 by { EmptyOpen(w); }
  }

  lemma EmptyOpen(w: World)
    requires w.proc.Up? && ProcessOk(w)
    ensures w.proc.log.open == [] ==> w.proc.log.openBytes == 0
  {
  }

  lemma AppendKeeps(w: World, raw: Event)
    requires BaseInv(w) && Persistent(w)
    ensures BaseInv(Next(w, Append(raw)))
  {
    hide ProcessOk, FilesOk;
    var e := Stamp(w, raw);
    if EventBytes(e) > SEGMENT_BYTES {
      AppendSkips(w, raw);
      SkipKeeps(w, e);
    } else {
      AppendStores(w, raw);
      var r := Roomy(w, e);
      RoomyKeeps(w, e);
      ExtendKeeps(r, e);
      if Full(Extended(r, e).proc.log) { SealKeeps(Extended(r, e)); }
    }
  }
}
