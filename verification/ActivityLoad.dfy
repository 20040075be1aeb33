/** A load establishes the names, the prefixes and the places of events, whatever files could be read. */
module ActivityLoad {
  import opened ActivityTypes
  import opened ActivitySteps
  import opened ActivityInvariant

  // ---------------------------------------------------------------- the next sequence number

  lemma {:induction false} NextPastCovers(next: nat, s: Segment)
    ensures next <= NextPast(next, s)
    ensures forall j :: 0 <= j < |s| ==> s[j].seqno < NextPast(next, s)
  {
    if s == [] {
    } else {
      NextPastCovers(next, s[..|s| - 1]);
    }
  }

  /** The next number is above every name read, and above every event read. */
  lemma {:induction false} NextAbove(read: seq<nat>, disk: map<nat, Segment>, readable: set<nat>, i: nat)
    requires Reads(read, disk) && i < |read|
    ensures read[i] < LoadNext(read, disk, readable)
    ensures read[i] in readable ==>
              forall j :: 0 <= j < |disk[read[i]]| ==> disk[read[i]][j].seqno < LoadNext(read, disk, readable)
  {
    var front := read[..|read| - 1];
    var last := read[|read| - 1];
    if last in readable { NextPastCovers(Max(LoadNext(front, disk, readable), last + 1), disk[last]); }
    if i < |front| {
      NextAbove(front, disk, readable, i);
    }
  }

  // ---------------------------------------------------------------- the events

  lemma {:induction false} EventsIn(read: seq<nat>, disk: map<nat, Segment>, readable: set<nat>, e: Event)
    requires Reads(read, disk)
    ensures e in LoadEvents(read, disk, readable) <==>
            exists k :: k in read && k in readable && e in disk[k]
  {
    if read == [] {
    } else {
      var front := read[..|read| - 1];
      EventsIn(front, disk, readable, e);
      assert read == front + [read[|read| - 1]];
    }
  }

  // ---------------------------------------------------------------- load

  lemma NewestNames(names: seq<nat>)
    requires Increasing(names)
    ensures Increasing(Newest(names))
    ensures forall k :: k in Newest(names) ==> k in names
    ensures forall k :: k in names && k !in Newest(names) ==> BelowKept(k, names)
    ensures names != [] ==> Newest(names) != [] && Newest(names)[|Newest(names)| - 1] == names[|names| - 1]
    ensures |names| > SEGMENTS_KEPT ==> Newest(names)[0] == names[|names| - SEGMENTS_KEPT]
  {
    if |names| > SEGMENTS_KEPT {
      var m := |names| - SEGMENTS_KEPT;
      assert names == names[..m] + names[m..];
    }
  }

  /** The next number is above every name on disk. */
  lemma LoadAbove(names: seq<nat>, disk: map<nat, Segment>, readable: set<nat>, k: nat)
    requires NamesOk(names, disk) && k in disk
    ensures Reads(Newest(names), disk) && k < LoadNext(Newest(names), disk, readable)
  {
    var read := Newest(names);
    NewestReads(names, disk);
    NewestNames(names);
    NamesUpTo(names, disk, k);
    NextAbove(read, disk, readable, |read| - 1);
  }

  /** The segment that is opened again, if any: the newest file. */
  lemma LoadOpenSegment(names: seq<nat>, disk: map<nat, Segment>, readable: set<nat>)
    requires NamesOk(names, disk)
    ensures var l, read := LoadLog(names, disk, readable), Newest(names);
            && Reads(read, disk) && l.next == LoadNext(read, disk, readable)
            && l.openBytes == Bytes(l.open) && !Full(l)
            && (l.open != [] ==>
                  && read != [] && l.openFirst == read[|read| - 1] && l.openFirst in readable
                  && l.openFirst in disk && l.open == disk[l.openFirst])
  {
    hide LoadNext, LoadEvents, Bytes, NamesOk, Newest;
    NewestReads(names, disk);
    assert Bytes([]) == 0 by { EmptyBytes(); }
  }

  /** The newest file: no other one is newer, and it was looked at. */
  lemma NewestFile(names: seq<nat>, disk: map<nat, Segment>, readable: set<nat>, first: nat)
    requires NamesOk(names, disk) && first in disk
    requires Newest(names) != [] && first == Newest(names)[|Newest(names)| - 1]
    ensures first in Newest(names) && forall k :: k in disk ==> k <= first
    ensures Reads(Newest(names), disk) && first < LoadNext(Newest(names), disk, readable)
  {
    assert Increasing(names);
    hide LoadNext, NamesOk, Newest, BelowKept, Increasing;
    NewestNames(names);
    LoadAbove(names, disk, readable, first);
    forall k | k in disk ensures k <= first {
      NamesUpTo(names, disk, k);
    }
  }

  lemma LoadOpen(names: seq<nat>, disk: map<nat, Segment>, readable: set<nat>)
    requires NamesOk(names, disk) && FilesOk(disk)
    ensures var p := LoadProcess(names, disk, readable);
            OpenOk(p.log, Ctx(disk, p.unread + p.skipped)) && !Full(p.log) && OpenSaved(p.log, disk)
  {
    hide LoadLog, LoadNext, Bytes, NamesOk, Newest, Reads, Full;
    LoadOpenSegment(names, disk, readable);
    var l := LoadLog(names, disk, readable);
    if l.open != [] {
      NewestFile(names, disk, readable, l.openFirst);
      assert disk[l.openFirst] != [] && First(disk[l.openFirst]) == l.openFirst;
      hide FilesOk;
    }
  }

  lemma NamesUpTo(names: seq<nat>, disk: map<nat, Segment>, k: nat)
    requires NamesOk(names, disk) && k in disk
    ensures names != [] && k <= names[|names| - 1]
  {
    var i :| 0 <= i < |names| && names[i] == k;
  }

  lemma EmptyBytes()
    ensures Bytes([]) == 0
  {
  }

  lemma LoadNextOk(names: seq<nat>, disk: map<nat, Segment>, readable: set<nat>)
    requires NamesOk(names, disk)
    ensures var p := LoadProcess(names, disk, readable);
            NextOk(p.log.next, Ctx(disk, p.unread + p.skipped))
  {
    hide LoadNext, LoadEvents;
    NewestNames(names);
    forall k | k in disk ensures k < LoadLog(names, disk, readable).next { LoadAbove(names, disk, readable, k); }
    hide Newest, LoadLog;
  }

  lemma LoadPlaces(names: seq<nat>, disk: map<nat, Segment>, readable: set<nat>, v: World)
    requires NamesOk(names, disk)
    requires v.disk == disk && v.proc == LoadProcess(names, disk, readable)
    ensures PlacesOk(v)
  {
    hide LoadNext, LoadEvents, Bytes;
    var read := Newest(names);
    NewestReads(names, disk);
    forall e ensures e in v.proc.log.hist <==> exists k :: k in read && k in readable && e in disk[k] {
      EventsIn(read, disk, readable, e);
    }
    hide Newest;
  }

  lemma LoadKeeps(w: World, readable: set<nat>)
    requires BaseInv(w) && w.proc.Down?
    ensures BaseInv(Next(w, Load(readable)))
  {
    var names := SortedNames(w.disk.Keys);
    assert NamesOk(names, w.disk);
    hide PlacesOk, LoadNext, LoadEvents, SortedNames, OpenOk, NextOk, Newest, Reopens, LoadNewest, NamesOk, FilesOk;
    var v := Next(w, Load(readable));
    LoadNextOk(names, w.disk, readable);
    LoadOpen(names, w.disk, readable);
    LoadPlaces(names, w.disk, readable, v);
  }
}
