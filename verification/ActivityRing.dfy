/** The ring of newest events, kept in slots that are overwritten in turn. */
module ActivityRing {
  import opened ActivityTypes
  import opened ActivityOrder
  import opened ActivityPages

  /** x modulo n, for x below 2n. */
  function Wrap(x: nat, n: nat): nat
    requires x < 2 * n
  {
    if x >= n then x - n else x
  }

  lemma WrapIsMod(x: nat, n: nat)
    requires x < 2 * n
    ensures x % n == Wrap(x, n) < n
  {
    if x >= n {
      assert x / n == 1 by { assert n * 1 <= x < n * 2; }
    }
  }

  /** The slots hold `last`, its first event |last| slots before `slot`. */
  ghost predicate SlotsHold(slots: seq<Event>, slot: nat, last: seq<Event>) {
    var n := |slots|;
    && slot < n
    && |last| <= n
    && (|last| < n ==> slot == |last|)
    && forall i :: 0 <= i < |last| ==> last[i] == slots[Wrap(slot + n - |last| + i, n)]
  }

  /** The slots hold the newest events of `hist`. */
  ghost predicate RingHolds(slots: seq<Event>, slot: nat, size: nat, hist: seq<Event>) {
    size == |LastN(hist, |slots|)| && SlotsHold(slots, slot, LastN(hist, |slots|))
  }

  lemma PutPartly(slots: seq<Event>, slot: nat, last: seq<Event>, e: Event)
    requires SlotsHold(slots, slot, last) && |last| < |slots|
    ensures SlotsHold(slots[slot := e], Wrap(slot + 1, |slots|), last + [e])
  {
    var n := |slots|;
    forall i | 0 <= i < |last| ensures last[i] == slots[i] { assert Wrap(slot + n - |last| + i, n) == i; }
  }

  lemma PutFull(slots: seq<Event>, slot: nat, last: seq<Event>, e: Event)
    requires SlotsHold(slots, slot, last) && |last| == |slots|
    ensures SlotsHold(slots[slot := e], Wrap(slot + 1, |slots|), last[1..] + [e])
  {
    var n := |slots|;
    var slot' := Wrap(slot + 1, n);
    forall i | 0 <= i < n ensures (last[1..] + [e])[i] == slots[slot := e][Wrap(slot' + n - n + i, n)] {
      if i < n - 1 {
        assert Wrap(slot' + i, n) == Wrap(slot + n - n + (i + 1), n) != slot;
        assert last[i + 1] == slots[Wrap(slot + n - n + (i + 1), n)];
      } else {
        assert Wrap(slot' + i, n) == slot;
      }
    }
  }

  /** Storing an event in the slot keeps the newest events of the longer history. */
  lemma PutHolds(slots: seq<Event>, slot: nat, size: nat, hist: seq<Event>, e: Event)
    requires RingHolds(slots, slot, size, hist)
    ensures RingHolds(slots[slot := e], Wrap(slot + 1, |slots|), if size < |slots| then size + 1 else size, hist + [e])
  {
    var n := |slots|;
    var last := LastN(hist, n);
    if size < n {
      assert LastN(hist + [e], n) == last + [e];
      PutPartly(slots, slot, last, e);
    } else {
      assert LastN(hist + [e], n) == last[1..] + [e];
      PutFull(slots, slot, last, e);
    }
  }

  lemma RingSize(slots: seq<Event>, slot: nat, size: nat, hist: seq<Event>)
    requires RingHolds(slots, slot, size, hist)
    ensures slot < |slots| && size == |LastN(hist, |slots|)| <= |slots|
  {
  }

  lemma EmptyRing(slots: seq<Event>)
    requires |slots| > 0
    ensures RingHolds(slots, 0, 0, [])
  {
  }

  /** A ring depends on the newest events only. */
  lemma RingOfNewest(slots: seq<Event>, slot: nat, size: nat, hist: seq<Event>)
    requires RingHolds(slots, slot, size, LastN(hist, |slots|))
    ensures RingHolds(slots, slot, size, hist)
  {
  }

  /** The slot the ring copy reads for the i-th newest-window event. */
  lemma SnapshotAt(slots: seq<Event>, slot: nat, size: nat, hist: seq<Event>, i: nat)
    requires RingHolds(slots, slot, size, hist) && i < size
    ensures var n := |slots|;
            var start := (slot + n - size) % n;
            && 0 <= start && (start + i) % n < n
            && LastN(hist, n)[i] == slots[(start + i) % n]
  {
    var n := |slots|;
    WrapIsMod(slot + n - size, n);
    WrapIsMod(Wrap(slot + n - size, n) + i, n);
    assert Wrap(Wrap(slot + n - size, n) + i, n) == Wrap(slot + n - size + i, n);
  }

  /** The raw slots in use are a rotation of the newest events. */
  lemma SlotsRotate(slots: seq<Event>, slot: nat, size: nat, hist: seq<Event>)
    requires RingHolds(slots, slot, size, hist)
    ensures multiset(slots[..size]) == multiset(LastN(hist, |slots|))
  {
    var n := |slots|;
    var last := LastN(hist, n);
    if size < n {
      forall i | 0 <= i < size ensures slots[i] == last[i] { assert Wrap(slot + n - size + i, n) == i; }
      assert slots[..size] == last;
    } else {
      FullRotates(slots, slot, last);
      assert slots[..size] == slots;
    }
  }

  lemma FullRotates(slots: seq<Event>, slot: nat, last: seq<Event>)
    requires SlotsHold(slots, slot, last) && |last| == |slots|
    ensures multiset(slots) == multiset(last)
  {
    var n := |slots|;
    SlotsSplit(slots, slot, last);
    hide SlotsHold;
    assert slots == slots[..slot] + slots[slot..];
    assert last == last[..n - slot] + last[n - slot..];
  }

  lemma SlotsSplit(slots: seq<Event>, slot: nat, last: seq<Event>)
    requires SlotsHold(slots, slot, last) && |last| == |slots|
    ensures slots[slot..] == last[..|slots| - slot]
    ensures slots[..slot] == last[|slots| - slot..]
  {
    var n := |slots|;
    forall i | 0 <= i < n - slot ensures slots[slot..][i] == last[..n - slot][i] {
      assert Wrap(slot + n - n + i, n) == slot + i;
    }
    forall i | 0 <= i < slot ensures slots[..slot][i] == last[n - slot..][i] {
      assert Wrap(slot + n - n + (n - slot + i), n) == i;
    }
  }

  lemma SelectNothing(apis: map<string, Api>, f: Filter)
    ensures Select(apis, f, []) == []
  {
  }

  lemma SelectLast(apis: map<string, Api>, f: Filter, s: seq<Event>)
    requires s != []
    ensures var front, last := Select(apis, f, s[..|s| - 1]), s[|s| - 1];
            Select(apis, f, s) == if Matches(apis, f, last) then front + [last] else front
  {
    hide Matches;
    assert Select(apis, f, s[..|s| - 1]) + [] == Select(apis, f, s[..|s| - 1]);
  }

  lemma {:induction false} SelectCount(apis: map<string, Api>, f: Filter, s: seq<Event>, e: Event)
    ensures multiset(Select(apis, f, s))[e] == if Matches(apis, f, e) then multiset(s)[e] else 0
  {
    hide Matches, Select;
    if s == [] {
      SelectNothing(apis, f);
    } else {
      var front, last := s[..|s| - 1], s[|s| - 1];
      assert s == front + [last];
      SelectCount(apis, f, front, e);
      SelectLast(apis, f, s);
      CountLast(front, last, e);
      CountLast(Select(apis, f, front), last, e);
    }
  }

  lemma CountLast(s: seq<Event>, last: Event, e: Event)
    ensures multiset(s + [last])[e] == multiset(s)[e] + if last == e then 1 else 0
  {
  }

  lemma SelectMultiset(apis: map<string, Api>, f: Filter, s: seq<Event>)
    ensures forall e :: multiset(Select(apis, f, s))[e] == if Matches(apis, f, e) then multiset(s)[e] else 0
  {
    hide Select, Matches;
    forall e ensures multiset(Select(apis, f, s))[e] == if Matches(apis, f, e) then multiset(s)[e] else 0 {
      SelectCount(apis, f, s, e);
    }
  }

  /** A page does not depend on the order of the slots. */
  lemma PageIgnoresOrder(apis: map<string, Api>, f: Filter, s: seq<Event>, t: seq<Event>)
    requires multiset(s) == multiset(t) && DistinctKeys(t)
    ensures Page(apis, f, s) == Page(apis, f, t)
  {
    hide Select, SortNewest, Matches, DistinctKeys, SortedNewest;
    SelectMultiset(apis, f, s);
    SelectMultiset(apis, f, t);
    assert multiset(Select(apis, f, s)) == multiset(Select(apis, f, t));
    SelectDistinct(apis, f, t);
    SortSorted(Select(apis, f, s));
    SortUnique(Select(apis, f, t), SortNewest(Select(apis, f, s)));
  }

  /** The page answers a query over `t`: as many matches as asked for or there are, in order, and no match it
      leaves out is newer than one it holds; with distinct keys it is determined. */
  ghost predicate Answers(apis: map<string, Api>, f: Filter, t: seq<Event>, page: seq<Event>) {
    var matches := Select(apis, f, t);
    && |page| == (if f.limit <= 0 then 0 else if f.limit < |matches| then f.limit else |matches|)
    && multiset(page) <= multiset(matches)
    && SortedNewest(page) && (forall i, j :: 0 <= i < j < |page| ==> NotAfter(page[j], page[i]))
    && (forall e, p :: e in multiset(matches) - multiset(page) && p in page ==> !Newer(e, p) && NotAfter(e, p))
    && (DistinctKeys(t) ==> page == Page(apis, f, t) && Descends(page))
  }

  /** A page over a permutation of the events answers the query. */
  lemma PageOfSlots(apis: map<string, Api>, f: Filter, s: seq<Event>, t: seq<Event>)
    requires multiset(s) == multiset(t)
    ensures Answers(apis, f, t, Page(apis, f, s))
  {
    hide Select, SortNewest, Matches, Newer, NotAfter, Descends, DistinctKeys;
    var a, b := Select(apis, f, s), Select(apis, f, t);
    SelectMultiset(apis, f, s);
    SelectMultiset(apis, f, t);
    assert multiset(a) == multiset(b);
    assert |multiset(a)| == |a| && |multiset(b)| == |b|;
    SortSorted(a);
    TakePart(SortNewest(a), f.limit);
    forall x, y | !Newer(x, y) ensures NotAfter(x, y) { NotNewerNotAfter(x, y); }
    if DistinctKeys(t) {
      PageIgnoresOrder(apis, f, s, t);
      PageDescends(apis, f, t);
    }
  }

  lemma NoPage(apis: map<string, Api>, f: Filter, t: seq<Event>)
    requires f.limit <= 0
    ensures Answers(apis, f, t, [])
  {
    PageOfSlots(apis, f, t, t);
  }

  lemma PageDescends(apis: map<string, Api>, f: Filter, s: seq<Event>)
    requires DistinctKeys(s)
    ensures Descends(Page(apis, f, s))
  {
    hide Select, SortNewest;
    MatchesSorted(apis, f, s);
    NewestDescends(Page(apis, f, s));
  }

  lemma TakePart(s: seq<Event>, n: int)
    requires SortedNewest(s)
    ensures SortedNewest(Take(s, n)) && multiset(Take(s, n)) <= multiset(s)
    ensures forall e, p :: e in multiset(s) - multiset(Take(s, n)) && p in Take(s, n) ==> !Newer(e, p)
  {
    hide Newer;
    if 0 < n < |s| {
      TakeSplits(s, n);
      forall e, p | e in multiset(s) - multiset(s[..n]) && p in s[..n] ensures !Newer(e, p) {
        LaterNotNewer(s, n, e, p);
      }
    } else {
      assert multiset(s) - multiset(s) == multiset{};
    }
  }

  lemma TakeSplits(s: seq<Event>, n: nat)
    requires n <= |s|
    ensures multiset(s[..n]) <= multiset(s) && multiset(s) - multiset(s[..n]) == multiset(s[n..])
  {
    assert s == s[..n] + s[n..];
  }

  lemma LaterNotNewer(s: seq<Event>, n: nat, e: Event, p: Event)
    requires SortedNewest(s) && n <= |s| && e in multiset(s[n..]) && p in s[..n]
    ensures !Newer(e, p)
  {
    hide Newer;
    assert e in s[n..];
    var i :| n <= i < |s| && s[i] == e;
    var j :| 0 <= j < n && s[j] == p;
  }
}
