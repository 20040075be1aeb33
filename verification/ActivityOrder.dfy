/** The newest-first order of activity events by time, node and number, and sorting by it. */
module ActivityOrder {
  import opened ActivityTypes
  import opened SegmentNames

  datatype Cursor = Cursor(time: int, node: string, seqno: nat)

  function CursorOf(e: Event): Cursor {
    Cursor(e.time, e.node, e.seqno)
  }

  /** `e` sorts after the position `c`, that is, it is older. */
  predicate Older(e: Event, c: Cursor) {
    if e.time != c.time then e.time < c.time
    else if e.node != c.node then StringLess(e.node, c.node)
    else e.seqno < c.seqno
  }

  predicate Newer(a: Event, b: Event) {
    Older(b, CursorOf(a))
  }

  // ---------------------------------------------------------------- a strict total order

  lemma {:induction false} StringTotal(a: string, b: string)
    ensures !(StringLess(a, b) && StringLess(b, a))
    ensures a == b || StringLess(a, b) || StringLess(b, a)
    ensures !StringLess(a, a)
  {
    if a == "" {
    } else {
      if b != "" { StringTotal(a[1..], b[1..]); assert a == [a[0]] + a[1..] && b == [b[0]] + b[1..]; }
      StringTotal(a[1..], a[1..]);
    }
  }

  lemma {:induction false} StringTransitive(a: string, b: string, c: string)
    requires StringLess(a, b) && StringLess(b, c)
    ensures StringLess(a, c)
  {
    if a != "" && a[0] == b[0] == c[0] {
      StringTransitive(a[1..], b[1..], c[1..]);
    }
  }

  lemma NewerTotal(a: Event, b: Event)
    ensures !(Newer(a, b) && Newer(b, a)) && !Newer(a, a)
    ensures CursorOf(a) == CursorOf(b) || Newer(a, b) || Newer(b, a)
  {
    StringTotal(a.node, b.node);
  }

  lemma OlderTransitive(a: Event, b: Event, c: Cursor)
    requires Newer(b, a) && Older(b, c)
    ensures Older(a, c)
  {
    if a.time == b.time == c.time && a.node != b.node && b.node != c.node {
      StringTransitive(a.node, b.node, c.node);
      StringTotal(a.node, c.node);
    }
  }

  lemma NewerTransitive(a: Event, b: Event, c: Event)
    requires Newer(a, b) && Newer(b, c)
    ensures Newer(a, c)
  {
    OlderTransitive(c, b, CursorOf(a));
  }

  // ---------------------------------------------------------------- sorted sequences

  /** Times do not rise; at equal times nodes do not rise; and at equal times on one node numbers fall. */
  predicate Descends(s: seq<Event>) {
    forall i, j :: 0 <= i < j < |s| ==>
      && s[i].time >= s[j].time
      && (s[i].time == s[j].time ==> !StringLess(s[i].node, s[j].node))
      && (s[i].time == s[j].time && s[i].node == s[j].node ==> s[i].seqno > s[j].seqno)
  }

  lemma NewestDescends(s: seq<Event>)
    requires NewestFirst(s)
    ensures Descends(s)
  {
    forall i, j | 0 <= i < j < |s|
      ensures && s[i].time >= s[j].time
              && (s[i].time == s[j].time ==> !StringLess(s[i].node, s[j].node))
              && (s[i].time == s[j].time && s[i].node == s[j].node ==> s[i].seqno > s[j].seqno)
    {
      assert Newer(s[i], s[j]);
      StringTotal(s[i].node, s[j].node);
    }
  }

  /** `a` has no later time than `b`; at equal times no greater node; and on one node then no greater number. */
  predicate NotAfter(a: Event, b: Event) {
    && a.time <= b.time
    && (a.time == b.time ==> !StringLess(b.node, a.node))
    && (a.time == b.time && a.node == b.node ==> a.seqno <= b.seqno)
  }

  lemma NotNewerNotAfter(a: Event, b: Event)
    requires !Newer(a, b)
    ensures NotAfter(a, b)
  {
    StringTotal(a.node, b.node);
  }

  ghost predicate DistinctKeys(s: seq<Event>) {
    forall i, j :: 0 <= i < j < |s| ==> CursorOf(s[i]) != CursorOf(s[j])
  }

  predicate NewestFirst(s: seq<Event>) {
    forall i, j :: 0 <= i < j < |s| ==> Newer(s[i], s[j])
  }

  /** Sorted up to events with equal keys: what the sort of the source promises. */
  predicate SortedNewest(s: seq<Event>) {
    forall i, j :: 0 <= i < j < |s| ==> !Newer(s[j], s[i])
  }

  function Insert(e: Event, s: seq<Event>): (r: seq<Event>)
    ensures multiset(r) == multiset(s) + multiset{e}
    ensures |r| == |s| + 1
  {
    if s == [] then [e]
    else if Newer(s[0], e) then
      assert s == [s[0]] + s[1..];
      [s[0]] + Insert(e, s[1..])
    else [e] + s
  }

  function SortNewest(s: seq<Event>): (r: seq<Event>)
    ensures multiset(r) == multiset(s)
    ensures |r| == |s|
  {
    if s == [] then [] else
      assert s == s[..|s| - 1] + [s[|s| - 1]];
      Insert(s[|s| - 1], SortNewest(s[..|s| - 1]))
  }

  lemma MembersOf(s: seq<Event>, t: seq<Event>)
    requires multiset(s) == multiset(t)
    ensures forall e :: e in s <==> e in t
  {
    forall e ensures e in s <==> e in t {
      assert e in s <==> e in multiset(s);
      assert e in t <==> e in multiset(t);
    }
  }

  lemma {:induction false} InsertSorted(e: Event, s: seq<Event>)
    requires SortedNewest(s)
    ensures SortedNewest(Insert(e, s))
  {
    hide Newer;
    if s == [] {
    } else if Newer(s[0], e) {
      var rest := Insert(e, s[1..]);
      InsertSorted(e, s[1..]);
      assert multiset(rest) == multiset(s[1..] + [e]);
      MembersOf(rest, s[1..] + [e]);
      NewerTotal(s[0], e);
      forall j | 0 <= j < |rest| ensures !Newer(rest[j], s[0]) {
        assert rest[j] in s[1..] + [e];
      }
      ConsSorted(s[0], rest);
    } else {
      forall j | 0 <= j < |s| ensures !Newer(s[j], e) {
        if j > 0 && Newer(s[j], e) { SortedTransitive(s[j], e, s[0]); }
      }
      ConsSorted(e, s);
    }
  }

  lemma ConsSorted(a: Event, s: seq<Event>)
    requires SortedNewest(s) && forall j :: 0 <= j < |s| ==> !Newer(s[j], a)
    ensures SortedNewest([a] + s)
  {
    hide Newer;
  }

  lemma SortedTransitive(a: Event, e: Event, b: Event)
    requires Newer(a, e) && !Newer(b, e)
    ensures Newer(a, b)
  {
    NewerTotal(b, e);
    if CursorOf(b) != CursorOf(e) { NewerTransitive(a, e, b); }
  }

  lemma {:induction false} SortSorted(s: seq<Event>)
    ensures SortedNewest(SortNewest(s))
  {
    if s == [] {
    } else {
      SortSorted(s[..|s| - 1]);
      InsertSorted(s[|s| - 1], SortNewest(s[..|s| - 1]));
    }
  }

  // ---------------------------------------------------------------- with distinct keys the order is unique

  lemma {:induction false} CountTwice(s: seq<Event>, i: nat, j: nat)
    requires i < j < |s| && s[i] == s[j]
    ensures multiset(s)[s[i]] >= 2
  {
    assert s == s[..j] + [s[j]] + s[j + 1..];
    assert s[i] in s[..j];
    assert multiset(s) == multiset(s[..j]) + multiset{s[j]} + multiset(s[j + 1..]);
  }

  lemma {:induction false} CountOnce(s: seq<Event>, e: Event)
    requires DistinctKeys(s)
    ensures multiset(s)[e] <= 1
  {
    if s == [] {
    } else {
      var front := s[..|s| - 1];
      var last := s[|s| - 1];
      assert s == front + [last];
      assert multiset(s) == multiset(front) + multiset{last};
      CountOnce(front, e);
      if e == last { assert e !in front; }
    }
  }

  /** A permutation of events with distinct keys has distinct keys. */
  lemma DistinctPermuted(s: seq<Event>, t: seq<Event>)
    requires DistinctKeys(s) && multiset(s) == multiset(t)
    ensures DistinctKeys(t)
  {
    MembersOf(s, t);
    forall i, j | 0 <= i < j < |t| ensures CursorOf(t[i]) != CursorOf(t[j]) {
      assert t[i] in s && t[j] in s;
      if t[i] == t[j] {
        CountTwice(t, i, j);
        CountOnce(s, t[i]);
      }
    }
  }

  lemma StrictlySorted(s: seq<Event>)
    requires SortedNewest(s) && DistinctKeys(s)
    ensures NewestFirst(s)
  {
    forall i, j | 0 <= i < j < |s| ensures Newer(s[i], s[j]) { NewerTotal(s[i], s[j]); }
  }

  /** Sorting events with distinct keys: the same events, strictly newest first. */
  lemma SortDistinct(s: seq<Event>)
    requires DistinctKeys(s)
    ensures NewestFirst(SortNewest(s))
    ensures forall e :: e in SortNewest(s) <==> e in s
  {
    SortSorted(s);
    MembersOf(SortNewest(s), s);
    DistinctPermuted(s, SortNewest(s));
    StrictlySorted(SortNewest(s));
  }

  lemma TailMembers(a: seq<Event>, e: Event)
    requires NewestFirst(a) && a != []
    ensures e in a[1..] <==> e in a && e != a[0]
  {
    assert a == [a[0]] + a[1..];
    if e in a[1..] {
      var i :| 1 <= i < |a| && a[i] == e;
      NewerTotal(a[0], e);
    }
  }

  /** Newest-first sequences with the same members are equal. */
  lemma {:induction false} SameSorted(a: seq<Event>, b: seq<Event>)
    requires NewestFirst(a) && NewestFirst(b) && forall e :: e in a <==> e in b
    ensures a == b
  {
    assert b != [] ==> b[0] in b;
    if a == [] {
    } else {
      assert a[0] in b && b[0] in a;
      assert a[0] == b[0] || (Newer(a[0], b[0]) && Newer(b[0], a[0]));
      NewerTotal(a[0], b[0]);
      forall e ensures e in a[1..] <==> e in b[1..] { TailMembers(a, e); TailMembers(b, e); }
      SameSorted(a[1..], b[1..]);
    }
  }

  /** Whatever algorithm sorts events with distinct keys, the result is SortNewest. */
  lemma SortUnique(s: seq<Event>, t: seq<Event>)
    requires DistinctKeys(s) && multiset(s) == multiset(t) && SortedNewest(t)
    ensures t == SortNewest(s)
  {
    SortDistinct(s);
    MembersOf(s, t);
    DistinctPermuted(s, t);
    StrictlySorted(t);
    SameSorted(t, SortNewest(s));
  }
}
