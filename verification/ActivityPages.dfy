/** Distributed pagination: every node returns its newest `limit + 1` matches, the pages are merged,
    and the client follows the returned cursors. */
module ActivityPages {
  import opened Common
  import opened ActivityTypes
  import opened ActivityOrder
  import opened SegmentNames

  datatype Kind = ObjectKind | BucketKind | UserKind | PolicyKind | ServiceKind | ConfigKind

  datatype Api = Api(kind: Kind, group: string)

  datatype Filter = Filter(
    allBuckets: bool,
    buckets: seq<string>,
    kinds: seq<Kind>,
    accessKeys: seq<string>,
    group: string,
    before: Option<Cursor>,
    limit: int)

  /** `apis` is the table of recorded API names. */
  predicate Matches(apis: map<string, Api>, f: Filter, e: Event) {
    && InScope(apis, f, e)
    && (f.before.None? || Older(e, f.before.value))
  }

  /** Everything a filter asks for but the cursor. */
  predicate InScope(apis: map<string, Api>, f: Filter, e: Event) {
    && e.api in apis
    && var api := apis[e.api];
    && api.kind in f.kinds
    && ((api.kind == ObjectKind || api.kind == BucketKind) && !f.allBuckets ==> e.bucket in f.buckets)
    && (f.accessKeys != [] ==> e.accessKey in f.accessKeys)
    && (f.group != "" ==> api.group == f.group)
  }

  function Select(apis: map<string, Api>, f: Filter, s: seq<Event>): seq<Event> {
    if s == [] then [] else
      Select(apis, f, s[..|s| - 1]) + if Matches(apis, f, s[|s| - 1]) then [s[|s| - 1]] else []
  }

  function Take(s: seq<Event>, n: int): (r: seq<Event>)
  {
    if n <= 0 then [] else if |s| <= n then s else s[..n]
  }

  /** One node's page: its newest `f.limit` matches. */
  function Page(apis: map<string, Api>, f: Filter, events: seq<Event>): seq<Event> {
    Take(SortNewest(Select(apis, f, events)), f.limit)
  }

  function Pages(apis: map<string, Api>, f: Filter, logs: seq<seq<Event>>): (r: seq<seq<Event>>)
    ensures |r| == |logs|
  {
    if logs == [] then [] else
      Pages(apis, f, logs[..|logs| - 1]) + [Page(apis, f, logs[|logs| - 1])]
  }

  datatype Merged = Merged(events: seq<Event>, next: Option<Cursor>)

  /** The merge of pages: the newest `limit` of them, and a cursor when there are more. */
  function Merge(pages: seq<seq<Event>>, limit: int): Merged {
    var events := SortNewest(Flatten(pages));
    if limit < 1 then Merged([], None)
    else if |events| <= limit then Merged(events, None)
    else Merged(events[..limit], Some(CursorOf(events[limit - 1])))
  }

  /** The reply to one request: nodes are asked for one event more than the client wants. */
  function Fetch(apis: map<string, Api>, f: Filter, logs: seq<seq<Event>>, limit: int): Merged {
    Merge(Pages(apis, f.(limit := limit + 1), logs), limit)
  }

  // ---------------------------------------------------------------- the merge loop

  method MergeActivity(pages: seq<seq<Event>>, limit: int) returns (events: seq<Event>, next: Option<Cursor>)
    ensures Merged(events, next) == Merge(pages, limit)
    ensures limit < 1 ==> events == [] && next == None
  {
    events := [];
    for i := 0 to |pages|
      invariant events == Flatten(pages[..i])
    {
      assert pages[..i + 1][..i] == pages[..i];
      events := events + pages[i];
    }
    assert pages[..|pages|] == pages;
    if limit < 1 {
      return [], None;
    }
    events := SortNewest(events);
    if |events| <= limit {
      return events, None;
    }
    return events[..limit], Some(CursorOf(events[limit - 1]));
  }

  // ---------------------------------------------------------------- selection

  lemma {:induction false} SelectIn(apis: map<string, Api>, f: Filter, s: seq<Event>, e: Event)
    ensures e in Select(apis, f, s) <==> e in s && Matches(apis, f, e)
  {
    if s == [] {
    } else {
      SelectIn(apis, f, s[..|s| - 1], e);
      assert s == s[..|s| - 1] + [s[|s| - 1]];
    }
  }

  lemma {:induction false} SelectDistinct(apis: map<string, Api>, f: Filter, s: seq<Event>)
    requires DistinctKeys(s)
    ensures DistinctKeys(Select(apis, f, s))
  {
    if s == [] {
    } else {
      var front := s[..|s| - 1];
      var last := s[|s| - 1];
      var chosen := Select(apis, f, front);
      SelectDistinct(apis, f, front);
      forall i | 0 <= i < |chosen| ensures CursorOf(chosen[i]) != CursorOf(last) {
        SelectIn(apis, f, front, chosen[i]);
        var j :| 0 <= j < |front| && front[j] == chosen[i];
        assert s[j] == chosen[i];
      }
    }
  }

  /** The sorted matches: strictly newest first, and exactly the matching events. */
  lemma MatchesSorted(apis: map<string, Api>, f: Filter, s: seq<Event>)
    requires DistinctKeys(s)
    ensures var r := SortNewest(Select(apis, f, s));
            NewestFirst(r) && forall e :: e in r <==> e in s && Matches(apis, f, e)
  {
    SelectDistinct(apis, f, s);
    SortDistinct(Select(apis, f, s));
    forall e ensures e in Select(apis, f, s) <==> e in s && Matches(apis, f, e) { SelectIn(apis, f, s, e); }
  }

  // ---------------------------------------------------------------- newest of the newest

  /** A member is at most as far down in a part as in the whole. */
  lemma {:induction false} PartPosition(part: seq<Event>, whole: seq<Event>, p: nat, i: nat)
    requires NewestFirst(part) && NewestFirst(whole) && forall e :: e in part ==> e in whole
    requires p < |part| && i < |whole| && part[p] == whole[i]
    ensures p <= i
  {
    if p == 0 {
    } else {
      assert part[p - 1] in whole;
      var q :| 0 <= q < |whole| && whole[q] == part[p - 1];
      NewerTotal(part[p - 1], part[p]);
      if i <= q { NewerTotal(whole[i], whole[q]); }
      PartPosition(part, whole, p - 1, q);
    }
  }

  /** A part that holds the newest `k` of the whole starts with them. */
  lemma {:induction false} PartStarts(part: seq<Event>, whole: seq<Event>, k: nat)
    requires NewestFirst(part) && NewestFirst(whole) && forall e :: e in part ==> e in whole
    requires k <= |whole| && forall i :: 0 <= i < k ==> whole[i] in part
    ensures k <= |part| && part[..k] == whole[..k]
  {
    if k == 0 {
    } else {
      PartStarts(part, whole, k - 1);
      var x := whole[k - 1];
      var j :| 0 <= j < |part| && part[j] == x;
      assert j >= k - 1 by {
        if j < k - 1 { assert part[..k - 1][j] == whole[..k - 1][j]; NewerTotal(whole[j], x); }
      }
      PartPosition(part, whole, j, k - 1);
      assert part[..k] == part[..k - 1] + [x] && whole[..k] == whole[..k - 1] + [x];
    }
  }

  // ---------------------------------------------------------------- the pages of all nodes

  lemma {:induction false} PagesAt(apis: map<string, Api>, f: Filter, logs: seq<seq<Event>>, j: nat)
    requires j < |logs|
    ensures Pages(apis, f, logs)[j] == Page(apis, f, logs[j])
  {
    if j < |logs| - 1 {
      PagesAt(apis, f, logs[..|logs| - 1], j);
    }
  }

  lemma {:induction false} PartsDistinct(logs: seq<seq<Event>>)
    requires DistinctKeys(Flatten(logs))
    ensures forall j :: 0 <= j < |logs| ==> DistinctKeys(logs[j])
  {
    if logs == [] {
    } else {
      var front := logs[..|logs| - 1];
      var last := logs[|logs| - 1];
      var all := Flatten(logs);
      assert Flatten(front) == all[..|Flatten(front)|];
      assert last == all[|Flatten(front)|..];
      PartsDistinct(front);
      forall j | 0 <= j < |logs| ensures DistinctKeys(logs[j]) {
        if j < |front| { assert logs[j] == front[j]; }
      }
    }
  }

  lemma PageIn(apis: map<string, Api>, f: Filter, s: seq<Event>, e: Event)
    requires DistinctKeys(s) && e in Page(apis, f, s)
    ensures e in s && Matches(apis, f, e)
  {
    MatchesSorted(apis, f, s);
    assert e in SortNewest(Select(apis, f, s));
  }

  lemma PageDistinct(apis: map<string, Api>, f: Filter, s: seq<Event>)
    requires DistinctKeys(s)
    ensures DistinctKeys(Page(apis, f, s))
  {
    MatchesSorted(apis, f, s);
    var page := Page(apis, f, s);
    assert NewestFirst(page);
    forall i, j | 0 <= i < j < |page| ensures CursorOf(page[i]) != CursorOf(page[j]) { NewerTotal(page[i], page[j]); }
  }

  /** The pages together: distinct keys, and only matching events of the logs. */
  lemma {:induction false} PagesTogether(apis: map<string, Api>, f: Filter, logs: seq<seq<Event>>)
    requires DistinctKeys(Flatten(logs))
    ensures DistinctKeys(Flatten(Pages(apis, f, logs)))
    ensures forall e :: e in Flatten(Pages(apis, f, logs)) ==> e in Flatten(logs) && Matches(apis, f, e)
  {
    if logs == [] {
    } else {
      var front := logs[..|logs| - 1];
      var last := logs[|logs| - 1];
      var all := Flatten(logs);
      assert Flatten(front) == all[..|Flatten(front)|] && last == all[|Flatten(front)|..];
      PagesTogether(apis, f, front);
      PageDistinct(apis, f, last);
      var a := Flatten(Pages(apis, f, front));
      var b := Page(apis, f, last);
      var pages := Pages(apis, f, logs);
      assert pages[..|pages| - 1] == Pages(apis, f, front);
      assert Flatten(pages) == a + b;
      forall e | e in b ensures e in last && Matches(apis, f, e) { PageIn(apis, f, last, e); }
      forall i, j | 0 <= i < |a| && 0 <= j < |b| ensures CursorOf(a[i]) != CursorOf(b[j]) {
        assert a[i] in Flatten(front) && b[j] in last;
        CrossDistinct(Flatten(front), last, a[i], b[j]);
      }
    }
  }

  lemma CrossDistinct(s: seq<Event>, t: seq<Event>, a: Event, b: Event)
    requires DistinctKeys(s + t) && a in s && b in t
    ensures CursorOf(a) != CursorOf(b)
  {
    var i :| 0 <= i < |s| && s[i] == a;
    var j :| 0 <= j < |t| && t[j] == b;
    assert (s + t)[i] == a && (s + t)[|s| + j] == b;
  }

  /** All matching events of all nodes, newest first. */
  function Everything(apis: map<string, Api>, f: Filter, logs: seq<seq<Event>>): seq<Event> {
    SortNewest(Select(apis, f, Flatten(logs)))
  }

  lemma EverythingSorted(apis: map<string, Api>, f: Filter, logs: seq<seq<Event>>)
    requires DistinctKeys(Flatten(logs))
    ensures NewestFirst(Everything(apis, f, logs))
    ensures forall e :: e in Everything(apis, f, logs) <==> e in Flatten(logs) && Matches(apis, f, e)
  {
    MatchesSorted(apis, f, Flatten(logs));
  }

  /** Each of the newest `f.limit` events of all nodes is on the page of its node. */
  lemma TopIsOnPages(apis: map<string, Api>, f: Filter, logs: seq<seq<Event>>, i: nat)
    requires DistinctKeys(Flatten(logs))
    requires i < |Everything(apis, f, logs)| && i < f.limit
    ensures Everything(apis, f, logs)[i] in Flatten(Pages(apis, f, logs))
  {
    hide Select, SortNewest, Pages, Matches, Flatten, DistinctKeys, NewestFirst;
    var all := Everything(apis, f, logs);
    var x := all[i];
    MatchesSorted(apis, f, Flatten(logs));
    assert x in all;
    FlattenHas(logs, x);
    var log :| log in logs && x in log;
    var j :| 0 <= j < |logs| && logs[j] == log;
    PartsDistinct(logs);
    MatchesSorted(apis, f, log);
    var part := SortNewest(Select(apis, f, log));
    assert x in part;
    var p :| 0 <= p < |part| && part[p] == x;
    forall e | e in part ensures e in all { FlattenHas(logs, e); }
    PartPosition(part, all, p, i);
    PagesAt(apis, f, logs, j);
    assert Page(apis, f, log)[p] == x;
    assert Pages(apis, f, logs)[j] in Pages(apis, f, logs);
    FlattenHas(Pages(apis, f, logs), x);
  }

  /** The merged pages start with the newest of everything, and miss nothing when everything fits. */
  lemma PagesStart(apis: map<string, Api>, g: Filter, logs: seq<seq<Event>>)
    requires g.limit >= 1 && DistinctKeys(Flatten(logs))
    ensures var all := Everything(apis, g, logs);
            var part := SortNewest(Flatten(Pages(apis, g, logs)));
            if |all| < g.limit then part == all else g.limit <= |part| && part[..g.limit] == all[..g.limit]
  {
    hide Select, SortNewest, Pages, Matches, Flatten, DistinctKeys, NewestFirst;
    var all := Everything(apis, g, logs);
    var pages := Flatten(Pages(apis, g, logs));
    var part := SortNewest(pages);
    PagesTogether(apis, g, logs);
    SortDistinct(pages);
    EverythingSorted(apis, g, logs);
    var k := if |all| < g.limit then |all| else g.limit;
    forall i | 0 <= i < k ensures all[i] in part { TopIsOnPages(apis, g, logs, i); }
    PartStarts(part, all, k);
    PartTooLong(part, all);
    if |all| < g.limit {
      assert part == part[..k] && all == all[..k];
    }
  }

  /** The newest `limit` of the per-node pages are the newest `limit` of everything, and the cursor is
      there exactly when there are more. */
  lemma FetchIsNewest(apis: map<string, Api>, f: Filter, logs: seq<seq<Event>>, limit: nat)
    requires limit >= 1 && DistinctKeys(Flatten(logs))
    ensures var all := Everything(apis, f, logs);
            var r := Fetch(apis, f, logs, limit);
            && r.events == Take(all, limit)
            && (r.next.Some? <==> |all| > limit)
            && (r.next.Some? ==> r.next.value == CursorOf(all[limit - 1]))
  {
    hide Select, SortNewest, Pages, Flatten, DistinctKeys, CursorOf;
    var g := f.(limit := limit + 1);
    SelectIgnoresLimit(apis, f, g, Flatten(logs));
    PagesStart(apis, g, logs);
    var all := Everything(apis, f, logs);
    var part := SortNewest(Flatten(Pages(apis, g, logs)));
    if |all| > limit {
      assert part[limit - 1] == part[..limit + 1][limit - 1];
      assert part[..limit] == part[..limit + 1][..limit] && all[..limit] == all[..limit + 1][..limit];
    }
  }

  lemma PartTooLong(part: seq<Event>, whole: seq<Event>)
    requires NewestFirst(part) && NewestFirst(whole) && forall e :: e in part ==> e in whole
    ensures |part| <= |whole|
  {
    if part != [] {
      var p := |part| - 1;
      assert part[p] in whole;
      var i :| 0 <= i < |whole| && whole[i] == part[p];
      PartPosition(part, whole, p, i);
    }
  }

  lemma {:induction false} SelectIgnoresLimit(apis: map<string, Api>, f: Filter, g: Filter, s: seq<Event>)
    requires g == f.(limit := g.limit)
    ensures Select(apis, f, s) == Select(apis, g, s)
  {
    if s == [] {
    } else {
      SelectIgnoresLimit(apis, f, g, s[..|s| - 1]);
    }
  }

  // ---------------------------------------------------------------- following the cursors

  /** A cursor at a matching event asks for the older ones of the matches. */
  lemma MatchesAfter(apis: map<string, Api>, f: Filter, last: Event, e: Event)
    requires Matches(apis, f, last)
    ensures Matches(apis, f.(before := Some(CursorOf(last))), e) <==> Matches(apis, f, e) && Newer(last, e)
  {
    if Newer(last, e) && f.before.Some? { OlderTransitive(e, last, f.before.value); }
  }

  /** The members of a sorted sequence older than one of them are those after it. */
  lemma OlderMembers(all: seq<Event>, n: nat, e: Event)
    requires NewestFirst(all) && n < |all|
    ensures e in all[n + 1..] <==> e in all && Newer(all[n], e)
  {
    if e in all[n + 1..] {
      var i :| n + 1 <= i < |all| && all[i] == e;
    }
    if e in all && Newer(all[n], e) {
      var i :| 0 <= i < |all| && all[i] == e;
      NewerTotal(all[n], e);
      assert i > n;
      assert all[n + 1..][i - (n + 1)] == e;
    }
  }

  /** After a cursor at position `limit - 1`, the matches are those from `limit` on. */
  lemma CursorSkips(apis: map<string, Api>, f: Filter, logs: seq<seq<Event>>, limit: nat)
    requires DistinctKeys(Flatten(logs)) && 1 <= limit <= |Everything(apis, f, logs)|
    ensures var all := Everything(apis, f, logs);
            Everything(apis, f.(before := Some(CursorOf(all[limit - 1]))), logs) == all[limit..]
  {
    hide Select, SortNewest, Matches, Flatten, DistinctKeys, Newer, Older;
    var all := Everything(apis, f, logs);
    var last := all[limit - 1];
    var g := f.(before := Some(CursorOf(last)));
    MatchesSorted(apis, f, Flatten(logs));
    MatchesSorted(apis, g, Flatten(logs));
    var rest := Everything(apis, g, logs);
    assert last in all;
    forall e ensures e in rest <==> e in all[limit..] {
      MatchesAfter(apis, f, last, e);
      OlderMembers(all, limit - 1, e);
    }
    SameSorted(rest, all[limit..]);
  }

  /** All events a client sees that follows the cursors from filter `f` on; it ends. */
  ghost function Follow(apis: map<string, Api>, f: Filter, logs: seq<seq<Event>>, limit: nat): seq<Event>
    requires limit >= 1 && DistinctKeys(Flatten(logs))
    decreases |Everything(apis, f, logs)|
  {
    var r := Fetch(apis, f, logs, limit);
    FetchIsNewest(apis, f, logs, limit);
    if r.next.None? then r.events
    else
      CursorSkips(apis, f, logs, limit);
      r.events + Follow(apis, f.(before := r.next), logs, limit)
  }

  /** Following the cursors over any number of nodes returns every matching event exactly once, newest first. */
  lemma {:induction false} FollowReturnsEverything(apis: map<string, Api>, f: Filter, logs: seq<seq<Event>>, limit: nat)
    requires limit >= 1 && DistinctKeys(Flatten(logs))
    ensures var seen := Follow(apis, f, logs, limit);
            && seen == Everything(apis, f, logs)
            && NewestFirst(seen) && Descends(seen)
            && (forall e :: e in seen <==> e in Flatten(logs) && Matches(apis, f, e))
    decreases |Everything(apis, f, logs)|
  {
    hide Everything, Fetch, Matches, Flatten, DistinctKeys, NewestFirst, CursorOf, Descends;
    var all := Everything(apis, f, logs);
    EverythingSorted(apis, f, logs);
    NewestDescends(all);
    FetchIsNewest(apis, f, logs, limit);
    var r := Fetch(apis, f, logs, limit);
    if r.next.Some? {
      CursorSkips(apis, f, logs, limit);
      FollowReturnsEverything(apis, f.(before := r.next), logs, limit);
      assert all == all[..limit] + all[limit..];
    }
  }

  // ---------------------------------------------------------------- what a listing shows

  /** Whether the event belongs to a bucket. */
  predicate OfBucket(apis: map<string, Api>, e: Event)
    requires e.api in apis
  {
    apis[e.api].kind == BucketKind || apis[e.api].kind == ObjectKind
  }

  /** Condition by condition: a listing shows an event of the logs if and only if its API is known and of a kind
      asked for; it is of a bucket asked for, or not about a bucket, or all buckets are asked for; its access key
      and its group are those asked for, if any are; and it comes after the cursor, if there is one. */
  lemma ListingShows(apis: map<string, Api>, f: Filter, logs: seq<seq<Event>>, limit: nat, e: Event)
    requires limit >= 1 && DistinctKeys(Flatten(logs)) && e in Flatten(logs)
    ensures var seen := e in Follow(apis, f, logs, limit);
            && (seen ==> e.api in apis)
            && (e.api in apis && apis[e.api].kind !in f.kinds ==> !seen)
            && (e.api in apis && OfBucket(apis, e) && !f.allBuckets && e.bucket !in f.buckets ==> !seen)
            && (f.accessKeys != [] && e.accessKey !in f.accessKeys ==> !seen)
            && (e.api in apis && f.group != "" && apis[e.api].group != f.group ==> !seen)
            && (f.before.Some? && e.time > f.before.value.time ==> !seen)
            && (f.before.Some? && e.time == f.before.value.time && StringLess(f.before.value.node, e.node) ==> !seen)
            && (f.before.Some? && CursorOf(e) == f.before.value ==> !seen)
            && (!seen && e.api in apis && apis[e.api].kind in f.kinds ==>
                  || (OfBucket(apis, e) && !f.allBuckets && e.bucket !in f.buckets)
                  || (f.accessKeys != [] && e.accessKey !in f.accessKeys)
                  || (f.group != "" && apis[e.api].group != f.group)
                  || (f.before.Some? && e.time >= f.before.value.time))
  {
    hide Follow, Everything, Flatten, DistinctKeys, NewestFirst, Descends;
    FollowReturnsEverything(apis, f, logs, limit);
    if f.before.Some? { StringTotal(e.node, f.before.value.node); }
  }
}
