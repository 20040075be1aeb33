/** Paging while the nodes go on recording: every request of a client finds another state of the rings. */
module ActivityLive {
  import opened Common
  import opened ActivityTypes
  import opened ActivityOrder
  import opened ActivityPages

  /** The events a client sees that follows the cursors, when the logs are `states[i]` at request `i`; it may
      have to stop early because there is no further state. */
  function Seen(apis: map<string, Api>, f: Filter, states: seq<seq<seq<Event>>>, limit: nat): seq<Event>
    decreases |states|
  {
    if states == [] then [] else
      var r := Fetch(apis, f, states[0], limit);
      r.events + if r.next.None? then [] else Seen(apis, f.(before := r.next), states[1..], limit)
  }

  /** Some reply has no cursor. */
  predicate Ends(apis: map<string, Api>, f: Filter, states: seq<seq<seq<Event>>>, limit: nat)
    decreases |states|
  {
    && states != []
    && var r := Fetch(apis, f, states[0], limit);
       r.next.None? || Ends(apis, f.(before := r.next), states[1..], limit)
  }

  ghost predicate AllDistinct(states: seq<seq<seq<Event>>>) {
    forall i :: 0 <= i < |states| ==> DistinctKeys(Flatten(states[i]))
  }

  /** In the logs at every request. */
  predicate Retained(states: seq<seq<seq<Event>>>, e: Event) {
    forall i :: 0 <= i < |states| ==> e in Flatten(states[i])
  }

  predicate Recorded(states: seq<seq<seq<Event>>>, e: Event) {
    exists i :: 0 <= i < |states| && e in Flatten(states[i])
  }

  lemma RetainedLater(states: seq<seq<seq<Event>>>, e: Event)
    requires states != []
    ensures Retained(states, e) ==> e in Flatten(states[0]) && Retained(states[1..], e)
    ensures Recorded(states[1..], e) ==> Recorded(states, e)
  {
    if Recorded(states[1..], e) {
      var i :| 0 <= i < |states[1..]| && e in Flatten(states[1..][i]);
      assert states[i + 1] == states[1..][i];
    }
  }

  lemma DistinctLater(states: seq<seq<seq<Event>>>)
    requires states != [] && AllDistinct(states)
    ensures DistinctKeys(Flatten(states[0])) && AllDistinct(states[1..])
  {
    assert forall i :: 0 <= i < |states[1..]| ==> states[1..][i] == states[i + 1];
  }

  lemma PageSorted(apis: map<string, Api>, f: Filter, logs: seq<seq<Event>>, limit: nat)
    requires limit >= 1 && DistinctKeys(Flatten(logs))
    ensures NewestFirst(Fetch(apis, f, logs, limit).events)
  {
    hide Everything, Fetch, Flatten, DistinctKeys;
    EverythingSorted(apis, f, logs);
    FetchIsNewest(apis, f, logs, limit);
  }

  /** One request: the page holds matches only, and the matches it leaves out are those that the
      next request asks for. */
  lemma OneRequest(apis: map<string, Api>, f: Filter, logs: seq<seq<Event>>, limit: nat, e: Event)
    requires limit >= 1 && DistinctKeys(Flatten(logs))
    ensures var r := Fetch(apis, f, logs, limit);
            && (e in r.events ==> e in Flatten(logs) && Matches(apis, f, e))
            && (e in Flatten(logs) && Matches(apis, f, e) ==>
                  e in r.events || (r.next.Some? && Matches(apis, f.(before := r.next), e)))
  {
    hide Everything, Fetch, Matches, Flatten, DistinctKeys;
    var all := Everything(apis, f, logs);
    EverythingSorted(apis, f, logs);
    FetchIsNewest(apis, f, logs, limit);
    if |all| > limit {
      var last := all[limit - 1];
      assert last in all;
      MatchesAfter(apis, f, last, e);
      OlderMembers(all, limit - 1, e);
      assert all == all[..limit] + all[limit..];
    }
  }

  /** The next request asks for matches that are older than all events of the page. */
  lemma NextRequest(apis: map<string, Api>, f: Filter, logs: seq<seq<Event>>, limit: nat, e: Event)
    requires limit >= 1 && DistinctKeys(Flatten(logs))
    requires var r := Fetch(apis, f, logs, limit); r.next.Some? && Matches(apis, f.(before := r.next), e)
    ensures Matches(apis, f, e) && |Fetch(apis, f, logs, limit).events| == limit
    ensures forall a :: a in Fetch(apis, f, logs, limit).events ==> Newer(a, e)
  {
    hide Everything, Fetch, Matches, Flatten, DistinctKeys, Newer;
    var all := Everything(apis, f, logs);
    EverythingSorted(apis, f, logs);
    FetchIsNewest(apis, f, logs, limit);
    var last := all[limit - 1];
    assert last in all;
    MatchesAfter(apis, f, last, e);
    forall a | a in all[..limit] ensures Newer(a, e) {
      var i :| 0 <= i < limit && all[i] == a;
      if i < limit - 1 { NewerTransitive(a, last, e); }
    }
  }

  lemma JoinSorted(a: seq<Event>, b: seq<Event>)
    requires NewestFirst(a) && NewestFirst(b) && forall x, y :: x in a && y in b ==> Newer(x, y)
    ensures NewestFirst(a + b)
  {
  }

  /** Whatever happens to the logs between the requests, a client never sees an event twice or out of order,
      and sees only matches that were recorded; once it gets no further cursor it has seen every match that
      was there all the time. */
  lemma {:induction false} LivePaging(apis: map<string, Api>, f: Filter, states: seq<seq<seq<Event>>>, limit: nat)
    requires limit >= 1 && AllDistinct(states)
    ensures var seen := Seen(apis, f, states, limit);
            && NewestFirst(seen) && Descends(seen)
            && (forall e :: e in seen ==> Matches(apis, f, e) && Recorded(states, e))
            && (Ends(apis, f, states, limit) ==>
                  forall e :: Retained(states, e) && Matches(apis, f, e) ==> e in seen)
    decreases |states|
  {
    hide Fetch, Matches, Flatten, DistinctKeys, AllDistinct, Retained, NewestFirst, Newer, Descends;
    if states == [] {
      NothingSorted();
    } else {
      DistinctLater(states);
      var logs, later := states[0], states[1..];
      var r := Fetch(apis, f, logs, limit);
      PageSorted(apis, f, logs, limit);
      forall e
        ensures e in r.events ==> e in Flatten(logs) && Matches(apis, f, e)
        ensures e in Flatten(logs) && Matches(apis, f, e) ==>
                  e in r.events || (r.next.Some? && Matches(apis, f.(before := r.next), e))
        ensures Retained(states, e) ==> e in Flatten(logs) && Retained(later, e)
        ensures Recorded(later, e) ==> Recorded(states, e)
      {
        OneRequest(apis, f, logs, limit, e);
        RetainedLater(states, e);
      }
      if r.next.None? {
        assert r.events + [] == r.events;
      } else {
        var g := f.(before := r.next);
        LivePaging(apis, g, later, limit);
        var more := Seen(apis, g, later, limit);
        forall e | e in more ensures Matches(apis, f, e) && forall a :: a in r.events ==> Newer(a, e) {
          NextRequest(apis, f, logs, limit, e);
        }
        JoinSorted(r.events, more);
      }
    }
    NewestDescends(Seen(apis, f, states, limit));
  }

  lemma NothingSorted()
    ensures NewestFirst([])
  {
  }

  // ---------------------------------------------------------------- logs that only grow at the new end

  /** Events that are not in the logs at the first request are not older than its cursor. */
  predicate AddedNewer(apis: map<string, Api>, f: Filter, states: seq<seq<seq<Event>>>, limit: nat)
    requires states != []
  {
    var next := Fetch(apis, f, states[0], limit).next;
    forall i, e :: 0 <= i < |states| && e in Flatten(states[i]) && e !in Flatten(states[0]) ==>
      next.None? || !Older(e, next.value)
  }

  /** A client that goes on asking gets a reply without cursor, or a full page from every state. */
  lemma {:induction false} FullPages(apis: map<string, Api>, f: Filter, states: seq<seq<seq<Event>>>, limit: nat)
    requires limit >= 1 && AllDistinct(states)
    ensures Ends(apis, f, states, limit) || |Seen(apis, f, states, limit)| >= |states|
    decreases |states|
  {
    hide Fetch, DistinctKeys, AllDistinct, Flatten;
    if states == [] {
    } else {
      DistinctLater(states);
      FetchIsNewest(apis, f, states[0], limit);
      var r := Fetch(apis, f, states[0], limit);
      if r.next.Some? { FullPages(apis, f.(before := r.next), states[1..], limit); }
    }
  }

  /** Events that come in while the client pages do not disturb it, if they are not older than the first
      cursor: it sees no event but those there at the first request; it is done after at most as many requests
      as there were matches, and one more; and if no match was dropped it then has seen exactly the matches of
      the first request, newest first, as if nothing had come in. */
  lemma GrowingLogs(apis: map<string, Api>, f: Filter, states: seq<seq<seq<Event>>>, limit: nat)
    requires limit >= 1 && states != [] && AllDistinct(states) && AddedNewer(apis, f, states, limit)
    ensures var seen, all := Seen(apis, f, states, limit), Everything(apis, f, states[0]);
            && (forall e :: e in seen ==> e in all)
            && (|states| > |all| ==> Ends(apis, f, states, limit))
            && (Ends(apis, f, states, limit) && (forall e :: e in all ==> Retained(states, e)) ==> seen == all)
  {
    hide Everything, Fetch, Matches, Flatten, DistinctKeys, NewestFirst, Older;
    var seen, all := Seen(apis, f, states, limit), Everything(apis, f, states[0]);
    DistinctLater(states);
    EverythingSorted(apis, f, states[0]);
    LivePaging(apis, f, states, limit);
    FullPages(apis, f, states, limit);
    forall e | e in seen ensures e in all { SeenIsOld(apis, f, states, limit, e); }
    PartTooLong(seen, all);
    if Ends(apis, f, states, limit) && forall e :: e in all ==> Retained(states, e) {
      SameSorted(seen, all);
    }
  }

  lemma SeenIsOld(apis: map<string, Api>, f: Filter, states: seq<seq<seq<Event>>>, limit: nat, e: Event)
    requires limit >= 1 && states != [] && AllDistinct(states) && AddedNewer(apis, f, states, limit)
    requires e in Seen(apis, f, states, limit)
    ensures e in Flatten(states[0])
  {
    hide Fetch, InScope, Flatten, DistinctKeys, AllDistinct, Older, NewestFirst;
    DistinctLater(states);
    var r := Fetch(apis, f, states[0], limit);
    OneRequest(apis, f, states[0], limit, e);
    if e !in r.events {
      LivePaging(apis, f.(before := r.next), states[1..], limit);
      var i :| 0 <= i < |states[1..]| && e in Flatten(states[1..][i]);
      assert states[i + 1] == states[1..][i];
    }
  }
}
