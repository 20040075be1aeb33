/** Several nodes: their rings hold events with distinct keys, so cursors page through all of them. */
module ActivityCluster {
  import opened ActivityTypes
  import opened ActivitySteps
  import opened ActivityInvariant
  import opened ActivityRuns
  import opened ActivityOversize
  import opened ActivityOrder
  import opened ActivityPages
  import opened ActivityLive

  /** Every event of a node carries its name. */
  ghost predicate NamedHere(w: World) {
    forall e :: Anywhere(w, e) ==> e.node == w.node
  }

  lemma {:induction false} RunNames(w: World, steps: seq<Step>)
    requires NamedHere(w) && BaseInv(w) && Runs(w, steps)
    ensures NamedHere(After(w, steps)) && After(w, steps).node == w.node
    decreases |steps|
  {
    hide BaseInv, Next, Anywhere;
    if steps == [] {
    } else {
      BaseStep(w, steps[0]);
      forall e | Anywhere(Next(w, steps[0]), e) ensures e.node == w.node { NothingNew(w, steps[0], e); }
      RunNames(Next(w, steps[0]), steps[1..]);
    }
  }

  lemma HistNamed(w: World, e: Event)
    requires Reachable(w) && w.proc.Up? && e in w.proc.log.hist
    ensures e.node == w.node
  {
    var steps :| Runs(Fresh(w.node), steps) && After(Fresh(w.node), steps) == w;
    RunNames(Fresh(w.node), steps);
    assert Anywhere(w, e);
  }

  /** Also a process that runs in memory only numbers its events apart. */
  lemma HistDistinct(w: World)
    requires HarmlessReachable(w) && w.proc.Up?
    ensures DistinctKeys(w.proc.log.hist) && Reachable(w)
  {
    var steps, events :| HarmlessRun(w, steps, events);
    var gaps := HarmlessNumbered(w.node, steps, events);
    assert if w.proc.log.persist then HistOk(w.proc.log.hist, w.known) else CountsUp(w.proc.log);
    hide BaseInv, Numbered, Harmless;
  }

  /** The rings of `n` slots of all nodes. */
  ghost function Rings(ws: seq<World>, n: nat): (r: seq<seq<Event>>)
    requires forall w :: w in ws ==> w.proc.Up?
    ensures |r| == |ws|
  {
    if ws == [] then [] else Rings(ws[..|ws| - 1], n) + [LastN(ws[|ws| - 1].proc.log.hist, n)]
  }

  /** Running nodes with different names. */
  ghost predicate Cluster(ws: seq<World>) {
    && (forall w :: w in ws ==> HarmlessReachable(w) && w.proc.Up?)
    && (forall i, j :: 0 <= i < j < |ws| ==> ws[i].node != ws[j].node)
  }

  ghost predicate FromNodes(s: seq<Event>, ws: seq<World>) {
    forall e :: e in s ==> exists w :: w in ws && e.node == w.node
  }

  lemma RingNamed(w: World, n: nat)
    requires HarmlessReachable(w) && w.proc.Up?
    ensures DistinctKeys(LastN(w.proc.log.hist, n))
    ensures forall e :: e in LastN(w.proc.log.hist, n) ==> e.node == w.node
  {
    hide HarmlessReachable;
    HistDistinct(w);
    forall e | e in LastN(w.proc.log.hist, n) ensures e.node == w.node { HistNamed(w, e); }
  }

  lemma JoinDistinct(a: seq<Event>, b: seq<Event>, node: string)
    requires DistinctKeys(a) && DistinctKeys(b)
    requires (forall e :: e in a ==> e.node != node) && (forall e :: e in b ==> e.node == node)
    ensures DistinctKeys(a + b)
  {
    forall i, j | 0 <= i < |a| && 0 <= j < |b| ensures CursorOf(a[i]) != CursorOf(b[j]) {
      assert a[i] in a && b[j] in b;
    }
  }

  lemma OtherNode(ws: seq<World>, s: seq<Event>, e: Event)
    requires ws != [] && (forall i, j :: 0 <= i < j < |ws| ==> ws[i].node != ws[j].node)
    requires FromNodes(s, ws[..|ws| - 1]) && e in s
    ensures e.node != ws[|ws| - 1].node
  {
    var v :| v in ws[..|ws| - 1] && e.node == v.node;
    var i :| 0 <= i < |ws| - 1 && ws[i] == v;
  }

  lemma {:induction false} RingsDistinct(ws: seq<World>, n: nat)
    requires Cluster(ws)
    ensures DistinctKeys(Flatten(Rings(ws, n)))
    ensures FromNodes(Flatten(Rings(ws, n)), ws)
  {
    hide HarmlessReachable, DistinctKeys, LastN;
    if ws == [] {
      EmptyDistinct();
    } else {
      var front, w := ws[..|ws| - 1], ws[|ws| - 1];
      assert w in ws;
      RingsDistinct(front, n);
      RingNamed(w, n);
      var a, b := Flatten(Rings(front, n)), LastN(w.proc.log.hist, n);
      assert Rings(ws, n)[..|ws| - 1] == Rings(front, n);
      assert Flatten(Rings(ws, n)) == a + b;
      forall e | e in a ensures e.node != w.node { OtherNode(ws, a, e); }
      JoinDistinct(a, b, w.node);
    }
  }

  lemma EmptyDistinct()
    ensures DistinctKeys([])
  {
  }

  /** For any running nodes in any states that runs of harmless events reach, following the cursors returns
      every matching event of every ring exactly once, newest first. */
  lemma ClusterPagination(apis: map<string, Api>, f: Filter, ws: seq<World>, n: nat, limit: nat)
    requires limit >= 1 && Cluster(ws)
    ensures DistinctKeys(Flatten(Rings(ws, n)))
    ensures var seen := Follow(apis, f, Rings(ws, n), limit);
            && NewestFirst(seen) && Descends(seen)
            && (forall e :: e in seen <==> e in Flatten(Rings(ws, n)) && Matches(apis, f, e))
  {
    RingsDistinct(ws, n);
    FollowReturnsEverything(apis, f, Rings(ws, n), limit);
  }

  /** The rings of the nodes at each of several times. */
  ghost function RingsOver(times: seq<seq<World>>, n: nat): (r: seq<seq<seq<Event>>>)
    requires forall ws :: ws in times ==> Cluster(ws)
    ensures |r| == |times|
  {
    if times == [] then [] else
      assert Cluster(times[|times| - 1]);
      RingsOver(times[..|times| - 1], n) + [Rings(times[|times| - 1], n)]
  }

  lemma {:induction false} RingsOverDistinct(times: seq<seq<World>>, n: nat)
    requires forall ws :: ws in times ==> Cluster(ws)
    ensures AllDistinct(RingsOver(times, n))
  {
    hide Cluster, Flatten, DistinctKeys;
    if times == [] {
    } else {
      assert times[|times| - 1] in times;
      RingsOverDistinct(times[..|times| - 1], n);
      RingsDistinct(times[|times| - 1], n);
    }
  }

  /** Nodes may record, flush, crash and restart between the requests of a client, and nodes may come and go:
      the client sees no event twice and none out of order, and once it gets no further cursor it has seen
      every match that was in the rings all the time. */
  lemma ClusterLivePaging(apis: map<string, Api>, f: Filter, times: seq<seq<World>>, n: nat, limit: nat)
    requires limit >= 1 && forall ws :: ws in times ==> Cluster(ws)
    ensures var states := RingsOver(times, n);
            var seen := Seen(apis, f, states, limit);
            && NewestFirst(seen) && Descends(seen)
            && (forall e :: e in seen ==> Matches(apis, f, e) && Recorded(states, e))
            && (Ends(apis, f, states, limit) ==>
                  forall e :: Retained(states, e) && Matches(apis, f, e) ==> e in seen)
  {
    hide Cluster;
    RingsOverDistinct(times, n);
    LivePaging(apis, f, RingsOver(times, n), limit);
  }
}
