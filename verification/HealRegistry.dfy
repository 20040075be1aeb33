/** The registry of heal sequences: launching, stopping, ending and periodic cleaning. */
module HealRegistry {
  import opened Common

  type Time = int

  const KEEP_ENDED: Time := 600

  /** A heal sequence as far as the registry reads it. */
  datatype Sequence = Sequence(background: bool, endTime: Option<Time>)

  /** The background sequence never counts as ended. */
  predicate HasEnded(s: Sequence) {
    !s.background && s.endTime.Some?
  }

  /** `registry` maps heal paths to sequences, which stop requests also hold on to: `stopping` has the
      path and the sequence of every stop request that waits for its sequence to end. */
  datatype State = State(registry: map<string, nat>, sequences: map<nat, Sequence>, stopping: set<(string, nat)>)

  ghost predicate WellFormed(s: State) {
    && (forall p :: p in s.registry ==> s.registry[p] in s.sequences)
    && (forall w :: w in s.stopping ==> w.1 in s.sequences)
  }

  predicate Running(s: State, path: string) {
    path in s.registry && s.registry[path] in s.sequences && !HasEnded(s.sequences[s.registry[path]])
  }

  predicate Overlap(a: string, b: string) {
    a <= b || b <= a
  }

  /** No two running sequences have paths of which one is a prefix of the other. */
  ghost predicate NoOverlap(s: State) {
    forall a, b :: Running(s, a) && Running(s, b) && a != b ==> !Overlap(a, b)
  }

  /** A running sequence is in the way of a launch at `path`. */
  ghost predicate Blocked(s: State, path: string) {
    exists k :: k in s.registry && Running(s, k) && Overlap(k, path)
  }

  predicate Expired(s: Sequence, now: Time) {
    HasEnded(s) && s.endTime.value + KEEP_ENDED < now
  }

  // ---------------------------------------------------------------- steps at lock boundaries

  datatype Step =
    | Launch(path: string, id: nat, background: bool)
    | StopBegin(path: string)
    | StopEnd(path: string, id: nat)
    | End(id: nat, now: Time)
    | Clean(now: Time)

  /** A launch brings a new sequence; a stop request goes on when its sequence has ended. */
  predicate Enabled(s: State, step: Step) {
    match step
    case Launch(path, id, background) => id !in s.sequences
    case StopBegin(path) => true
    case StopEnd(path, id) => (path, id) in s.stopping && id in s.sequences && HasEnded(s.sequences[id])
    case End(id, now) => id in s.sequences && s.sequences[id].endTime.None?
    case Clean(now) => true
  }

  function Cleaned(registry: map<string, nat>, sequences: map<nat, Sequence>, now: Time): map<string, nat> {
    map p | p in registry && !(registry[p] in sequences && Expired(sequences[registry[p]], now)) :: registry[p]
  }

  ghost function Next(s: State, step: Step): State {
    match step
    case Launch(path, id, background) =>
      if Blocked(s, path) then s
      else s.(registry := s.registry[path := id], sequences := s.sequences[id := Sequence(background, None)])
    case StopBegin(path) =>
      if path in s.registry then s.(stopping := s.stopping + {(path, s.registry[path])}) else s
    case StopEnd(path, id) =>
      s.(registry := s.registry - {path}, stopping := s.stopping - {(path, id)})
    case End(id, now) =>
      if id in s.sequences then s.(sequences := s.sequences[id := s.sequences[id].(endTime := Some(now))]) else s
    case Clean(now) =>
      s.(registry := Cleaned(s.registry, s.sequences, now))
  }

  ghost predicate Runs(s: State, steps: seq<Step>)
    decreases |steps|
  {
    steps == [] || (Enabled(s, steps[0]) && Runs(Next(s, steps[0]), steps[1..]))
  }

  ghost function After(s: State, steps: seq<Step>): State
    decreases |steps|
  {
    if steps == [] then s else After(Next(s, steps[0]), steps[1..])
  }

  lemma {:induction false} OneMore(s: State, steps: seq<Step>, step: Step)
    requires Runs(s, steps) && Enabled(After(s, steps), step)
    ensures Runs(s, steps + [step]) && After(s, steps + [step]) == Next(After(s, steps), step)
    decreases |steps|
  {
    hide Next, Enabled;
    if steps == [] {
      assert steps + [step] == [step] && [step][1..] == [];
    } else {
      assert (steps + [step])[1..] == steps[1..] + [step];
      OneMore(Next(s, steps[0]), steps[1..], step);
    }
  }

  const EMPTY := State(map[], map[], {})

  // ---------------------------------------------------------------- safety

  lemma LaunchKeeps(s: State, path: string, id: nat, background: bool)
    requires WellFormed(s) && NoOverlap(s) && id !in s.sequences
    ensures WellFormed(Next(s, Launch(path, id, background))) && NoOverlap(Next(s, Launch(path, id, background)))
  {
    var t := Next(s, Launch(path, id, background));
    if !Blocked(s, path) {
      forall a, b | Running(t, a) && Running(t, b) && a != b
        ensures !Overlap(a, b)
      {
        assert a != path ==> Running(s, a);
        assert b != path ==> Running(s, b);
      }
    }
  }

  lemma StepKeeps(s: State, step: Step)
    requires WellFormed(s) && NoOverlap(s) && Enabled(s, step)
    ensures WellFormed(Next(s, step)) && NoOverlap(Next(s, step))
  {
    match step
    case Launch(path, id, background) => LaunchKeeps(s, path, id, background);
    case _ =>
      forall a | Running(Next(s, step), a)
        ensures Running(s, a)
      {
      }
  }

  lemma {:induction false} RunKeeps(s: State, steps: seq<Step>)
    requires WellFormed(s) && NoOverlap(s) && Runs(s, steps)
    ensures WellFormed(After(s, steps)) && NoOverlap(After(s, steps))
    decreases |steps|
  {
    if steps == [] {
    } else {
      StepKeeps(s, steps[0]);
      RunKeeps(Next(s, steps[0]), steps[1..]);
    }
  }

  /** The sequence registered at the path has no end time, or is a background one. */
  predicate Live(s: State, path: string) {
    && path in s.registry && s.registry[path] in s.sequences
    && (s.sequences[s.registry[path]].background || s.sequences[s.registry[path]].endTime.None?)
  }

  /** Over every run of launches, stops, ends and cleanings, running sequences do not overlap. */
  lemma RunningNeverOverlap(steps: seq<Step>, a: string, b: string)
    requires Runs(EMPTY, steps) && a != b
    requires Live(After(EMPTY, steps), a) && Live(After(EMPTY, steps), b)
    ensures !(a <= b) && !(b <= a)
  {
    RunKeeps(EMPTY, steps);
    assert Running(After(EMPTY, steps), a) && Running(After(EMPTY, steps), b);
  }

  /** A launch is refused exactly when it would replace a running sequence or break the separation. */
  lemma LaunchIsExact(s: State, path: string, id: nat)
    requires WellFormed(s) && NoOverlap(s) && id !in s.sequences
    ensures var launched := s.(registry := s.registry[path := id],
                               sequences := s.sequences[id := Sequence(false, None)]);
            Blocked(s, path) <==> Running(s, path) || !NoOverlap(launched)
    ensures Blocked(s, path) <==> exists k :: k in s.registry && Live(s, k) && (k <= path || path <= k)
  {
    assert forall k :: Live(s, k) <==> Running(s, k);
    var launched := s.(registry := s.registry[path := id], sequences := s.sequences[id := Sequence(false, None)]);
    if Blocked(s, path) {
      var k :| k in s.registry && Running(s, k) && Overlap(k, path);
      if k != path {
        assert Running(launched, k) && Running(launched, path);
      }
    } else {
      LaunchKeeps(s, path, id, false);
      if Running(s, path) { assert Overlap(path, path); }
    }
  }

  /** A registered sequence leaves the registry only by a finished stop of its path, by a launch at its
      path after it ended, or by cleaning ten minutes after it ended. */
  lemma LeavesOnlyWhen(s: State, step: Step, path: string)
    requires WellFormed(s) && Enabled(s, step) && path in s.registry
    requires path !in Next(s, step).registry || Next(s, step).registry[path] != s.registry[path]
    ensures var q := s.sequences[s.registry[path]];
            || (step.StopEnd? && step.path == path)
            || (&& !q.background && q.endTime.Some?
                && ((step.Launch? && step.path == path) || (step.Clean? && q.endTime.value + 600 < step.now)))
  {
    if step.Launch? && step.path == path && Running(s, path) {
      assert Overlap(path, path);
    }
  }

  /** A cleaning keeps a sequence up to ten minutes after its end, and removes it later. */
  lemma CleanIsExact(s: State, now: Time, path: string)
    requires WellFormed(s) && path in s.registry
    ensures var q, t := s.sequences[s.registry[path]], Next(s, Clean(now)).registry;
            && (path in t <==> q.background || q.endTime.None? || now <= q.endTime.value + 600)
            && (path in t ==> t[path] == s.registry[path])
  {
  }

  /** The steps of a run that can end a registration at `path` of a sequence that ended at `end`. */
  predicate Touches(step: Step, path: string, end: Time) {
    || ((step.Launch? || step.StopEnd?) && step.path == path)
    || (step.Clean? && step.now > end + 600)
  }

  /** So a sequence that has ended stays registered for ten minutes, in every run without a launch or a finished
      stop at its path. */
  lemma {:induction false} StaysRegistered(s: State, steps: seq<Step>, path: string, end: Time)
    requires WellFormed(s) && NoOverlap(s) && Runs(s, steps)
    requires path in s.registry && s.sequences[s.registry[path]].endTime == Some(end)
    requires forall i :: 0 <= i < |steps| ==> !Touches(steps[i], path, end)
    ensures path in After(s, steps).registry && After(s, steps).registry[path] == s.registry[path]
    decreases |steps|
  {
    if steps == [] {
    } else {
      assert !Touches(steps[0], path, end);
      StepKeeps(s, steps[0]);
      StillThere(s, steps[0], path, end);
      hide Next, Enabled, NoOverlap, Touches;
      assert forall i :: 0 <= i < |steps[1..]| ==> steps[1..][i] == steps[i + 1];
      StaysRegistered(Next(s, steps[0]), steps[1..], path, end);
    }
  }

  lemma StillThere(s: State, step: Step, path: string, end: Time)
    requires WellFormed(s) && Enabled(s, step) && !Touches(step, path, end)
    requires path in s.registry && s.sequences[s.registry[path]].endTime == Some(end)
    ensures var t := Next(s, step);
            && path in t.registry && t.registry[path] == s.registry[path]
            && t.registry[path] in t.sequences && t.sequences[t.registry[path]].endTime == Some(end)
  {
    if step.Clean? { CleanIsExact(s, step.now, path); }
    hide Blocked;
  }

  // ---------------------------------------------------------------- the state in memory

  datatype LaunchResult = Launched | AlreadyRunning | Overlapping

  class AllHealState {
    var healSeqMap: map<string, nat>
    var sequences: map<nat, Sequence>
    ghost var stopping: set<(string, nat)>

    ghost function Abs(): State
      reads this
    {
      State(healSeqMap, sequences, stopping)
    }

    ghost predicate Valid()
      reads this
    {
      WellFormed(Abs()) && NoOverlap(Abs())
    }

    constructor ()
      ensures Valid() && Abs() == EMPTY
    {
      healSeqMap, sequences, stopping := map[], map[], {};
    }

    /** Whether any registered, running sequence overlaps `path`. */
    method FindOverlap(path: string) returns (found: bool)
      requires WellFormed(Abs())
      ensures found <==> Blocked(Abs(), path)
    {
      var keys := healSeqMap.Keys;
      while keys != {}
        invariant keys <= healSeqMap.Keys
        invariant forall k :: k in healSeqMap && k !in keys ==> !(Running(Abs(), k) && Overlap(k, path))
        decreases |keys|
      {
        var k :| k in keys;
        if !HasEnded(sequences[healSeqMap[k]]) && (k <= path || path <= k) {
          assert Running(Abs(), k) && Overlap(k, path);
          return true;
        }
        keys := keys - {k};
      }
      return false;
    }

    /** Launch without the force flag: `id` is the new sequence. */
    method LaunchNewHealSequence(path: string, id: nat, background: bool) returns (r: LaunchResult)
      requires Valid() && id !in sequences
      modifies this
      ensures Valid() && Abs() == Next(old(Abs()), Launch(path, id, background))
      ensures r == Launched <==> !Blocked(old(Abs()), path)
      ensures r == AlreadyRunning <==> Running(old(Abs()), path)
      ensures healSeqMap == if r == Launched then old(healSeqMap)[path := id] else old(healSeqMap)
      ensures sequences == if r == Launched then old(sequences)[id := Sequence(background, None)] else old(sequences)
    {
      LaunchKeeps(Abs(), path, id, background);
      if path in healSeqMap && !HasEnded(sequences[healSeqMap[path]]) {
        assert Running(Abs(), path) && Overlap(path, path);
        return AlreadyRunning;
      }
      var found := FindOverlap(path);
      if found {
        return Overlapping;
      }
      healSeqMap := healSeqMap[path := id];
      sequences := sequences[id := Sequence(background, None)];
      return Launched;
    }

    /** Launch with the force flag: the sequence at the path, if there is one, is stopped first; it ends at
        `endsAt` if it has not ended. A background sequence never ends: the call waits for ever, there is no
        result, and nothing but the stop request has happened. */
    method ForceLaunch(path: string, id: nat, background: bool, endsAt: Time)
      returns (r: Option<LaunchResult>, ghost steps: seq<Step>)
      requires Valid() && id !in sequences
      modifies this
      ensures Valid() && Runs(old(Abs()), steps) && Abs() == After(old(Abs()), steps)
      ensures r == None <==> path in old(healSeqMap) && old(sequences[healSeqMap[path]]).background
      ensures r == None ==> steps == [StopBegin(path)] && healSeqMap == old(healSeqMap) && sequences == old(sequences)
      ensures r != None ==> |steps| > 0 && steps[|steps| - 1] == Launch(path, id, background)
      ensures r == Some(Launched) <==> path in healSeqMap && healSeqMap[path] == id
      ensures r != None ==>
                (r == Some(Launched) <==>
                 !(exists k :: k in old(healSeqMap) && k != path && Running(old(Abs()), k) && Overlap(k, path)))
    {
      ghost var s0 := Abs();
      var stopped;
      stopped, steps := StopHealSequence(path, endsAt);
      if !stopped {
        return None, steps;
      }
      hide Runs, After, Overlap, Cleaned;
      OneMore(s0, steps, Launch(path, id, background));
      var launched := LaunchNewHealSequence(path, id, background);
      r := Some(launched);
      steps := steps + [Launch(path, id, background)];
    }

    /** Stop the sequence at the path, if there is one, and wait for its end, which comes at `endsAt` if it has
        not ended; `stopped` is false if the wait never ends. */
    method StopHealSequence(path: string, endsAt: Time) returns (stopped: bool, ghost steps: seq<Step>)
      requires Valid()
      modifies this
      ensures Valid() && Runs(old(Abs()), steps) && Abs() == After(old(Abs()), steps)
      ensures !stopped <==> path in old(healSeqMap) && old(sequences[healSeqMap[path]]).background
      ensures !stopped ==> steps == [StopBegin(path)] && healSeqMap == old(healSeqMap) && sequences == old(sequences)
      ensures stopped ==> healSeqMap == old(healSeqMap) - {path} && sequences.Keys == old(sequences.Keys)
      ensures forall k :: k != path && Overlap(k, path) ==> (Running(Abs(), k) <==> Running(old(Abs()), k))
    {
      ghost var s0 := Abs();
      OneMore(s0, [], StopBegin(path));
      hide Runs, After, Overlap, Cleaned;
      steps := [] + [StopBegin(path)];
      var found := StopRequested(path);
      if found.None? {
        return true, steps;
      }
      if sequences[found.value].background {
        return false, steps;
      }
      if sequences[found.value].endTime.None? {
        OneMore(s0, steps, End(found.value, endsAt));
        SequenceEnded(found.value, endsAt);
        steps := steps + [End(found.value, endsAt)];
      }
      OneMore(s0, steps, StopEnd(path, found.value));
      StopFinished(path, found.value);
      return true, steps + [StopEnd(path, found.value)];
    }

    /** The look-up at the start of a stop request. */
    method StopRequested(path: string) returns (id: Option<nat>)
      requires Valid()
      modifies this
      ensures Valid() && Abs() == Next(old(Abs()), StopBegin(path))
      ensures healSeqMap == old(healSeqMap) && sequences == old(sequences)
      ensures id == if path in healSeqMap then Some(healSeqMap[path]) else None
    {
      if path !in healSeqMap {
        return None;
      }
      stopping := stopping + {(path, healSeqMap[path])};
      return Some(healSeqMap[path]);
    }

    /** The end of a stop request, when the sequence it waited for has ended. */
    method StopFinished(path: string, id: nat)
      requires Valid() && Enabled(Abs(), StopEnd(path, id))
      modifies this
      ensures Valid() && Abs() == Next(old(Abs()), StopEnd(path, id))
      ensures healSeqMap == old(healSeqMap) - {path} && sequences == old(sequences)
    {
      StepKeeps(Abs(), StopEnd(path, id));
      healSeqMap := healSeqMap - {path};
      stopping := stopping - {(path, id)};
    }

    method SequenceEnded(id: nat, now: Time)
      requires Valid() && Enabled(Abs(), End(id, now))
      modifies this
      ensures Valid() && Abs() == Next(old(Abs()), End(id, now))
      ensures healSeqMap == old(healSeqMap)
      ensures sequences == old(sequences)[id := Sequence(old(sequences[id]).background, Some(now))]
    {
      StepKeeps(Abs(), End(id, now));
      sequences := sequences[id := sequences[id].(endTime := Some(now))];
    }

    /** One round of the periodic cleaning. */
    method CleanEnded(now: Time)
      requires Valid()
      modifies this
      ensures Valid() && Abs() == Next(old(Abs()), Clean(now))
      ensures forall path :: path in old(healSeqMap) ==>
                var q := old(sequences[healSeqMap[path]]);
                path in healSeqMap <==> q.background || q.endTime.None? || now <= q.endTime.value + 600
    {
      StepKeeps(Abs(), Clean(now));
      var all := healSeqMap;
      var keys := all.Keys;
      while keys != {}
        invariant keys <= all.Keys && healSeqMap.Keys <= all.Keys
        invariant sequences == old(sequences) && stopping == old(stopping)
        invariant forall k :: k in healSeqMap ==> healSeqMap[k] == all[k]
        invariant forall k :: k in all ==> (k in healSeqMap <==> k in keys || !Expired(sequences[all[k]], now))
        decreases |keys|
      {
        var k :| k in keys;
        if HasEnded(sequences[all[k]]) && sequences[all[k]].endTime.value + KEEP_ENDED < now {
          healSeqMap := healSeqMap - {k};
        }
        keys := keys - {k};
      }
      assert healSeqMap == Cleaned(all, sequences, now);
    }
  }
}
