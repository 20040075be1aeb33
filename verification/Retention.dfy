/** Object lock: the three retention decisions, and the runs they guard for one object version.  A request
    reads the version, decides, and writes in three separate steps, and other requests come in between. */
module Retention {
  import opened Common

  /** Nanoseconds; the zero time stands for a missing or unreadable date. */
  type Time = int

  const ZERO_TIME: Time := 0
  const SECOND: int := 1_000_000_000

  datatype Mode = NoMode | Governance | Compliance
  datatype Code = ErrNone | ErrObjectLocked | ErrAccessDenied | ErrMalformedXML | ErrPastDate

  /** A reading of the clock, which is an NTP server in some set-ups. */
  datatype Clock = Reading(time: Time) | ClockFailed

  datatype Period = Period(mode: Mode, until: Time)

  /** The lock entries in the metadata of a version; each may be missing. */
  datatype Lock = Lock(period: Option<Period>, hold: Option<bool>)

  function ModeOf(lock: Lock): Mode {
    if lock.period.Some? then lock.period.value.mode else NoMode
  }

  function UntilOf(lock: Lock): Time {
    if lock.period.Some? then lock.period.value.until else ZERO_TIME
  }

  predicate Held(lock: Lock) {
    lock.hold == Some(true)
  }

  /** The answers of the permission checks: with and without the bypass flag passed on. */
  datatype Permission = Permission(bypassing: Code, plain: Code)

  // ---------------------------------------------------------------- the decisions

  /** Whether lifecycle and quota must leave the version alone. */
  predicate LockedForExpiry(lock: Lock, clock: Clock) {
    if Held(lock) then true
    else if ModeOf(lock) != NoMode then clock.ClockFailed? || UntilOf(lock) > clock.time
    else false
  }

  /** The decision on a delete request; `bypassAllowed` and `readAllowed` are the two permissions. */
  function DeleteDecision(lock: Lock, clock: Clock, bypass: bool, bypassAllowed: bool, readAllowed: bool): Code {
    if Held(lock) then ErrObjectLocked
    else match ModeOf(lock)
      case NoMode => ErrNone
      case Compliance =>
        if clock.ClockFailed? || !(UntilOf(lock) < clock.time) then ErrObjectLocked else ErrNone
      case Governance =>
        if !bypass then
          if clock.ClockFailed? || !(UntilOf(lock) < clock.time) then ErrObjectLocked else ErrNone
        else if !bypassAllowed || !readAllowed then ErrAccessDenied else ErrNone
  }

  /** The decision on a change of the retention. */
  function PutDecision(lock: Lock, clock: Clock, request: Period, bypass: bool, permission: Permission): Code {
    var allowed := if bypass then permission.bypassing else permission.plain;
    if clock.ClockFailed? then ErrObjectLocked
    else if ModeOf(lock) == NoMode then allowed
    else if UntilOf(lock) < clock.time then allowed
    else match ModeOf(lock)
      case Governance =>
        if !bypass && (request.mode != Governance || request.until < UntilOf(lock)) then ErrObjectLocked else allowed
      case Compliance =>
        if request.mode != Compliance || request.until < UntilOf(lock) then ErrObjectLocked else permission.plain
  }

  /** The checks on the body of a request to change the retention, which may leave both fields out. */
  function ParseDecision(request: Period, clock: Clock): Code {
    if request.mode != NoMode && request.until == ZERO_TIME then ErrMalformedXML
    else if request.mode == NoMode && request.until != ZERO_TIME then ErrMalformedXML
    else if clock.ClockFailed? then ErrPastDate
    else if request.until != ZERO_TIME && request.until < clock.time then ErrPastDate
    else ErrNone
  }

  /** A changed date is stored without a fraction of a second. */
  function WholeSeconds(t: Time): Time {
    t / SECOND * SECOND
  }

  /** The stored form of a requested retention; a request without a mode clears it. */
  function Stored(request: Period): Period {
    if request.mode != NoMode then Period(request.mode, WholeSeconds(request.until)) else Period(NoMode, ZERO_TIME)
  }

  // ---------------------------------------------------------------- requests in three steps

  /** A request for this version in a bucket with object lock. A delete or expiry is `sighted` if it learns
      that the bucket has object lock and what the lock of the version is. An error of the first look-up is
      dropped, and then no lock is considered; nor is one if the second look-up answers that there is no such
      version. The other requests end when a look-up fails. */
  datatype Request =
    | PutRetention(period: Period, bypass: bool, permission: Permission)
    | PutHold(on: bool)
    | Delete(sighted: bool, bypass: bool, bypassAllowed: bool, readAllowed: bool)
    | Expire(sighted: bool)

  predicate Bypasses(request: Request) {
    (request.PutRetention? || request.Delete?) && request.bypass
  }

  predicate Sighted(request: Request) {
    request.Delete? || request.Expire? ==> request.sighted
  }

  /** What an approved request does in the end: write entries over those stored, or remove the version. */
  datatype Effect = Write(lock: Lock) | RemoveVersion

  function Decision(request: Request, lock: Lock, clock: Clock): Code {
    match request
    case PutRetention(period, bypass, permission) => PutDecision(lock, clock, period, bypass, permission)
    case PutHold(on) => ErrNone
    case Delete(sighted, bypass, bypassAllowed, readAllowed) =>
      if !sighted then ErrNone else DeleteDecision(lock, clock, bypass, bypassAllowed, readAllowed)
    case Expire(sighted) => if sighted && LockedForExpiry(lock, clock) then ErrObjectLocked else ErrNone
  }

  /** The metadata that was read is written back whole, with one entry changed. */
  function EffectOf(request: Request, lock: Lock): Effect {
    match request
    case PutRetention(period, bypass, permission) => Write(lock.(period := Some(Stored(period))))
    case PutHold(on) => Write(lock.(hold := Some(on)))
    case Delete(sighted, bypass, bypassAllowed, readAllowed) => RemoveVersion
    case Expire(sighted) => RemoveVersion
  }

  /** Entries that were read take the place of those stored now. */
  function Overlay(stored: Lock, lock: Lock): Lock {
    Lock(if lock.period.Some? then lock.period else stored.period, if lock.hold.Some? then lock.hold else stored.hold)
  }

  datatype Version = Gone | Present(lock: Lock)

  /** A request that has read the version, or one that has been approved. */
  datatype Pending = HasRead(request: Request, lock: Lock) | Approved(effect: Effect)

  datatype World = World(version: Version, clock: Time, flight: map<nat, Pending>)

  datatype Step =
    | Begin(id: nat, request: Request, parsed: Clock)
    | Decide(id: nat, now: Clock)
    | Commit(id: nat, written: bool)

  function Latest(clock: Time, reading: Clock): Time {
    if reading.Reading? && reading.time > clock then reading.time else clock
  }

  /** Clock readings do not go back. */
  predicate NotBefore(w: World, reading: Clock) {
    reading.Reading? ==> reading.time >= w.clock
  }

  predicate Enabled(w: World, step: Step) {
    match step
    case Begin(id, request, parsed) => id !in w.flight && NotBefore(w, parsed)
    case Decide(id, now) => id in w.flight && w.flight[id].HasRead? && NotBefore(w, now)
    case Commit(id, written) => id in w.flight && w.flight[id].Approved?
  }

  function BeginNext(w: World, id: nat, request: Request, parsed: Clock): World {
    var accepted := request.PutRetention? ==> ParseDecision(request.period, parsed) == ErrNone;
    var flight := if w.version.Present? && accepted then w.flight[id := HasRead(request, w.version.lock)] else w.flight;
    World(w.version, Latest(w.clock, parsed), flight)
  }

  function DecideNext(w: World, id: nat, now: Clock): World
    requires id in w.flight && w.flight[id].HasRead?
  {
    var HasRead(request, lock) := w.flight[id];
    var flight := if Decision(request, lock, now) == ErrNone then w.flight[id := Approved(EffectOf(request, lock))]
                  else w.flight - {id};
    World(w.version, Latest(w.clock, now), flight)
  }

  function Carry(version: Version, effect: Effect): Version {
    if version.Gone? then version
    else match effect
      case RemoveVersion => Gone
      case Write(lock) => Present(Overlay(version.lock, lock))
  }

  function CommitNext(w: World, id: nat, written: bool): World
    requires id in w.flight && w.flight[id].Approved?
  {
    World(if written then Carry(w.version, w.flight[id].effect) else w.version, w.clock, w.flight - {id})
  }

  function Next(w: World, step: Step): World
    requires Enabled(w, step)
  {
    match step
    case Begin(id, request, parsed) => BeginNext(w, id, request, parsed)
    case Decide(id, now) => DecideNext(w, id, now)
    case Commit(id, written) => CommitNext(w, id, written)
  }

  predicate Runs(w: World, steps: seq<Step>)
    decreases |steps|
  {
    steps == [] || (Enabled(w, steps[0]) && Runs(Next(w, steps[0]), steps[1..]))
  }

  function After(w: World, steps: seq<Step>): World
    requires Runs(w, steps)
    decreases |steps|
  {
    if steps == [] then w else After(Next(w, steps[0]), steps[1..])
  }

  // ---------------------------------------------------------------- what is promised

  /** Governance is a promise to requests that do not ask for a bypass; compliance is one to all. With
      `sighted`, only runs are meant in which the look-ups of every delete and expiry work. */
  predicate CoveredRequest(mode: Mode, sighted: bool, request: Request) {
    (mode == Compliance || !Bypasses(request)) && (sighted ==> Sighted(request))
  }

  predicate Covered(mode: Mode, sighted: bool, steps: seq<Step>) {
    forall i :: 0 <= i < |steps| && steps[i].Begin? ==> CoveredRequest(mode, sighted, steps[i].request)
  }

  predicate Kept(version: Version, mode: Mode, until: Time) {
    version.Present? && ModeOf(version.lock) == mode && UntilOf(version.lock) >= until
  }

  /** In every interleaving, at every clock reading before `until`, the version is there under `mode` with
      a date of at least `until`. */
  ghost predicate AlwaysKept(w: World, mode: Mode, until: Time, sighted: bool) {
    forall steps :: Runs(w, steps) && Covered(mode, sighted, steps) && After(w, steps).clock < until ==>
      Kept(After(w, steps).version, mode, until)
  }

  /** The entries keep `mode` and `until` also when their date is requested again. */
  predicate Strong(lock: Lock, mode: Mode, until: Time) {
    ModeOf(lock) == mode && WholeSeconds(UntilOf(lock)) >= until
  }

  predicate Weakens(effect: Effect, mode: Mode, until: Time) {
    match effect
    case RemoveVersion => true
    case Write(lock) => lock.period.Some? && !Strong(lock, mode, until)
  }

  /** The request was approved with a weakening effect, or would be approved with one now or just before
      `until`. */
  predicate Danger(pending: Pending, clock: Time, mode: Mode, until: Time) {
    match pending
    case Approved(effect) => Weakens(effect, mode, until)
    case HasRead(request, lock) =>
      && Weakens(EffectOf(request, lock), mode, until)
      && (Decision(request, lock, Reading(clock)) == ErrNone || Decision(request, lock, Reading(until - 1)) == ErrNone)
  }

  predicate NoDanger(w: World, mode: Mode, until: Time) {
    forall id :: id in w.flight ==> !Danger(w.flight[id], w.clock, mode, until)
  }

  // ---------------------------------------------------------------- what the decisions keep

  lemma WholeSecondsMonotone(a: Time, b: Time)
    requires a <= b
    ensures WholeSeconds(a) <= a && WholeSeconds(a) <= WholeSeconds(b)
    ensures WholeSeconds(WholeSeconds(a)) == WholeSeconds(a)
  {
  }

  /** Before its date, a version under retention refuses every delete by users, lifecycle and quota. */
  lemma DeletesRefused(lock: Lock, clock: Clock, bypass: bool, bypassAllowed: bool, readAllowed: bool)
    requires ModeOf(lock) != NoMode && (clock.Reading? ==> clock.time < UntilOf(lock))
    ensures LockedForExpiry(lock, clock)
    ensures ModeOf(lock) == Compliance || !bypass ==>
              DeleteDecision(lock, clock, bypass, bypassAllowed, readAllowed) == ErrObjectLocked
  {
  }

  /** Before its date, a version under retention gives way only to a request with permission that keeps the
      mode and does not shorten the period, or, under governance, to a bypass with the permissions for it. */
  lemma WeakeningNeedsBypass(lock: Lock, time: Time, request: Period, bypass: bool, permission: Permission,
                             bypassAllowed: bool, readAllowed: bool)
    requires ModeOf(lock) != NoMode && time <= UntilOf(lock)
    ensures PutDecision(lock, Reading(time), request, bypass, permission) == ErrNone <==>
              || (&& request.mode == ModeOf(lock) && request.until >= UntilOf(lock)
                  && (if ModeOf(lock) == Governance && bypass then permission.bypassing
                      else permission.plain) == ErrNone)
              || (ModeOf(lock) == Governance && bypass && permission.bypassing == ErrNone)
    ensures DeleteDecision(lock, Reading(time), bypass, bypassAllowed, readAllowed) == ErrNone <==>
              !Held(lock) && ModeOf(lock) == Governance && bypass && bypassAllowed && readAllowed
  {
  }

  /** The clock can be read, and the period is over. */
  predicate Over(period: Period, clock: Clock) {
    clock.Reading? && period.until < clock.time
  }

  /** A delete, for every lock and every clock: a legal hold refuses it; without a period it is approved; under
      governance and with the bypass header the two permissions decide, even after the period; and otherwise the
      end of the period decides, as far as the clock can be read. */
  lemma DeleteIsExact(lock: Lock, clock: Clock, bypass: bool, bypassAllowed: bool, readAllowed: bool)
    ensures var code := DeleteDecision(lock, clock, bypass, bypassAllowed, readAllowed);
            var free := lock.period.None? || lock.period.value.mode == NoMode;
            var bypassed := !free && lock.period.value.mode == Governance && bypass;
            && (lock.hold == Some(true) ==> code == ErrObjectLocked)
            && (lock.hold != Some(true) && free ==> code == ErrNone)
            && (lock.hold != Some(true) && bypassed ==>
                  code == if bypassAllowed && readAllowed then ErrNone else ErrAccessDenied)
            && (lock.hold != Some(true) && !free && !bypassed ==>
                  code == if Over(lock.period.value, clock) then ErrNone else ErrObjectLocked)
  {
  }

  /** Expiry, for every lock and every clock: refused if and only if there is a legal hold, or a period that has
      not ended or whose end cannot be told. */
  lemma ExpiryIsExact(lock: Lock, clock: Clock)
    ensures LockedForExpiry(lock, clock) <==>
              || lock.hold == Some(true)
              || (&& lock.period.Some? && lock.period.value.mode != NoMode
                  && (clock.Reading? ==> clock.time < lock.period.value.until))
  {
  }

  /** A change of the retention, for every lock and every clock: the clock must be read; without a period or
      after its end the permission decides; before that, governance gives way to a bypass or to a period that is
      no weaker, and compliance only to one that is no weaker. */
  lemma PutIsExact(lock: Lock, clock: Clock, request: Period, bypass: bool, permission: Permission)
    ensures var code := PutDecision(lock, clock, request, bypass, permission);
            var free := lock.period.None? || lock.period.value.mode == NoMode || Over(lock.period.value, clock);
            var asked := if bypass then permission.bypassing else permission.plain;
            var weaker := !free && (request.mode != lock.period.value.mode || request.until < lock.period.value.until);
            && (clock.ClockFailed? ==> code == ErrObjectLocked)
            && (clock.Reading? && free ==> code == asked)
            && (clock.Reading? && !free && lock.period.value.mode == Governance ==>
                  code == if weaker && !bypass then ErrObjectLocked else asked)
            && (clock.Reading? && !free && lock.period.value.mode == Compliance ==>
                  code == if weaker then ErrObjectLocked else permission.plain)
  {
  }

  /** The body of such a request is accepted if and only if the clock can be read and mode and date are both
      missing, or both there with a date that is not past. */
  lemma BodyIsExact(request: Period, clock: Clock)
    ensures ParseDecision(request, clock) == ErrNone <==>
              && clock.Reading?
              && (request.mode == NoMode <==> request.until == ZERO_TIME)
              && (request.mode != NoMode ==> clock.time <= request.until)
    ensures ParseDecision(request, clock) == ErrMalformedXML <==>
              (request.mode == NoMode) != (request.until == ZERO_TIME)
  {
  }

  /** A request that reads strong entries is no danger. */
  lemma FreshReadIsSafe(request: Request, lock: Lock, clock: Time, mode: Mode, until: Time)
    requires mode != NoMode && Strong(lock, mode, until) && CoveredRequest(mode, true, request) && clock < until
    ensures !Danger(HasRead(request, lock), clock, mode, until)
  {
    WholeSecondsMonotone(UntilOf(lock), UntilOf(lock));
    match request
    case PutRetention(period, bypass, permission) =>
      if period.until >= UntilOf(lock) {
        WholeSecondsMonotone(UntilOf(lock), period.until);
        WholeSecondsMonotone(period.until, period.until);
      }
    case PutHold(on) =>
    case Delete(sighted, bypass, bypassAllowed, readAllowed) =>
    case Expire(sighted) =>
  }

  /** A request is approved at some reading between two if and only if it is at one of the two. */
  lemma ApprovedBetween(request: Request, lock: Lock, clock: Time, t: Time, until: Time)
    requires clock <= t < until && Decision(request, lock, Reading(t)) == ErrNone
    ensures || Decision(request, lock, Reading(clock)) == ErrNone
            || Decision(request, lock, Reading(until - 1)) == ErrNone
  {
  }

  /** A decision that does without the clock is the same at every reading. */
  lemma ClockNotNeeded(request: Request, lock: Lock, t: Time)
    requires Decision(request, lock, ClockFailed) == ErrNone
    ensures Decision(request, lock, Reading(t)) == ErrNone
  {
  }

  /** Later readings bring no new danger. */
  lemma DangerFades(pending: Pending, clock: Time, later: Time, mode: Mode, until: Time)
    requires clock <= later < until && Danger(pending, later, mode, until)
    ensures Danger(pending, clock, mode, until)
  {
    if pending.HasRead? && Decision(pending.request, pending.lock, Reading(later)) == ErrNone {
      ApprovedBetween(pending.request, pending.lock, clock, later, until);
    }
  }

  lemma DecideKeeps(w: World, id: nat, now: Clock, mode: Mode, until: Time)
    requires Enabled(w, Decide(id, now)) && NoDanger(w, mode, until) && DecideNext(w, id, now).clock < until
    ensures NoDanger(DecideNext(w, id, now), mode, until)
  {
    var HasRead(request, lock) := w.flight[id];
    var v := DecideNext(w, id, now);
    assert !Danger(w.flight[id], w.clock, mode, until);
    if Decision(request, lock, now) == ErrNone {
      var t := if now.Reading? then now.time else w.clock;
      if now.ClockFailed? { ClockNotNeeded(request, lock, t); }
      ApprovedBetween(request, lock, w.clock, t, until);
    }
    hide Decision, Weakens;
    forall k | k in v.flight ensures !Danger(v.flight[k], v.clock, mode, until) {
      if k != id && Danger(v.flight[k], v.clock, mode, until) {
        DangerFades(v.flight[k], w.clock, v.clock, mode, until);
      }
    }
  }

  lemma BeginKeeps(w: World, id: nat, request: Request, parsed: Clock, mode: Mode, until: Time)
    requires mode != NoMode && Enabled(w, Begin(id, request, parsed)) && NoDanger(w, mode, until)
    requires Kept(w.version, mode, until) && Strong(w.version.lock, mode, until)
    requires CoveredRequest(mode, true, request) && BeginNext(w, id, request, parsed).clock < until
    ensures NoDanger(BeginNext(w, id, request, parsed), mode, until)
  {
    var v := BeginNext(w, id, request, parsed);
    FreshReadIsSafe(request, w.version.lock, v.clock, mode, until);
    hide Decision, Weakens, Strong, Danger;
    forall k | k in v.flight ensures !Danger(v.flight[k], v.clock, mode, until) {
      if k != id && Danger(v.flight[k], v.clock, mode, until) {
        DangerFades(v.flight[k], w.clock, v.clock, mode, until);
      }
    }
  }

  lemma CommitKeeps(w: World, id: nat, written: bool, mode: Mode, until: Time)
    requires mode != NoMode && Enabled(w, Commit(id, written)) && NoDanger(w, mode, until)
    requires Kept(w.version, mode, until) && Strong(w.version.lock, mode, until)
    ensures var v := CommitNext(w, id, written);
            NoDanger(v, mode, until) && Kept(v.version, mode, until) && Strong(v.version.lock, mode, until)
  {
    assert !Danger(w.flight[id], w.clock, mode, until);
    var v := CommitNext(w, id, written);
    WholeSecondsMonotone(UntilOf(v.version.lock), UntilOf(v.version.lock));
    hide Decision;
  }

  lemma StepKeeps(w: World, step: Step, mode: Mode, until: Time)
    requires mode != NoMode && Enabled(w, step) && Covered(mode, true, [step])
    requires Kept(w.version, mode, until) && Strong(w.version.lock, mode, until) && NoDanger(w, mode, until)
    requires Next(w, step).clock < until
    ensures var v := Next(w, step);
            Kept(v.version, mode, until) && Strong(v.version.lock, mode, until) && NoDanger(v, mode, until)
  {
    hide Strong, Kept, NoDanger;
    assert [step][0] == step;
    match step
    case Begin(id, request, parsed) => BeginKeeps(w, id, request, parsed, mode, until);
    case Decide(id, now) => DecideKeeps(w, id, now, mode, until);
    case Commit(id, written) => CommitKeeps(w, id, written, mode, until);
  }

  lemma {:induction false} ClockGoesOn(w: World, steps: seq<Step>)
    requires Runs(w, steps)
    ensures After(w, steps).clock >= w.clock
    decreases |steps|
  {
    if steps == [] {
    } else {
      ClockGoesOn(Next(w, steps[0]), steps[1..]);
    }
  }

  lemma {:induction false} RunKeeps(w: World, steps: seq<Step>, mode: Mode, until: Time)
    requires mode != NoMode && Runs(w, steps) && Covered(mode, true, steps) && After(w, steps).clock < until
    requires Kept(w.version, mode, until) && Strong(w.version.lock, mode, until) && NoDanger(w, mode, until)
    ensures Kept(After(w, steps).version, mode, until)
    decreases |steps|
  {
    hide Strong, Kept, NoDanger, Next, Enabled;
    if steps == [] {
    } else {
      ClockGoesOn(Next(w, steps[0]), steps[1..]);
      assert Covered(mode, true, [steps[0]]) && Covered(mode, true, steps[1..]) by { CoveredParts(mode, steps); }
      StepKeeps(w, steps[0], mode, until);
      RunKeeps(Next(w, steps[0]), steps[1..], mode, until);
    }
  }

  lemma CoveredParts(mode: Mode, steps: seq<Step>)
    requires Covered(mode, true, steps) && steps != []
    ensures Covered(mode, true, [steps[0]]) && Covered(mode, true, steps[1..])
  {
    assert forall i :: 0 <= i < |steps[1..]| ==> steps[1..][i] == steps[i + 1];
  }

  // ---------------------------------------------------------------- a request alone

  /** The period that a change of the retention stores: that of the request with the date in whole seconds, or one
      without a mode and a date. */
  predicate StoresPeriod(request: Period, stored: Period) {
    if request.mode == NoMode then stored == Period(NoMode, ZERO_TIME)
    else && stored.mode == request.mode
         && stored.until % SECOND == 0 && stored.until <= request.until < stored.until + SECOND
  }

  /** A request that nobody interrupts, step by step: it begins unless its body is refused; it goes on if it is
      approved; and then it changes the entry it is about, or removes the version, and nothing else. */
  lemma AloneDoes(w: World, id: nat, request: Request, parsed: Clock, now: Clock)
    requires w.version.Present? && id !in w.flight && NotBefore(w, parsed)
    requires NotBefore(Next(w, Begin(id, request, parsed)), now)
    ensures var lock, w1 := w.version.lock, Next(w, Begin(id, request, parsed));
            && w1.version == w.version
            && (id in w1.flight <==> request.PutRetention? ==> ParseDecision(request.period, parsed) == ErrNone)
            && (id in w1.flight ==>
                  var w2 := Next(w1, Decide(id, now));
                  && w2.version == w.version
                  && (id in w2.flight <==> Decision(request, lock, now) == ErrNone)
                  && (id in w2.flight ==>
                        var w3 := Next(w2, Commit(id, true));
                        && w3.flight == w.flight
                        && (match request
                            case PutHold(on) => w3.version == Present(lock.(hold := Some(on)))
                            case PutRetention(period, _, _) =>
                              && w3.version.Present? && w3.version.lock.hold == lock.hold
                              && w3.version.lock.period.Some? && StoresPeriod(period, w3.version.lock.period.value)
                            case _ => w3.version == Gone)))
  {
    hide ParseDecision, Decision;
    var w1 := Next(w, Begin(id, request, parsed));
    if id in w1.flight {
      var w2 := Next(w1, Decide(id, now));
      assert id in w2.flight ==> w2.flight - {id} == w.flight;
    }
  }

  // ---------------------------------------------------------------- what goes wrong otherwise

  lemma OneStep(w: World, step: Step)
    requires Enabled(w, step)
    ensures Runs(w, [step]) && After(w, [step]) == Next(w, step)
  {
    hide Next, Enabled;
    assert [step][1..] == [];
  }

  lemma ThenRun(w: World, step: Step, more: seq<Step>)
    requires Enabled(w, step) && Runs(Next(w, step), more)
    ensures Runs(w, [step] + more) && After(w, [step] + more) == After(Next(w, step), more)
  {
    hide Next, Enabled;
    assert ([step] + more)[1..] == more;
  }

  ghost predicate Breaks(w: World, steps: seq<Step>, mode: Mode, until: Time, sighted: bool) {
    && Runs(w, steps) && Covered(mode, sighted, steps) && After(w, steps).clock < until
    && !Kept(After(w, steps).version, mode, until)
  }

  lemma BreaksLater(w: World, step: Step, more: seq<Step>, mode: Mode, until: Time, sighted: bool)
    requires Enabled(w, step) && Covered(mode, sighted, [step]) && Breaks(Next(w, step), more, mode, until, sighted)
    ensures Breaks(w, [step] + more, mode, until, sighted)
  {
    hide Next, Enabled;
    assert [step][0] == step;
    ThenRun(w, step, more);
  }

  /** A request, without bypass and with permission, that repeats the stored period. */
  function Repeat(lock: Lock): Request {
    PutRetention(Period(ModeOf(lock), UntilOf(lock)), false, Permission(ErrNone, ErrNone))
  }

  lemma {:induction false} UnusedId(flight: map<nat, Pending>) returns (id: nat)
    ensures id !in flight
  {
    id := 0;
    while id in flight
      invariant forall k: nat :: k < id ==> k in flight
      decreases |flight| - id
    {
      BelowAreKeys(flight, id + 1);
      id := id + 1;
    }
  }

  lemma {:induction false} BelowAreKeys(flight: map<nat, Pending>, n: nat)
    requires forall k: nat :: k < n ==> k in flight
    ensures n <= |flight|
    decreases n
  {
    if n == 0 {
    } else {
      var less := flight - {n - 1};
      assert flight.Keys == less.Keys + {n - 1};
      BelowAreKeys(less, n - 1);
    }
  }

  /** Repeating a stored period drops the fraction of a second of its date. */
  lemma RepeatDropsFraction(w: World, mode: Mode, until: Time, sighted: bool) returns (steps: seq<Step>)
    requires mode != NoMode && w.clock < until && Kept(w.version, mode, until)
    requires !Strong(w.version.lock, mode, until)
    ensures Breaks(w, steps, mode, until, sighted)
  {
    var lock := w.version.lock;
    var id := UnusedId(w.flight);
    var begin, decide := Begin(id, Repeat(lock), Reading(w.clock)), Decide(id, Reading(w.clock));
    var commit := Commit(id, true);
    assert UntilOf(lock) != ZERO_TIME;
    var w1 := Next(w, begin);
    assert w1.flight[id] == HasRead(Repeat(lock), lock);
    var w2 := Next(w1, decide);
    assert w2.flight[id] == Approved(EffectOf(Repeat(lock), lock));
    var w3 := Next(w2, commit);
    assert UntilOf(w3.version.lock) == WholeSeconds(UntilOf(lock)) && w3.clock == w.clock;
    hide Decision, EffectOf, ParseDecision, Overlay;
    OneStep(w2, commit);
    assert Breaks(w2, [commit], mode, until, sighted);
    assert Covered(mode, sighted, [begin]);
    BreaksLater(w1, decide, [commit], mode, until, sighted);
    BreaksLater(w, begin, [decide] + [commit], mode, until, sighted);
    steps := [begin] + ([decide] + [commit]);
  }

  lemma ApprovedBreaks(w: World, id: nat, mode: Mode, until: Time, sighted: bool) returns (steps: seq<Step>)
    requires mode != NoMode && w.clock < until && Kept(w.version, mode, until)
    requires id in w.flight && w.flight[id].Approved? && Weakens(w.flight[id].effect, mode, until)
    ensures Breaks(w, steps, mode, until, sighted)
  {
    var commit := Commit(id, true);
    OneStep(w, commit);
    var v := Next(w, commit);
    if Kept(v.version, mode, until) {
      var more := RepeatDropsFraction(v, mode, until, sighted);
      hide Next, Enabled, Breaks;
      BreaksLater(w, commit, more, mode, until, sighted);
      steps := [commit] + more;
    } else {
      steps := [commit];
    }
  }

  lemma DangerBreaks(w: World, id: nat, mode: Mode, until: Time, sighted: bool) returns (steps: seq<Step>)
    requires mode != NoMode && w.clock < until && Kept(w.version, mode, until)
    requires id in w.flight && Danger(w.flight[id], w.clock, mode, until)
    ensures Breaks(w, steps, mode, until, sighted)
  {
    if w.flight[id].Approved? {
      steps := ApprovedBreaks(w, id, mode, until, sighted);
    } else {
      var HasRead(request, lock) := w.flight[id];
      var t := if Decision(request, lock, Reading(w.clock)) == ErrNone then w.clock else until - 1;
      var decide := Decide(id, Reading(t));
      var v := Next(w, decide);
      assert v.flight[id] == Approved(EffectOf(request, lock)) && v.clock == t;
      var more := ApprovedBreaks(v, id, mode, until, sighted);
      hide Next, Enabled, Breaks, Decision, Weakens;
      BreaksLater(w, decide, more, mode, until, sighted);
      steps := [decide] + more;
    }
  }

  /** A delete or expiry that learns nothing of the lock removes any version, whatever its lock and the time. */
  lemma UnsightedRemoves(w: World, request: Request) returns (steps: seq<Step>)
    requires w.version.Present? && !Sighted(request)
    ensures Runs(w, steps) && |steps| == 3 && steps[0].Begin? && steps[0].request == request
    ensures steps[1].Decide? && steps[2].Commit?
    ensures After(w, steps).version == Gone && After(w, steps).clock == w.clock && NeverLifts(w, steps)
  {
    var id := UnusedId(w.flight);
    var begin, decide := Begin(id, request, ClockFailed), Decide(id, ClockFailed);
    var commit := Commit(id, true);
    var w1 := Next(w, begin);
    assert w1.flight[id] == HasRead(request, w.version.lock);
    var w2 := Next(w1, decide);
    assert w2.flight[id] == Approved(RemoveVersion);
    CommitRemoves(w2, id);
    ThenRun(w1, decide, [commit]);
    ThenRun(w, begin, [decide] + [commit]);
    ThenNeverLifts(w1, decide, [commit]);
    ThenNeverLifts(w, begin, [decide] + [commit]);
    steps := [begin] + ([decide] + [commit]);
  }

  /** Mode and date are kept in every interleaving until the date if and only if the date is reached already,
      or the look-ups of all deletes and expiries work, the stored date is not below it without its fraction
      of a second, and no request in flight was approved, or can still be approved, to remove the version or
      to write a weaker period back. */
  lemma RetentionKept(w: World, mode: Mode, until: Time, sighted: bool)
    requires mode != NoMode && Kept(w.version, mode, until)
    ensures AlwaysKept(w, mode, until, sighted) <==>
              w.clock >= until || (sighted && Strong(w.version.lock, mode, until) && NoDanger(w, mode, until))
  {
    hide Strong, Danger, Next, Enabled;
    if w.clock >= until {
      forall steps | Runs(w, steps) ensures After(w, steps).clock >= until { ClockGoesOn(w, steps); }
    } else if !sighted {
      var steps := UnsightedRemoves(w, Expire(false));
      assert Breaks(w, steps, mode, until, sighted);
    } else if !Strong(w.version.lock, mode, until) {
      var steps := RepeatDropsFraction(w, mode, until, sighted);
    } else if !NoDanger(w, mode, until) {
      var id :| id in w.flight && Danger(w.flight[id], w.clock, mode, until);
      var steps := DangerBreaks(w, id, mode, until, sighted);
    } else {
      forall steps | Runs(w, steps) && Covered(mode, sighted, steps) && After(w, steps).clock < until
        ensures Kept(After(w, steps).version, mode, until)
      {
        RunKeeps(w, steps, mode, until);
      }
    }
  }

  /** Compliance until a whole second is kept in every interleaving of requests that begin once it is
      stored, whatever the permissions and the bypass header, if the look-ups of deletes and expiries work. */
  lemma ComplianceKept(w: World, until: Time, steps: seq<Step>)
    requires Kept(w.version, Compliance, until) && WholeSeconds(until) == until && w.flight == map[]
    requires Runs(w, steps) && Covered(Compliance, true, steps) && After(w, steps).clock < until
    ensures Kept(After(w, steps).version, Compliance, until)
  {
    WholeSecondsMonotone(until, UntilOf(w.version.lock));
    RunKeeps(w, steps, Compliance, until);
  }

  /** A legal-hold request that read the version before the period was extended takes the extension back. */
  lemma HoldTakesExtensionBack(d1: Time, d2: Time, hold: bool) returns (steps: seq<Step>)
    requires 0 < d1 < d2 && WholeSeconds(d1) == d1 && WholeSeconds(d2) == d2
    ensures var w := World(Present(Lock(Some(Period(Compliance, d1)), None)), 0, map[]);
            && Runs(w, steps) && After(w, steps).clock == 0
            && After(w, steps).version == Present(Lock(Some(Period(Compliance, d1)), Some(hold)))
            && |steps| == 6
            && Runs(w, steps[..5])
            && After(w, steps[..5]).version == Present(Lock(Some(Period(Compliance, d2)), None))
  {
    var lock := Lock(Some(Period(Compliance, d1)), None);
    var w := World(Present(lock), 0, map[]);
    var extend := PutRetention(Period(Compliance, d2), false, Permission(ErrNone, ErrNone));
    var now := Reading(0);
    var longer := Lock(Some(Period(Compliance, d2)), None);
    var held := lock.(hold := Some(hold));
    var w1 := World(w.version, 0, map[0 := HasRead(PutHold(hold), lock)]);
    var w2 := World(w.version, 0, map[0 := Approved(Write(held))]);
    var w3 := World(w.version, 0, map[0 := Approved(Write(held)), 1 := HasRead(extend, lock)]);
    var w4 := World(w.version, 0, map[0 := Approved(Write(held)), 1 := Approved(Write(longer))]);
    var w5 := World(Present(longer), 0, map[0 := Approved(Write(held))]);
    assert Next(w, Begin(0, PutHold(hold), now)) == w1;
    assert Next(w1, Decide(0, now)) == w2;
    assert Next(w2, Begin(1, extend, now)) == w3;
    assert Next(w3, Decide(1, now)) == w4;
    assert w4.flight - {1} == w5.flight;
    assert Next(w4, Commit(1, true)) == w5;
    assert w5.flight - {0} == map[];
    var w6 := Next(w5, Commit(0, true));
    assert w6.version == Present(held);
    hide Next, Decision, EffectOf, Overlay;
    steps := [Begin(0, PutHold(hold), now), Decide(0, now), Begin(1, extend, now), Decide(1, now), Commit(1, true),
              Commit(0, true)];
    SixSteps(w, w1, w2, w3, w4, w5, steps);
  }

  /** A chain of six steps. */
  lemma SixSteps(w: World, w1: World, w2: World, w3: World, w4: World, w5: World, s: seq<Step>)
    requires |s| == 6
    requires Enabled(w, s[0]) && Next(w, s[0]) == w1 && Enabled(w1, s[1]) && Next(w1, s[1]) == w2
    requires Enabled(w2, s[2]) && Next(w2, s[2]) == w3 && Enabled(w3, s[3]) && Next(w3, s[3]) == w4
    requires Enabled(w4, s[4]) && Next(w4, s[4]) == w5 && Enabled(w5, s[5])
    ensures Runs(w, s[..5]) && After(w, s[..5]) == w5
    ensures Runs(w, s) && After(w, s) == Next(w5, s[5])
  {
    hide Next, Enabled;
    OneStep(w4, s[4]);
    ThenRun(w3, s[3], [s[4]]);
    ThenRun(w2, s[2], [s[3]] + [s[4]]);
    ThenRun(w1, s[1], [s[2]] + ([s[3]] + [s[4]]));
    ThenRun(w, s[0], [s[1]] + ([s[2]] + ([s[3]] + [s[4]])));
    assert s[..5] == [s[0]] + ([s[1]] + ([s[2]] + ([s[3]] + [s[4]])));
    OneStep(w5, s[5]);
    ThenRun(w4, s[4], [s[5]]);
    ThenRun(w3, s[3], [s[4]] + [s[5]]);
    ThenRun(w2, s[2], [s[3]] + ([s[4]] + [s[5]]));
    ThenRun(w1, s[1], [s[2]] + ([s[3]] + ([s[4]] + [s[5]])));
    ThenRun(w, s[0], [s[1]] + ([s[2]] + ([s[3]] + ([s[4]] + [s[5]]))));
    assert s == [s[0]] + ([s[1]] + ([s[2]] + ([s[3]] + ([s[4]] + [s[5]]))));
  }

  /** A delete that was approved before a retention was stored removes the version under it. */
  lemma DeleteOvertakesRetention(d: Time, bypass: bool, allowed: bool) returns (steps: seq<Step>)
    requires 0 < d && WholeSeconds(d) == d
    ensures var w := World(Present(Lock(None, None)), 0, map[]);
            && Runs(w, steps) && After(w, steps).clock == 0 && After(w, steps).version == Gone
            && |steps| == 6
            && Runs(w, steps[..5])
            && After(w, steps[..5]).version == Present(Lock(Some(Period(Compliance, d)), None))
  {
    var lock := Lock(None, None);
    var w := World(Present(lock), 0, map[]);
    var delete := Delete(true, bypass, allowed, allowed);
    var put := PutRetention(Period(Compliance, d), false, Permission(ErrNone, ErrNone));
    var now := Reading(0);
    var locked := Lock(Some(Period(Compliance, d)), None);
    var w1 := World(w.version, 0, map[0 := HasRead(delete, lock)]);
    var w2 := World(w.version, 0, map[0 := Approved(RemoveVersion)]);
    var w3 := World(w.version, 0, map[0 := Approved(RemoveVersion), 1 := HasRead(put, lock)]);
    var w4 := World(w.version, 0, map[0 := Approved(RemoveVersion), 1 := Approved(Write(locked))]);
    var w5 := World(Present(locked), 0, map[0 := Approved(RemoveVersion)]);
    assert Next(w, Begin(0, delete, now)) == w1;
    assert Next(w1, Decide(0, now)) == w2;
    assert Next(w2, Begin(1, put, now)) == w3;
    assert Next(w3, Decide(1, now)) == w4;
    assert w4.flight - {1} == w5.flight;
    assert Next(w4, Commit(1, true)) == w5;
    var w6 := Next(w5, Commit(0, true));
    assert w6.version == Gone;
    hide Next, Decision, EffectOf, Overlay;
    steps := [Begin(0, delete, now), Decide(0, now), Begin(1, put, now), Decide(1, now), Commit(1, true),
              Commit(0, true)];
    SixSteps(w, w1, w2, w3, w4, w5, steps);
  }

  /** A date that was stored with half a second loses it when it is requested again. */
  lemma HalfSecondLost()
    ensures !AlwaysKept(World(Present(Lock(Some(Period(Compliance, 3 * SECOND / 2)), None)), 0, map[]),
                        Compliance, 3 * SECOND / 2, true)
  {
    RetentionKept(World(Present(Lock(Some(Period(Compliance, 3 * SECOND / 2)), None)), 0, map[]),
                  Compliance, 3 * SECOND / 2, true);
  }

  // ---------------------------------------------------------------- legal holds

  /** The step writes metadata back in which the hold is off. */
  predicate Lifts(w: World, step: Step) {
    && step.Commit? && step.written && step.id in w.flight && w.flight[step.id].Approved?
    && w.flight[step.id].effect.Write? && w.flight[step.id].effect.lock.hold == Some(false)
  }

  predicate NeverLifts(w: World, steps: seq<Step>)
    requires Runs(w, steps)
    decreases |steps|
  {
    steps == [] || (!Lifts(w, steps[0]) && NeverLifts(Next(w, steps[0]), steps[1..]))
  }

  predicate UnderHold(version: Version) {
    version.Present? && version.lock.hold == Some(true)
  }

  /** With `sighted`, only runs are meant in which the look-ups of every delete and expiry work. */
  predicate AllSighted(sighted: bool, steps: seq<Step>) {
    forall i :: 0 <= i < |steps| && steps[i].Begin? && sighted ==> Sighted(steps[i].request)
  }

  /** In every interleaving, until metadata with the hold off is written back, the version is there under the
      hold. */
  ghost predicate HoldAlwaysKept(w: World, sighted: bool) {
    forall steps :: Runs(w, steps) && AllSighted(sighted, steps) && NeverLifts(w, steps) ==>
      UnderHold(After(w, steps).version)
  }

  /** A delete or expiry that was approved, or can still be approved: it did not see a hold, and does not lack
      permissions for a bypass it asks for. */
  predicate CanRemove(pending: Pending) {
    match pending
    case Approved(effect) => effect.RemoveVersion?
    case HasRead(request, lock) =>
      && (request.Delete? || request.Expire?)
      && (request.sighted ==>
            && lock.hold != Some(true)
            && (request.Delete? && request.bypass && ModeOf(lock) == Governance ==>
                  request.bypassAllowed && request.readAllowed))
  }

  predicate NoneRemoves(w: World) {
    forall id :: id in w.flight ==> !CanRemove(w.flight[id])
  }

  lemma StepKeepsHold(w: World, step: Step)
    requires Enabled(w, step) && !Lifts(w, step) && AllSighted(true, [step]) && UnderHold(w.version) && NoneRemoves(w)
    ensures UnderHold(Next(w, step).version) && NoneRemoves(Next(w, step))
  {
    hide ParseDecision, PutDecision, WholeSeconds;
    assert [step][0] == step;
    match step
    case Begin(id, request, parsed) =>
    case Decide(id, now) => assert !CanRemove(w.flight[id]);
    case Commit(id, written) =>
      assert !CanRemove(w.flight[id]);
      if w.flight[id].effect.Write? && w.flight[id].effect.lock.hold.Some? {
        assert written ==> w.flight[id].effect.lock.hold.value;
      }
  }

  lemma {:induction false} RunKeepsHold(w: World, steps: seq<Step>)
    requires Runs(w, steps) && NeverLifts(w, steps) && AllSighted(true, steps)
    requires UnderHold(w.version) && NoneRemoves(w)
    ensures UnderHold(After(w, steps).version)
    decreases |steps|
  {
    hide Next, Enabled, Lifts, UnderHold, NoneRemoves;
    if steps == [] {
    } else {
      assert AllSighted(true, [steps[0]]) && AllSighted(true, steps[1..]) by { SightedParts(steps); }
      StepKeepsHold(w, steps[0]);
      RunKeepsHold(Next(w, steps[0]), steps[1..]);
    }
  }

  lemma SightedParts(steps: seq<Step>)
    requires AllSighted(true, steps) && steps != []
    ensures AllSighted(true, [steps[0]]) && AllSighted(true, steps[1..])
  {
    assert forall i :: 0 <= i < |steps[1..]| ==> steps[1..][i] == steps[i + 1];
  }

  lemma ThenNeverLifts(w: World, step: Step, more: seq<Step>)
    requires Enabled(w, step) && Runs(Next(w, step), more) && NeverLifts(Next(w, step), more) && !step.Commit?
    ensures Runs(w, [step] + more) && NeverLifts(w, [step] + more)
  {
    hide Next, Enabled;
    assert ([step] + more)[1..] == more;
  }

  lemma CommitRemoves(w: World, id: nat)
    requires id in w.flight && w.flight[id] == Approved(RemoveVersion)
    ensures Runs(w, [Commit(id, true)]) && NeverLifts(w, [Commit(id, true)])
    ensures After(w, [Commit(id, true)]).version == Gone
  {
    OneStep(w, Commit(id, true));
    assert [Commit(id, true)][1..] == [];
  }

  /** A delete or expiry that can still be approved is, once the clock has passed the date it read. */
  lemma CanRemoveRemoves(w: World, id: nat) returns (steps: seq<Step>)
    requires id in w.flight && CanRemove(w.flight[id])
    ensures Runs(w, steps) && NeverLifts(w, steps) && After(w, steps).version == Gone
    ensures forall i :: 0 <= i < |steps| ==> !steps[i].Begin?
  {
    if w.flight[id].Approved? {
      steps := [Commit(id, true)];
      CommitRemoves(w, id);
    } else {
      var lock := w.flight[id].lock;
      var now := Reading(if UntilOf(lock) < w.clock then w.clock else UntilOf(lock) + 1);
      var v := Next(w, Decide(id, now));
      assert v.flight[id] == Approved(RemoveVersion);
      CommitRemoves(v, id);
      ThenRun(w, Decide(id, now), [Commit(id, true)]);
      ThenNeverLifts(w, Decide(id, now), [Commit(id, true)]);
      steps := [Decide(id, now)] + [Commit(id, true)];
    }
  }

  /** A version under legal hold stays there under it in every interleaving, until metadata with the hold off is
      written back, if and only if the look-ups of all deletes and expiries work and none in flight was approved
      or can still be approved. */
  lemma HoldKept(w: World, sighted: bool)
    requires UnderHold(w.version)
    ensures HoldAlwaysKept(w, sighted) <==> sighted && NoneRemoves(w)
  {
    hide Next, Enabled, CanRemove, Lifts;
    if !sighted {
      var steps := UnsightedRemoves(w, Expire(false));
      assert AllSighted(sighted, steps);
    } else if !NoneRemoves(w) {
      var id :| id in w.flight && CanRemove(w.flight[id]);
      var steps := CanRemoveRemoves(w, id);
      assert AllSighted(sighted, steps);
    } else {
      forall steps | Runs(w, steps) && AllSighted(sighted, steps) && NeverLifts(w, steps)
        ensures UnderHold(After(w, steps).version)
      {
        RunKeepsHold(w, steps);
      }
    }
  }
}
