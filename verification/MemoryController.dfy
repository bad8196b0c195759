/** The controller that owns a policy and resizes an engine: every method is one event of the
    policy-and-engine system, including the ways it can fail. */
module MemoryController {
  import opened Wrappers
  import opened MemoryPolicy
  import opened MemorySystem

  datatype ControlError = PhaseActive | PhaseInactive | OutsideExtent | WorkspaceUnavailable | PressureAtFloor | EngineRefused

  /** The part of the engine the controller resizes. A resize may be refused, by its budget or by
      allocation, and then changes nothing. */
  class Engine {
    var expertCapacity: nat

    constructor (expertCapacity: nat)
      ensures this.expertCapacity == expertCapacity
    {
      this.expertCapacity := expertCapacity;
    }

    method Resize(target: nat, accepted: bool) returns (r: Result<(nat, nat), ControlError>)
      modifies this
      ensures r == if accepted then Ok((old(expertCapacity), target)) else Err(EngineRefused)
      ensures expertCapacity == if accepted then target else old(expertCapacity)
    {
      if !accepted {
        return Err(EngineRefused);
      }
      r := Ok((expertCapacity, target));
      expertCapacity := target;
    }
  }

  class Controller {
    var policy: Policy
    var pressureReleaseEpoch: nat

    constructor (initialCapacity: nat, maximumCapacity: nat)
      ensures policy == NewPolicy(initialCapacity, maximumCapacity) && pressureReleaseEpoch == 0
    {
      policy, pressureReleaseEpoch := NewPolicy(initialCapacity, maximumCapacity), 0;
    }

    function State(engine: Engine): System
      reads this, engine
    {
      System(policy, engine.expertCapacity, pressureReleaseEpoch)
    }

    method BeginRequest(engine: Engine, now: nat)
      modifies this
      ensures State(engine) == Step(old(State(engine)), RequestBegins(now))
    {
      policy := MemoryPolicy.BeginRequest(policy, now);
    }

    method EndRequest(engine: Engine, now: nat, completed: bool)
      modifies this
      ensures State(engine) == Step(old(State(engine)), RequestEnds(now, completed))
    {
      policy := MemoryPolicy.EndRequest(policy, now, completed);
    }

    /** A phase begins only inside the operating extent and never under pressure. */
    method TryBeginWorkspacePhase(engine: Engine, target: nat) returns (r: Result<bool, ControlError>)
      modifies this
      ensures State(engine) == Step(old(State(engine)), PhaseBegins(target))
      ensures r.Ok? <==> old(policy.workspacePhase).None? && MIN_CAPACITY <= target <= engine.expertCapacity <= old(policy.maximumCapacity)
      ensures r.Ok? ==> (r.value <==> !old(policy.stopLatched) && old(policy.state) != Some(WarningState) && old(policy.state) != Some(CriticalState))
      ensures r == Ok(true) <==> old(policy.workspacePhase).None? && policy.workspacePhase.Some?
      ensures r == Ok(true) ==> policy.workspacePhase.value == WorkspacePhase(engine.expertCapacity, pressureReleaseEpoch)
      ensures r != Ok(true) ==> policy == old(policy)
    {
      var (next, begun) := TryBeginPhase(policy, engine.expertCapacity, target, pressureReleaseEpoch);
      if begun.None? {
        return Err(if policy.workspacePhase.Some? then PhaseActive else OutsideExtent);
      }
      policy := next;
      return Ok(begun.value);
    }

    /** Record the extent a planned resize left the engine at. */
    method SyncPlannedWorkspaceCapacity(engine: Engine, now: nat) returns (r: Result<(), ControlError>)
      modifies this
      ensures r.Ok? <==> old(policy.workspacePhase).Some? &&
                         MIN_CAPACITY <= engine.expertCapacity <= old(policy.workspacePhase).value.ordinaryCapacity
      ensures r.Ok? ==> State(engine) == Step(old(State(engine)), PlannedResize(now, engine.expertCapacity))
      ensures r.Err? ==> policy == old(policy)
      ensures pressureReleaseEpoch == old(pressureReleaseEpoch)
    {
      var synced := SyncPlanned(policy, now, engine.expertCapacity);
      if synced.None? {
        return Err(if policy.workspacePhase.None? then PhaseInactive else OutsideExtent);
      }
      policy := synced.value;
      return Ok(());
    }

    /** Finish a phase: take up the engine's planned extent, restore the ordinary one if that is
        still allowed, and leave. Without a rebuilt workspace the phase stays active. */
    method FinishWorkspacePhase(engine: Engine, now: nat, workspaceReady: bool, accepted: bool) returns (r: Result<bool, ControlError>)
      requires PolicyBounds(policy)
      modifies this, engine
      ensures r.Err? ==> State(engine) == old(State(engine))
      ensures r.Err? <==> old(policy.workspacePhase).Some? &&
                          (!workspaceReady || SyncPlanned(old(policy), now, old(engine.expertCapacity)).None?)
      ensures r.Ok? ==> State(engine) == EndPhase(Planned(old(State(engine)), now, old(engine.expertCapacity)), now, accepted)
      ensures r.Ok? ==> r.value == (engine.expertCapacity != old(engine.expertCapacity)) && policy.workspacePhase.None?
      ensures PolicyBounds(policy)
    {
      if policy.workspacePhase.None? {
        return Ok(false);
      }
      if !workspaceReady {
        return Err(WorkspaceUnavailable);
      }
      var synced := SyncPlannedWorkspaceCapacity(engine, now);
      if synced.Err? {
        return Err(synced.error);
      }
      SyncedBounded(old(State(engine)), now);
      var changed := RestoreAndLeave(engine, now, accepted);
      return Ok(changed);
    }

    method RestoreAndLeave(engine: Engine, now: nat, accepted: bool) returns (changed: bool)
      requires Bounded(State(engine)) && policy.workspacePhase.Some?
      modifies this, engine
      ensures State(engine) == EndPhase(old(State(engine)), now, accepted)
      ensures changed == (engine.expertCapacity != old(engine.expertCapacity))
      ensures PolicyBounds(policy) && policy.workspacePhase.None?
    {
      RestoreBounded(State(engine), now, accepted);
      changed := Restore(engine, now, policy.workspacePhase.value.ordinaryCapacity, accepted);
      FinishBounds(policy);
      FinishLeaves(policy);
      policy := FinishPhase(policy);
    }

    method Restore(engine: Engine, now: nat, ordinary: nat, accepted: bool) returns (changed: bool)
      requires Bounded(State(engine)) && policy.workspacePhase.Some? && policy.workspacePhase.value.ordinaryCapacity == ordinary
      modifies this, engine
      ensures State(engine) == RestoreOrdinary(old(State(engine)), now, accepted)
      ensures changed == (engine.expertCapacity != old(engine.expertCapacity))
    {
      changed := false;
      if RestorationAllowed(policy, now, pressureReleaseEpoch) {
        var report := engine.Resize(ordinary, accepted);
        if report.Ok? {
          var synced := SyncPlannedWorkspaceCapacity(engine, now);
          changed := report.value.0 != report.value.1;
        } else {
          policy := RecoveryFailed(policy, now);
        }
      }
    }

    /** Poll at an owner boundary. Reports whether the extent changed; refuses an extent outside the
        operating range, and work under persistent critical pressure at the floor. */
    method ApplyObservation(engine: Engine, boundary: Boundary, now: nat, o: Observation, accepted: bool) returns (r: Result<bool, ControlError>)
      requires PolicyBounds(policy)
      modifies this, engine
      ensures State(engine) == Step(old(State(engine)), Checked(now, boundary, ReadingAt(old(policy), now, o), o.counters, accepted))
      ensures r == Err(OutsideExtent) <==> !InRange(old(State(engine)))
      ensures r == Err(OutsideExtent) ==> State(engine) == old(State(engine))
      ensures old(Bounded(State(engine))) ==> Bounded(State(engine))
      ensures r == Ok(true) <==> engine.expertCapacity != old(engine.expertCapacity)
      ensures r == Err(PressureAtFloor) ==> engine.expertCapacity == MIN_CAPACITY && policy.stopLatched
    {
      if !(MIN_CAPACITY <= engine.expertCapacity <= policy.maximumCapacity) {
        return Err(OutsideExtent);
      }
      CheckOutcome(State(engine), boundary, now, ReadingAt(policy, now, o), o.counters, accepted);
      if Bounded(State(engine)) {
        StepBounded(State(engine), Checked(now, boundary, ReadingAt(policy, now, o), o.counters, accepted));
      }
      var action := Observe(engine, boundary, now, o);
      r := Act(engine, action, now, accepted);
    }

    method Observe(engine: Engine, boundary: Boundary, now: nat, o: Observation) returns (action: Action)
      modifies this
      ensures (policy, action) == Poll(old(State(engine)), now, boundary, ReadingAt(old(policy), now, o), o.counters)
      ensures pressureReleaseEpoch == old(pressureReleaseEpoch)
    {
      var (next, sampled) := ObserveSample(policy, now, engine.expertCapacity, boundary, ReadingAt(policy, now, o), o.counters);
      policy := next;
      action := if sampled.Some? then sampled.value else CachedAction(policy, now, engine.expertCapacity);
    }

    method Act(engine: Engine, action: Action, now: nat, accepted: bool) returns (r: Result<bool, ControlError>)
      modifies this, engine
      ensures State(engine) == Perform(old(State(engine)), now, action, accepted)
      ensures r == Outcome(action, accepted)
    {
      match action
      case Hold => return Ok(false);
      case Stop => return Err(PressureAtFloor);
      case Recover(target) =>
        var report := engine.Resize(target, accepted);
        if report.Err? {
          policy := RecoveryFailed(policy, now);
          return Ok(false);
        }
        policy := CapacityChanged(policy, now, report.value.0, report.value.1);
        return Ok(true);
      case _ =>
        r := ReleaseCapacity(engine, action, now, accepted);
    }

    method ReleaseCapacity(engine: Engine, action: Action, now: nat, accepted: bool) returns (r: Result<bool, ControlError>)
      requires Releases(action)
      modifies this, engine
      ensures State(engine) == Perform(old(State(engine)), now, action, accepted)
      ensures r == if accepted then Ok(true) else Err(EngineRefused)
    {
      var report := engine.Resize(action.target, accepted);
      if report.Err? {
        return Err(report.error);
      }
      pressureReleaseEpoch := pressureReleaseEpoch + 1;
      if action.Rollback? {
        policy := InterruptedWork(policy, now, false);
      } else if action.ChurnRelease? {
        policy := InterruptedWork(policy, now, true);
      }
      policy := CapacityChanged(policy, now, report.value.0, report.value.1);
      return Ok(true);
    }
  }

  /** What a poll reports for an action: a refused recovery is deferred, a refused release fails. */
  function Outcome(action: Action, accepted: bool): Result<bool, ControlError> {
    match action
    case Hold => Ok(false)
    case Stop => Err(PressureAtFloor)
    case Recover(_) => Ok(accepted)
    case _ => if accepted then Ok(true) else Err(EngineRefused)
  }

  /** What a poll reports against what it does: growth and release are reported exactly when the
      extent changes, and work is refused only at the floor with the stop latched. */
  lemma CheckOutcome(s: System, boundary: Boundary, now: nat, r: Reading, counters: Option<VmCounters>, accepted: bool)
    requires PolicyBounds(s.policy) && InRange(s)
    ensures var outcome, t := Outcome(Poll(s, now, boundary, r, counters).1, accepted), Check(s, now, boundary, r, counters, accepted);
            && (outcome == Ok(true) <==> t.engine != s.engine)
            && (outcome == Err(PressureAtFloor) ==> t.engine == MIN_CAPACITY && t.policy.stopLatched)
  {
    PollMoves(s, now, boundary, r, counters);
    StopNeedsLatch(s, now, boundary, r, counters);
    var polled := Poll(s, now, boundary, r, counters);
    PerformOutcome(s.(policy := polled.0), now, polled.1, accepted);
  }

  lemma PerformOutcome(s: System, now: nat, action: Action, accepted: bool)
    requires Moves(action, s.engine)
    ensures Outcome(action, accepted) == Ok(true) <==> Perform(s, now, action, accepted).engine != s.engine
    ensures Outcome(action, accepted) == Err(PressureAtFloor) ==> action.Stop? && Perform(s, now, action, accepted) == s
  {
  }

  /** A release shrinks the engine and a recovery grows it. */
  predicate Moves(action: Action, engine: nat) {
    && (Releases(action) ==> action.target < engine)
    && (action.Recover? ==> action.target > engine)
  }

  predicate InRange(s: System) {
    MIN_CAPACITY <= s.engine <= s.policy.maximumCapacity
  }

  /** Where an action's target may come from: a trial's base and an earned extent are in range. */
  ghost predicate TargetBounds(p: Policy) {
    && (p.trialBase.Some? ==> MIN_CAPACITY <= p.trialBase.value)
    && (p.earnedTarget.Some? ==> p.earnedTarget.value <= p.maximumCapacity)
  }

  /** Every release shrinks the engine and every recovery grows it, whatever extent the policy last
      recorded. */
  lemma PollMoves(s: System, now: nat, boundary: Boundary, r: Reading, counters: Option<VmCounters>)
    requires PolicyBounds(s.policy) && InRange(s)
    ensures Moves(Poll(s, now, boundary, r, counters).1, s.engine)
  {
    if SampleDue(s.policy, now) {
      InterruptedTargets(Measured(s.policy, now, s.engine, boundary, r), now);
      ActionMoves(Sampled(s.policy, now, s.engine, boundary, r), now, s.engine, StateAt(s.policy, now, r));
    } else {
      ActionMoves(s.policy, now, s.engine, NormalQuiet);
    }
  }

  lemma InterruptedTargets(p: Policy, now: nat)
    requires TargetBounds(p)
    ensures TargetBounds(InterruptedWork(p, now, false)) && InterruptedWork(p, now, false).maximumCapacity == p.maximumCapacity
  {
  }

  lemma ActionMoves(p: Policy, now: nat, capacity: nat, state: State)
    requires TargetBounds(p) && MIN_CAPACITY <= capacity <= p.maximumCapacity
    ensures Moves(ActionFor(p, now, capacity, state), capacity)
  {
    if MayGrow(p, now, capacity) {
      NextCapacityStep(p, capacity);
    }
    AlignedBelow(capacity - 1);
    if p.trialBase.Some? {
      AlignedBelow(p.trialBase.value);
    }
  }

  /** Work is refused only with the stop latched and the engine at its floor. */
  lemma StopNeedsLatch(s: System, now: nat, boundary: Boundary, r: Reading, counters: Option<VmCounters>)
    requires InRange(s)
    ensures var (q, action) := Poll(s, now, boundary, r, counters);
            action.Stop? ==> q.stopLatched && s.engine == MIN_CAPACITY
  {
    if SampleDue(s.policy, now) {
      var q := Sampled(s.policy, now, s.engine, boundary, r);
      assert ActionFor(q, now, s.engine, StateAt(s.policy, now, r)).Stop? ==>
               Alarmed(q, s.engine, StateAt(s.policy, now, r)).stopLatched;
    }
  }

  lemma SyncedBounded(s: System, now: nat)
    requires PolicyBounds(s.policy) && SyncPlanned(s.policy, now, s.engine).Some?
    ensures Bounded(Planned(s, now, s.engine)) && Planned(s, now, s.engine).policy.workspacePhase == s.policy.workspacePhase
  {
    PlannedBounded(System(s.policy, s.policy.capacity, s.epoch), now, s.engine);
  }

  lemma ClearKeepsPhase(p: Policy)
    ensures ClearWorkspaceValidation(p).workspacePhase == p.workspacePhase
  {
    assert ClearCapacityValidation(p).workspacePhase == p.workspacePhase;
  }

  lemma FinishLeaves(p: Policy)
    ensures FinishPhase(p).workspacePhase.None?
  {
    ClearKeepsPhase(LeavePhase(p));
  }

  // ----- the stop latch

  /** What one sample saw: the memory state, and the engine's extent. */
  datatype Sighting = Sighting(state: State, engine: nat)

  /** The sample an event takes of a system, if it takes one. */
  function SampleOf(s: System, e: Event): seq<Sighting> {
    match e
    case Checked(now, _, r, _, _) =>
      if InRange(s) && SampleDue(s.policy, now) then [Sighting(StateAt(s.policy, now, r), s.engine)] else []
    case _ => []
  }

  function Sightings(s: System, events: seq<Event>): seq<Sighting> {
    if events == [] then []
    else
      var before := events[..|events| - 1];
      Sightings(s, before) + SampleOf(Run(s, before), events[|events| - 1])
  }

  ghost predicate CriticalFrom(log: seq<Sighting>, i: nat) {
    forall k :: i <= k < |log| ==> log[k].state == CriticalState
  }

  /** Sample i was taken at the floor, and every sample from the one before it on was critical. */
  ghost predicate PersistsAtFloor(log: seq<Sighting>, i: nat) {
    1 <= i < |log| && log[i].engine <= MIN_CAPACITY && CriticalFrom(log, i - 1)
  }

  /** Critical pressure persists at the floor: the critical samples up to now include one at the
      floor that is not the first of them. */
  ghost predicate Persistent(log: seq<Sighting>) {
    exists i :: PersistsAtFloor(log, i)
  }

  ghost predicate LastCritical(log: seq<Sighting>) {
    log != [] && log[|log| - 1].state == CriticalState
  }

  /** The policy's three alarm fields say exactly what the samples so far say. */
  ghost predicate AlarmExact(p: Policy, log: seq<Sighting>) {
    && p.state == (if log == [] then None else Some(log[|log| - 1].state))
    && (p.criticalAtFloor <==> LastCritical(log))
    && (p.stopLatched <==> Persistent(log))
  }

  lemma PersistentNext(log: seq<Sighting>, a: Sighting)
    ensures Persistent(log + [a]) <==>
            a.state == CriticalState && (Persistent(log) || (LastCritical(log) && a.engine <= MIN_CAPACITY))
  {
    var next := log + [a];
    if Persistent(next) {
      var i: nat :| PersistsAtFloor(next, i);
      assert next[|log|] == a;
      if i < |log| {
        assert forall k :: i - 1 <= k < |log| ==> log[k] == next[k];
        assert PersistsAtFloor(log, i);
      } else {
        assert log[i - 1] == next[i - 1];
      }
    }
    if a.state == CriticalState && Persistent(log) {
      var i: nat :| PersistsAtFloor(log, i);
      assert PersistsAtFloor(next, i);
    }
    if a.state == CriticalState && LastCritical(log) && a.engine <= MIN_CAPACITY {
      assert PersistsAtFloor(next, |log|);
    }
  }

  ghost predicate SameAlarm(p: Policy, q: Policy) {
    q.stopLatched == p.stopLatched && q.criticalAtFloor == p.criticalAtFloor && q.state == p.state
  }

  /** A due sample latches the stop, or keeps it latched, exactly when it is critical and either the
      stop was latched or the sample before it was critical too and this one was taken at the floor;
      a poll without a sample leaves the alarm alone. */
  lemma PollLatch(s: System, now: nat, boundary: Boundary, r: Reading, counters: Option<VmCounters>)
    requires s.policy.criticalAtFloor <==> s.policy.state == Some(CriticalState)
    ensures var p, q := s.policy, Poll(s, now, boundary, r, counters).0;
            if !SampleDue(p, now) then SameAlarm(p, q)
            else
              var critical := StateAt(p, now, r) == CriticalState;
              && q.state == Some(StateAt(p, now, r)) && (q.criticalAtFloor <==> critical)
              && (q.stopLatched <==>
                    critical && (p.stopLatched || (p.state == Some(CriticalState) && s.engine <= MIN_CAPACITY)))
  {
    if SampleDue(s.policy, now) {
      var m := Measured(s.policy, now, s.engine, boundary, r);
      InterruptedAlarm(m, now, false);
      assert SameAlarm(s.policy, m);
    }
  }

  lemma CheckAlarm(s: System, now: nat, boundary: Boundary, r: Reading, counters: Option<VmCounters>, engineOk: bool, log: seq<Sighting>)
    requires AlarmExact(s.policy, log)
    ensures AlarmExact(Check(s, now, boundary, r, counters, engineOk).policy,
                       log + SampleOf(s, Checked(now, boundary, r, counters, engineOk)))
  {
    if InRange(s) {
      var (q, action) := Poll(s, now, boundary, r, counters);
      PollLatch(s, now, boundary, r, counters);
      PerformAlarm(s.(policy := q), now, action, engineOk);
      PersistentNext(log, Sighting(StateAt(s.policy, now, r), s.engine));
    }
    assert log + [] == log;
  }

  lemma PerformAlarm(s: System, now: nat, action: Action, engineOk: bool)
    ensures SameAlarm(s.policy, Perform(s, now, action, engineOk).policy)
  {
    InterruptedAlarm(s.policy, now, false);
    InterruptedAlarm(s.policy, now, true);
  }

  lemma InterruptedAlarm(p: Policy, now: nat, always: bool)
    ensures SameAlarm(p, InterruptedWork(p, now, always))
  {
  }

  lemma EndRequestAlarm(p: Policy, now: nat, completed: bool)
    ensures SameAlarm(p, MemoryPolicy.EndRequest(p, now, completed))
  {
    assert SameAlarm(p, AcceptOutgrown(p));
    assert SameAlarm(AcceptOutgrown(p), AcceptCurrent(AcceptOutgrown(p)));
  }

  lemma EndPhaseAlarm(s: System, now: nat, engineOk: bool)
    ensures SameAlarm(s.policy, EndPhase(s, now, engineOk).policy)
  {
    var t := RestoreOrdinary(s, now, engineOk);
    assert SameAlarm(s.policy, t.policy);
    assert SameAlarm(t.policy, FinishPhase(t.policy));
  }

  lemma StepAlarm(s: System, e: Event, log: seq<Sighting>)
    requires AlarmExact(s.policy, log)
    ensures AlarmExact(Step(s, e).policy, log + SampleOf(s, e))
  {
    match e
    case Checked(now, boundary, r, counters, engineOk) => CheckAlarm(s, now, boundary, r, counters, engineOk, log);
    case RequestEnds(now, completed) => EndRequestAlarm(s.policy, now, completed); assert log + [] == log;
    case PhaseEnds(now, engineOk) => EndPhaseAlarm(s, now, engineOk); assert log + [] == log;
    case _ => assert SameAlarm(s.policy, Step(s, e).policy); assert log + [] == log;
  }

  /** In every run the stop is latched exactly while critical pressure persists at the floor. */
  lemma {:induction false} RunLatch(initialCapacity: nat, maximumCapacity: nat, events: seq<Event>)
    ensures var s := NewSystem(initialCapacity, maximumCapacity);
            AlarmExact(Run(s, events).policy, Sightings(s, events))
  {
    if events != [] {
      var s := NewSystem(initialCapacity, maximumCapacity);
      var before, last := events[..|events| - 1], events[|events| - 1];
      RunLatch(initialCapacity, maximumCapacity, before);
      StepAlarm(Run(s, before), last, Sightings(s, before));
    }
  }
}
