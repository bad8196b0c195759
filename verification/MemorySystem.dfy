/** The policy joined to the engine capacity it controls: events, their effects, and what holds in
    every reachable state. Engine capacity changes only through the controller's own paths. */
module MemorySystem {
  import opened Wrappers
  import opened MemoryPolicy

  datatype System = System(policy: Policy, engine: nat, epoch: nat)

  datatype Event =
    | RequestBegins(now: nat)
    | RequestEnds(now: nat, completed: bool)
    | Checked(now: nat, boundary: Boundary, reading: Reading, counters: Option<VmCounters>, engineOk: bool)
    | PhaseBegins(target: nat)
    | PlannedResize(now: nat, capacity: nat)
    | PhaseEnds(now: nat, engineOk: bool)

  function NewSystem(initialCapacity: nat, maximumCapacity: nat): System {
    System(NewPolicy(initialCapacity, maximumCapacity), initialCapacity, 0)
  }

  /** The policy after any due sample, and the action to take. */
  function Poll(s: System, now: nat, boundary: Boundary, r: Reading, counters: Option<VmCounters>): (Policy, Action) {
    var (q, sampled) := ObserveSample(s.policy, now, s.engine, boundary, r, counters);
    (q, if sampled.Some? then sampled.value else CachedAction(q, now, s.engine))
  }

  predicate Releases(action: Action) {
    action.Release? || action.Rollback? || action.ChurnRelease?
  }

  /** A release the engine carried out. */
  function Released(s: System, now: nat, action: Action): System
    requires Releases(action)
  {
    var p := match action
      case Rollback(_) => InterruptedWork(s.policy, now, false)
      case ChurnRelease(_) => InterruptedWork(s.policy, now, true)
      case _ => s.policy;
    System(CapacityChanged(p, now, s.engine, action.target), action.target, s.epoch + 1)
  }

  function Perform(s: System, now: nat, action: Action, engineOk: bool): System {
    if Releases(action) then (if engineOk then Released(s, now, action) else s)
    else if action.Recover? then
      if engineOk then s.(policy := CapacityChanged(s.policy, now, s.engine, action.target), engine := action.target)
      else s.(policy := RecoveryFailed(s.policy, now))
    else s
  }

  function Check(s: System, now: nat, boundary: Boundary, r: Reading, counters: Option<VmCounters>, engineOk: bool): System {
    if !(MIN_CAPACITY <= s.engine <= s.policy.maximumCapacity) then s else
    var polled := Poll(s, now, boundary, r, counters);
    Perform(s.(policy := polled.0), now, polled.1, engineOk)
  }

  function Planned(s: System, now: nat, capacity: nat): System {
    match SyncPlanned(s.policy, now, capacity)
    case None => s
    case Some(q) => s.(policy := q, engine := capacity)
  }

  /** Restore the ordinary extent at the end of a phase, if that is still allowed. */
  function RestoreOrdinary(s: System, now: nat, engineOk: bool): System {
    if !RestorationAllowed(s.policy, now, s.epoch) then s
    else if engineOk then Planned(s, now, s.policy.workspacePhase.value.ordinaryCapacity)
    else s.(policy := RecoveryFailed(s.policy, now))
  }

  function EndPhase(s: System, now: nat, engineOk: bool): System {
    if s.policy.workspacePhase.None? then s else
    var t := RestoreOrdinary(s, now, engineOk);
    t.(policy := FinishPhase(t.policy))
  }

  function Step(s: System, e: Event): System {
    match e
    case RequestBegins(now) => s.(policy := BeginRequest(s.policy, now))
    case RequestEnds(now, completed) => s.(policy := EndRequest(s.policy, now, completed))
    case Checked(now, boundary, r, counters, engineOk) => Check(s, now, boundary, r, counters, engineOk)
    case PhaseBegins(target) => s.(policy := TryBeginPhase(s.policy, s.engine, target, s.epoch).0)
    case PlannedResize(now, capacity) => Planned(s, now, capacity)
    case PhaseEnds(now, engineOk) => EndPhase(s, now, engineOk)
  }

  /** A check reads what an observation says, given the counters of the sample before it. The theorems
      over all runs allow any reading; a run offered as an example has to be of this kind. */
  predicate FromObservation(s: System, e: Event) {
    e.Checked? ==> e.reading == ReadingAt(s.policy, e.now, Observation(e.reading.pressure, e.counters))
  }

  predicate Observed(s: System, events: seq<Event>) {
    events == [] ||
    var before := events[..|events| - 1];
    Observed(s, before) && FromObservation(Run(s, before), events[|events| - 1])
  }

  // ----- bounds in every reachable state

  ghost predicate PolicyBounds(p: Policy) {
    && MIN_CAPACITY <= p.capacity <= p.maximumCapacity < 512
    && (p.trialBase.Some? <==> p.trialCapacity.Some?)
    && (p.trialCapacity.Some? ==> MIN_CAPACITY <= p.trialBase.value <= p.trialCapacity.value <= p.capacity)
    && (p.earnedTarget.Some? ==> p.earnedTarget.value <= p.maximumCapacity)
    && (p.validatedInRequest.Some? ==> MIN_CAPACITY <= p.validatedInRequest.value <= p.maximumCapacity)
    && (p.workspacePhase.Some? ==> p.capacity <= p.workspacePhase.value.ordinaryCapacity <= p.maximumCapacity)
    && RECOVERY_COOLDOWN <= p.retryDelay <= MAX_RETRY_DELAY
    && p.requestCleanActive <= ACTIVE_VALIDATION && p.completedCleanActive <= ACTIVE_VALIDATION
  }

  ghost predicate Bounded(s: System) {
    PolicyBounds(s.policy) && s.policy.capacity == s.engine
  }

  ghost predicate SameExtent(p: Policy, q: Policy) {
    q.capacity == p.capacity && q.maximumCapacity == p.maximumCapacity
  }

  lemma MeasuredBounds(p: Policy, now: nat, boundary: Boundary, r: Reading)
    requires PolicyBounds(p)
    ensures PolicyBounds(Measured(p, now, p.capacity, boundary, r)) && SameExtent(p, Measured(p, now, p.capacity, boundary, r))
  {
    assert CleanAfter(p, now, p.capacity, StateAt(p, now, r)) <= ACTIVE_VALIDATION;
  }

  lemma InterruptedBounds(p: Policy, now: nat, always: bool)
    requires PolicyBounds(p)
    ensures PolicyBounds(InterruptedWork(p, now, always)) && SameExtent(p, InterruptedWork(p, now, always))
  {
  }

  lemma SampledBounds(p: Policy, now: nat, boundary: Boundary, r: Reading)
    requires PolicyBounds(p)
    ensures var q := Sampled(p, now, p.capacity, boundary, r);
            PolicyBounds(q) && SameExtent(p, q) && q.state == Some(StateAt(p, now, r))
  {
    MeasuredBounds(p, now, boundary, r);
    var q := Measured(p, now, p.capacity, boundary, r);
    InterruptedBounds(q, now, false);
  }

  ghost predicate ActionInRange(p: Policy, now: nat, action: Action) {
    && (Releases(action) ==> MIN_CAPACITY <= action.target < p.capacity && action.target % GROWTH_STEP_SLOTS == 0)
    && (action.Recover? ==>
          && MayGrow(p, now, p.capacity) && action.target == NextCapacity(p, p.capacity)
          && p.capacity < action.target <= Min(p.capacity + GROWTH_STEP_SLOTS, p.maximumCapacity))
  }

  lemma RecoveryInRange(p: Policy, now: nat)
    requires PolicyBounds(p)
    ensures ActionInRange(p, now, RecoveryAction(p, now, p.capacity))
  {
    if MayGrow(p, now, p.capacity) {
      NextCapacityStep(p, p.capacity);
    }
  }

  lemma ActionForInRange(p: Policy, now: nat, state: State)
    requires PolicyBounds(p)
    ensures ActionInRange(p, now, ActionFor(p, now, p.capacity, state))
  {
    RecoveryInRange(p, now);
    AlignedBelow(p.capacity - 1);
    if p.trialBase.Some? {
      AlignedBelow(p.trialBase.value);
    }
  }

  /** Recording alarms and counters changes no extent; an action taken with an alarm is no growth. */
  lemma AlarmedInRange(p: Policy, now: nat, state: State, counters: Option<VmCounters>)
    requires PolicyBounds(p) && p.state == Some(state)
    requires ActionInRange(p, now, ActionFor(p, now, p.capacity, state))
    ensures var q := WithCounters(Alarmed(p, p.capacity, state), counters);
            PolicyBounds(q) && SameExtent(p, q) && ActionInRange(q, now, ActionFor(p, now, p.capacity, state))
  {
  }

  lemma PollBounds(s: System, now: nat, boundary: Boundary, r: Reading, counters: Option<VmCounters>)
    requires Bounded(s)
    ensures var (q, action) := Poll(s, now, boundary, r, counters);
            PolicyBounds(q) && SameExtent(s.policy, q) && ActionInRange(q, now, action)
  {
    if SampleDue(s.policy, now) {
      SampledBounds(s.policy, now, boundary, r);
      var q := Sampled(s.policy, now, s.engine, boundary, r);
      ActionForInRange(q, now, StateAt(s.policy, now, r));
      AlarmedInRange(q, now, StateAt(s.policy, now, r), counters);
    } else {
      RecoveryInRange(s.policy, now);
    }
  }

  lemma AlignedBelow(n: nat)
    ensures AlignDown(n) <= n && AlignDown(n) % GROWTH_STEP_SLOTS == 0
  {
  }

  /** Growth is by at most sixteen slots, never past the maximum, and always makes progress. */
  lemma NextCapacityStep(p: Policy, capacity: nat)
    requires capacity < p.maximumCapacity && (p.earnedTarget.Some? ==> p.earnedTarget.value <= p.maximumCapacity)
    ensures capacity < NextCapacity(p, capacity) <= Min(capacity + GROWTH_STEP_SLOTS, p.maximumCapacity)
    ensures IsRestoring(p, capacity) ==> NextCapacity(p, capacity) <= p.earnedTarget.value
  {
  }

  lemma ChangeBounds(p: Policy, now: nat, newCapacity: nat)
    requires PolicyBounds(p) && MIN_CAPACITY <= newCapacity <= p.maximumCapacity
    requires newCapacity > p.capacity ==> p.workspacePhase.None?
    ensures var q := CapacityChanged(p, now, p.capacity, newCapacity);
            PolicyBounds(q) && q.capacity == newCapacity
  {
  }

  lemma PerformBounded(s: System, now: nat, action: Action, engineOk: bool)
    requires Bounded(s) && ActionInRange(s.policy, now, action)
    ensures Bounded(Perform(s, now, action, engineOk)) && Perform(s, now, action, engineOk).policy.maximumCapacity == s.policy.maximumCapacity
  {
    if Releases(action) {
      InterruptedBounds(s.policy, now, false);
      InterruptedBounds(s.policy, now, true);
      ChangeBounds(s.policy, now, action.target);
      ChangeBounds(InterruptedWork(s.policy, now, false), now, action.target);
      ChangeBounds(InterruptedWork(s.policy, now, true), now, action.target);
    } else if action.Recover? {
      ChangeBounds(s.policy, now, action.target);
    }
  }

  lemma CheckBounded(s: System, now: nat, boundary: Boundary, r: Reading, counters: Option<VmCounters>, engineOk: bool)
    requires Bounded(s)
    ensures var t := Check(s, now, boundary, r, counters, engineOk);
            Bounded(t) && t.policy.maximumCapacity == s.policy.maximumCapacity
  {
    PollBounds(s, now, boundary, r, counters);
    var (q, action) := Poll(s, now, boundary, r, counters);
    PerformBounded(s.(policy := q), now, action, engineOk);
  }

  lemma EndRequestBounds(p: Policy, now: nat, completed: bool)
    requires PolicyBounds(p)
    ensures PolicyBounds(EndRequest(p, now, completed)) && SameExtent(p, EndRequest(p, now, completed))
  {
    if CountsTowardValidation(p, now, completed) {
      AcceptOutgrownBounds(p);
      AcceptCurrentBounds(AcceptOutgrown(p));
    }
  }

  lemma AcceptOutgrownBounds(p: Policy)
    requires PolicyBounds(p)
    ensures PolicyBounds(AcceptOutgrown(p)) && SameExtent(p, AcceptOutgrown(p))
  {
  }

  lemma AcceptCurrentBounds(p: Policy)
    requires PolicyBounds(p)
    ensures PolicyBounds(AcceptCurrent(p)) && SameExtent(p, AcceptCurrent(p))
  {
  }

  lemma PlannedBounded(s: System, now: nat, capacity: nat)
    requires Bounded(s)
    ensures Bounded(Planned(s, now, capacity)) && Planned(s, now, capacity).policy.maximumCapacity == s.policy.maximumCapacity
  {
  }

  lemma RestoreBounded(s: System, now: nat, engineOk: bool)
    requires Bounded(s)
    ensures Bounded(RestoreOrdinary(s, now, engineOk)) && RestoreOrdinary(s, now, engineOk).policy.maximumCapacity == s.policy.maximumCapacity
  {
    if RestorationAllowed(s.policy, now, s.epoch) {
      PlannedBounded(s, now, s.policy.workspacePhase.value.ordinaryCapacity);
    }
  }

  lemma ClearBounds(p: Policy)
    requires PolicyBounds(p)
    ensures PolicyBounds(ClearWorkspaceValidation(p)) && SameExtent(p, ClearWorkspaceValidation(p))
  {
  }

  lemma LeaveBounds(p: Policy)
    requires PolicyBounds(p)
    ensures PolicyBounds(LeavePhase(p)) && SameExtent(p, LeavePhase(p))
  {
  }

  lemma FinishBounds(p: Policy)
    requires PolicyBounds(p)
    ensures PolicyBounds(FinishPhase(p)) && SameExtent(p, FinishPhase(p))
  {
    LeaveBounds(p);
    ClearBounds(LeavePhase(p));
  }

  lemma EndPhaseBounded(s: System, now: nat, engineOk: bool)
    requires Bounded(s)
    ensures Bounded(EndPhase(s, now, engineOk)) && EndPhase(s, now, engineOk).policy.maximumCapacity == s.policy.maximumCapacity
  {
    RestoreBounded(s, now, engineOk);
    FinishBounds(RestoreOrdinary(s, now, engineOk).policy);
  }

  /** Every step keeps trials, earned and validated extents, phases and delays in range. */
  lemma StepBounded(s: System, e: Event)
    requires Bounded(s)
    ensures Bounded(Step(s, e)) && Step(s, e).policy.maximumCapacity == s.policy.maximumCapacity
  {
    match e
    case RequestBegins(now) =>
    case RequestEnds(now, completed) => EndRequestBounds(s.policy, now, completed);
    case Checked(now, boundary, r, counters, engineOk) => CheckBounded(s, now, boundary, r, counters, engineOk);
    case PhaseBegins(target) =>
    case PlannedResize(now, capacity) => PlannedBounded(s, now, capacity);
    case PhaseEnds(now, engineOk) => EndPhaseBounded(s, now, engineOk);
  }

  function Run(s: System, events: seq<Event>): System {
    if events == [] then s else Step(Run(s, events[..|events| - 1]), events[|events| - 1])
  }

  lemma {:induction false} RunBounded(initialCapacity: nat, maximumCapacity: nat, events: seq<Event>)
    requires ValidLimits(initialCapacity, maximumCapacity)
    ensures var s := Run(NewSystem(initialCapacity, maximumCapacity), events);
            Bounded(s) && s.policy.maximumCapacity == maximumCapacity
  {
    if events != [] {
      RunBounded(initialCapacity, maximumCapacity, events[..|events| - 1]);
      StepBounded(Run(NewSystem(initialCapacity, maximumCapacity), events[..|events| - 1]), events[|events| - 1]);
    }
  }

  /** In every reachable state the engine never rejects a release for its target, and growth stays
      within sixteen slots and the maximum. */
  lemma EveryActionInRange(initialCapacity: nat, maximumCapacity: nat, events: seq<Event>, now: nat, boundary: Boundary, r: Reading, counters: Option<VmCounters>)
    requires ValidLimits(initialCapacity, maximumCapacity)
    ensures var s := Run(NewSystem(initialCapacity, maximumCapacity), events);
            var (q, action) := Poll(s, now, boundary, r, counters);
            SameExtent(s.policy, q) && s.policy.capacity == s.engine && ActionInRange(q, now, action)
  {
    RunBounded(initialCapacity, maximumCapacity, events);
    PollBounds(Run(NewSystem(initialCapacity, maximumCapacity), events), now, boundary, r, counters);
  }

  // ----- restoration

  function Restored(p: Policy, capacity: nat, steps: nat): nat {
    if steps == 0 then capacity
    else
      var c := Restored(p, capacity, steps - 1);
      if IsRestoring(p, c) then NextCapacity(p, c) else c
  }

  function RestoreSteps(distance: nat): nat {
    (distance + GROWTH_STEP_SLOTS - 1) / GROWTH_STEP_SLOTS + 1
  }

  /** After n steps restoration has either arrived or stands n-1 whole steps past its start. */
  lemma {:induction false} RestorationProgress(p: Policy, capacity: nat, steps: nat)
    requires p.earnedTarget.Some? && capacity <= p.earnedTarget.value <= p.maximumCapacity
    ensures var c := Restored(p, capacity, steps);
            && capacity <= c <= p.earnedTarget.value
            && (c == p.earnedTarget.value
                || (steps > 0 ==> c % GROWTH_STEP_SLOTS == 0 && c >= AlignDown(capacity) + steps * GROWTH_STEP_SLOTS))
  {
    if steps > 0 {
      RestorationProgress(p, capacity, steps - 1);
    }
  }

  /** Repeated restoration reaches the earned target exactly, in at most one step per sixteen slots
      of distance plus one, and stays there. */
  lemma RestorationArrives(p: Policy, capacity: nat, steps: nat)
    requires p.earnedTarget.Some? && capacity <= p.earnedTarget.value <= p.maximumCapacity
    requires steps >= RestoreSteps(p.earnedTarget.value - capacity)
    ensures Restored(p, capacity, steps) == p.earnedTarget.value
  {
    RestorationProgress(p, capacity, steps);
  }
}
