/** The adaptive expert-capacity policy: one value per policy state, one function per transition.
    Durations are nanoseconds since the controller started. */
module MemoryPolicy {
  import opened Wrappers

  const SECOND: nat := 1_000_000_000
  const SAMPLE_INTERVAL: nat := 1 * SECOND
  const SAMPLE_GAP_LIMIT: nat := 5 * SECOND
  const RELEASE_INTERVAL: nat := 5 * SECOND
  const RECOVERY_COOLDOWN: nat := 5 * SECOND
  const ACTIVE_VALIDATION: nat := 15 * SECOND
  const MAX_RETRY_DELAY: nat := 120 * SECOND
  const COMPRESSION_VETO_BYTES_PER_SECOND: nat := 16_777_216
  const MIN_CAPACITY: nat := 64
  const GROWTH_STEP_SLOTS: nat := 16
  const U64_MAX: nat := 0xFFFF_FFFF_FFFF_FFFF

  datatype Boundary = Observe | RequestStart | CompletedOperation
  datatype Pressure = Normal | Warning | Critical
  datatype State = Unknown | NormalBusy | NormalQuiet | WarningState | CriticalState

  datatype VmCounters = VmCounters(compressions: nat, decompressions: nat, swapins: nat, swapouts: nat, pageBytes: nat)
  datatype Observation = Observation(pressure: Option<Pressure>, counters: Option<VmCounters>)

  datatype Action = Hold | Release(target: nat) | Rollback(target: nat) | ChurnRelease(target: nat) | Recover(target: nat) | Stop

  datatype WorkspacePhase = WorkspacePhase(ordinaryCapacity: nat, pressureReleaseEpoch: nat)

  datatype Policy = Policy(
    preparationHealthy: nat,
    activeChurn: nat,
    lastChurnSampleActive: bool,
    validatedInRequest: Option<nat>,
    initialCapacity: nat,
    maximumCapacity: nat,
    capacity: nat,
    earnedTarget: Option<nat>,
    trialBase: Option<nat>,
    trialCapacity: Option<nat>,
    lastSample: Option<nat>,
    previousCounters: Option<VmCounters>,
    quietSince: Option<nat>,
    requestStarted: Option<nat>,
    lastSampleActive: bool,
    lastSampleTrialActive: bool,
    trialAdverseActive: nat,
    requestCleanActive: nat,
    completedCleanActive: nat,
    lastRelease: Option<nat>,
    lastCapacityChange: Option<nat>,
    lastIncrease: Option<nat>,
    retryDelay: nat,
    retryNotBefore: Option<nat>,
    criticalAtFloor: bool,
    stopLatched: bool,
    state: Option<State>,
    workspacePhase: Option<WorkspacePhase>)

  // ----- small arithmetic

  function Min(a: nat, b: nat): nat { if a < b then a else b }

  function Max(a: nat, b: nat): nat { if a < b then b else a }

  function MaxOpt(a: Option<nat>, b: nat): nat {
    if a.Some? && a.value > b then a.value else b
  }

  /** now is at least `wait` after an earlier time that is present. */
  predicate AtLeastAfter(now: nat, earlier: Option<nat>, wait: nat) {
    earlier.Some? && now >= earlier.value && now - earlier.value >= wait
  }

  /** now is at most `limit` after an earlier time that is present. */
  predicate AtMostAfter(now: nat, earlier: Option<nat>, limit: nat) {
    earlier.Some? && now >= earlier.value && now - earlier.value <= limit
  }

  function AlignDown(n: nat): nat { n / GROWTH_STEP_SLOTS * GROWTH_STEP_SLOTS }

  // ----- observations

  /** Bytes moved between two counter readings, or None for a reset or overflow. */
  function MovedBytes(after: nat, before: nat, pageBytes: nat): Option<nat> {
    if after < before || (after - before) * pageBytes > U64_MAX then None else Some((after - before) * pageBytes)
  }

  /** A byte count over an elapsed time reaches the veto rate. */
  predicate ReachesVeto(bytes: nat, elapsed: nat) {
    bytes * SECOND >= COMPRESSION_VETO_BYTES_PER_SECOND * elapsed
  }

  function QuietSince(after: VmCounters, before: VmCounters, elapsed: nat): Option<bool> {
    if elapsed == 0 || after.pageBytes == 0 || after.pageBytes != before.pageBytes then None else
    var compression := MovedBytes(after.compressions, before.compressions, after.pageBytes);
    var swapOut := MovedBytes(after.swapouts, before.swapouts, after.pageBytes);
    if compression.None? || MovedBytes(after.decompressions, before.decompressions, after.pageBytes).None?
       || MovedBytes(after.swapins, before.swapins, after.pageBytes).None? || swapOut.None?
    then None
    else Some(swapOut.value == 0 && !ReachesVeto(compression.value, elapsed))
  }

  function ChurningSince(after: VmCounters, before: VmCounters, elapsed: nat): Option<bool> {
    var quiet := QuietSince(after, before, elapsed);
    if quiet.None? then None
    else if quiet.value then Some(false)
    else
      var moved := MovedBytes(after.decompressions, before.decompressions, after.pageBytes);
      if moved.None? then None else Some(after.swapouts > before.swapouts || ReachesVeto(moved.value, elapsed))
  }

  function Elapsed(p: Policy, now: nat): Option<nat> {
    if p.lastSample.Some? && now >= p.lastSample.value then Some(now - p.lastSample.value) else None
  }

  predicate Gap(p: Policy, now: nat) {
    var elapsed := Elapsed(p, now);
    elapsed.None? || elapsed.value > SAMPLE_GAP_LIMIT
  }

  /** What one observation says: the kernel's pressure level, and the quiet and churning verdicts
      of the counters against the previous sample's. */
  datatype Reading = Reading(pressure: Option<Pressure>, quiet: Option<bool>, churn: Option<bool>)

  function ReadingAt(p: Policy, now: nat, o: Observation): Reading {
    var elapsed := Elapsed(p, now);
    if o.counters.None? || p.previousCounters.None? || elapsed.None? then Reading(o.pressure, None, None)
    else Reading(o.pressure,
                 QuietSince(o.counters.value, p.previousCounters.value, elapsed.value),
                 ChurningSince(o.counters.value, p.previousCounters.value, elapsed.value))
  }

  /** The sampled state at a time: unknown after a sampling gap or without a verdict. */
  function StateAt(p: Policy, now: nat, r: Reading): State {
    match r.pressure
    case None => Unknown
    case Some(Warning) => WarningState
    case Some(Critical) => CriticalState
    case Some(Normal) =>
      if Gap(p, now) || r.quiet.None? then Unknown else if r.quiet.value then NormalQuiet else NormalBusy
  }

  predicate SampleDue(p: Policy, now: nat) {
    p.lastSample.None? || AtLeastAfter(now, p.lastSample, SAMPLE_INTERVAL)
  }

  // ----- construction and validation resets

  predicate ValidLimits(initialCapacity: nat, maximumCapacity: nat) {
    MIN_CAPACITY <= initialCapacity <= maximumCapacity < 512
  }

  function NewPolicy(initialCapacity: nat, maximumCapacity: nat): Policy {
    Policy(0, 0, false, None, initialCapacity, maximumCapacity, initialCapacity, None, None, None, None, None, None, None,
           false, false, 0, 0, 0, None, None, None, RECOVERY_COOLDOWN, None, false, false, None, None)
  }

  predicate ExtentMatches(p: Policy, capacity: nat) {
    p.workspacePhase.None? || p.workspacePhase.value.ordinaryCapacity == capacity
  }

  function ClearCapacityValidation(p: Policy): Policy {
    p.(preparationHealthy := 0, activeChurn := 0, lastChurnSampleActive := false, validatedInRequest := None,
       requestCleanActive := 0, completedCleanActive := 0, lastSampleActive := false, lastSampleTrialActive := false,
       trialAdverseActive := 0)
  }

  /** Observed adversity belongs to a pending trial and outlives the credit. */
  function ClearWorkspaceValidation(p: Policy): Policy {
    WithAdverse(ClearCapacityValidation(p), if p.trialCapacity.Some? then p.trialAdverseActive else 0)
  }

  function WithAdverse(p: Policy, adverse: nat): Policy {
    p.(trialAdverseActive := adverse)
  }

  // ----- workspace phases

  function EnterPhase(p: Policy, capacity: nat, epoch: nat): Policy {
    p.(workspacePhase := Some(WorkspacePhase(capacity, epoch)))
  }

  function TryBeginPhase(p: Policy, capacity: nat, targetCapacity: nat, epoch: nat): (Policy, Option<bool>) {
    if p.workspacePhase.Some? then (p, None)
    else if !(MIN_CAPACITY <= capacity <= p.maximumCapacity && MIN_CAPACITY <= targetCapacity <= capacity) then (p, None)
    else if p.stopLatched || p.state in {Some(WarningState), Some(CriticalState)} then (p, Some(false))
    else (EnterPhase(if p.capacity != capacity then ClearCapacityValidation(p).(capacity := capacity) else p, capacity, epoch), Some(true))
  }

  /** Record a completed planned resize; None when the extent is outside the phase. */
  function SyncPlanned(p: Policy, now: nat, capacity: nat): Option<Policy> {
    if p.workspacePhase.None? || !(MIN_CAPACITY <= capacity <= p.workspacePhase.value.ordinaryCapacity) then None
    else if p.capacity == capacity then Some(p)
    else Some(Resized(if p.trialCapacity.Some? then ClearWorkspaceValidation(p) else p, now, capacity))
  }

  /** A planned extent, which any pending trial now stands at. */
  function Resized(p: Policy, now: nat, capacity: nat): Policy {
    p.(trialBase := if p.trialCapacity.Some? && p.trialBase.Some? then Some(Min(p.trialBase.value, capacity)) else p.trialBase,
       trialCapacity := if p.trialCapacity.Some? then Some(capacity) else None,
       capacity := capacity, quietSince := None, lastCapacityChange := Some(now),
       lastSampleActive := false, lastSampleTrialActive := false)
  }

  predicate RestorationAllowed(p: Policy, now: nat, epoch: nat) {
    && p.workspacePhase.Some?
    && p.capacity < p.workspacePhase.value.ordinaryCapacity
    && p.workspacePhase.value.pressureReleaseEpoch == epoch
    && p.trialCapacity.None?
    && !p.stopLatched
    && p.state == Some(NormalQuiet)
    && AtMostAfter(now, p.lastSample, SAMPLE_INTERVAL)
    && AtLeastAfter(now, p.quietSince, RECOVERY_COOLDOWN)
    && (p.lastCapacityChange.None? || AtLeastAfter(now, p.lastCapacityChange, RECOVERY_COOLDOWN))
    && (p.retryNotBefore.None? || now >= p.retryNotBefore.value)
  }

  function LeavePhase(p: Policy): Policy {
    p.(workspacePhase := None)
  }

  /** Leave a phase; an extent other than the ordinary one has to be validated afresh. */
  function FinishPhase(p: Policy): Policy {
    if p.workspacePhase.None? then p
    else if p.capacity != p.workspacePhase.value.ordinaryCapacity then ClearWorkspaceValidation(LeavePhase(p))
    else LeavePhase(p)
  }

  // ----- requests

  function BeginRequest(p: Policy, now: nat): Policy {
    p.(lastChurnSampleActive := false, validatedInRequest := None, requestStarted := Some(now), requestCleanActive := 0,
       lastSampleActive := false, lastSampleTrialActive := false)
  }

  /** The request finished its work, its last sample is recent and normal, and the extent is the
      one under validation. */
  predicate CountsTowardValidation(p: Policy, now: nat, completed: bool) {
    && p.requestStarted.Some? && completed
    && AtMostAfter(now, p.lastSample, SAMPLE_GAP_LIMIT)
    && ExtentMatches(p, p.capacity)
    && p.state in {Some(NormalQuiet), Some(NormalBusy)}
  }

  /** Accept what an extent outgrown during the request had already earned. */
  function AcceptOutgrown(p: Policy): Policy {
    if p.validatedInRequest.None? || p.validatedInRequest.value >= p.capacity then p
    else
      p.(earnedTarget := Some(MaxOpt(p.earnedTarget, p.validatedInRequest.value)),
         trialBase := if p.trialCapacity == Some(p.capacity) then Some(MaxOpt(p.trialBase, p.validatedInRequest.value)) else p.trialBase)
  }

  function CompletedTime(p: Policy): nat {
    Min(p.completedCleanActive + p.requestCleanActive, ACTIVE_VALIDATION)
  }

  predicate AcceptsTrial(p: Policy) {
    CompletedTime(p) >= ACTIVE_VALIDATION && p.trialCapacity == Some(p.capacity)
  }

  /** Add the request's clean time, and accept the current extent once enough has completed. */
  function AcceptCurrent(p: Policy): Policy {
    p.(completedCleanActive := CompletedTime(p),
       earnedTarget := if CompletedTime(p) >= ACTIVE_VALIDATION then Some(MaxOpt(p.earnedTarget, p.capacity)) else p.earnedTarget,
       trialBase := if AcceptsTrial(p) then None else p.trialBase,
       trialCapacity := if AcceptsTrial(p) then None else p.trialCapacity,
       trialAdverseActive := if AcceptsTrial(p) then 0 else p.trialAdverseActive,
       retryDelay := if AcceptsTrial(p) then RECOVERY_COOLDOWN else p.retryDelay,
       retryNotBefore := if AcceptsTrial(p) then None else p.retryNotBefore)
  }

  function CloseRequest(p: Policy): Policy {
    p.(validatedInRequest := None, lastChurnSampleActive := false, requestStarted := None,
       lastSampleActive := false, lastSampleTrialActive := false, requestCleanActive := 0)
  }

  function EndRequest(p: Policy, now: nat, completed: bool): Policy {
    CloseRequest(if CountsTowardValidation(p, now, completed) then AcceptCurrent(AcceptOutgrown(p)) else p)
  }

  // ----- growth

  predicate IsRestoring(p: Policy, capacity: nat) {
    p.earnedTarget.Some? && capacity < p.earnedTarget.value
  }

  function Target(p: Policy, capacity: nat): nat {
    if IsRestoring(p, capacity) then p.earnedTarget.value else p.maximumCapacity
  }

  function NextCapacity(p: Policy, capacity: nat): nat {
    var target := Max(Min(Target(p, capacity), p.maximumCapacity), capacity);
    if IsRestoring(p, capacity) && target - capacity <= GROWTH_STEP_SLOTS then target
    else Max(Min((capacity / GROWTH_STEP_SLOTS + 1) * GROWTH_STEP_SLOTS, target), capacity)
  }

  predicate Settled(p: Policy, now: nat) {
    && AtLeastAfter(now, p.quietSince, RECOVERY_COOLDOWN)
    && (p.lastCapacityChange.None? || AtLeastAfter(now, p.lastCapacityChange, RECOVERY_COOLDOWN))
    && (p.retryNotBefore.None? || now >= p.retryNotBefore.value)
  }

  /** Growth is due: restoration of an earned extent, or a trial beyond it that no pending
      validation holds back. */
  predicate MayGrow(p: Policy, now: nat, capacity: nat) {
    && p.workspacePhase.None?
    && capacity < p.maximumCapacity
    && !p.stopLatched
    && p.state == Some(NormalQuiet)
    && Settled(p, now)
    && (IsRestoring(p, capacity)
        || p.trialCapacity.None?
        || ((if p.requestStarted.Some? then p.completedCleanActive + p.requestCleanActive >= ACTIVE_VALIDATION
             else p.completedCleanActive == 0)
            && p.preparationHealthy >= ACTIVE_VALIDATION))
  }

  function RecoveryAction(p: Policy, now: nat, capacity: nat): Action {
    if MayGrow(p, now, capacity) then Recover(NextCapacity(p, capacity)) else Hold
  }

  function CachedAction(p: Policy, now: nat, capacity: nat): Action {
    if !AtMostAfter(now, p.lastSample, SAMPLE_INTERVAL) then Hold
    else if p.stopLatched && capacity == MIN_CAPACITY then Stop
    else RecoveryAction(p, now, capacity)
  }

  // ----- interruption and backoff

  function Doubled(delay: nat): nat { Min(2 * delay, MAX_RETRY_DELAY) }

  /** Whether an interruption at a time backs off: a pending trial, a recent increase, or always. */
  predicate BacksOff(p: Policy, now: nat, always: bool) {
    p.trialCapacity.Some? || AtMostAfter(now, p.lastIncrease, ACTIVE_VALIDATION) || always
  }

  function InterruptedWork(p: Policy, now: nat, always: bool): Policy {
    ClearCapacityValidation(p).(
      trialCapacity := None, trialBase := None, lastIncrease := None,
      retryDelay := if BacksOff(p, now, always) then Doubled(p.retryDelay) else p.retryDelay,
      retryNotBefore := if BacksOff(p, now, always) then Some(now + Doubled(p.retryDelay)) else p.retryNotBefore)
  }

  function RecoveryFailed(p: Policy, now: nat): Policy {
    p.(quietSince := None, retryDelay := Doubled(p.retryDelay), retryNotBefore := Some(now + Doubled(p.retryDelay)))
  }

  // ----- capacity changes

  function ValidationBeforeGrowth(p: Policy, newCapacity: nat): Option<nat> {
    if newCapacity <= p.capacity then None
    else if p.requestStarted.Some? && ExtentMatches(p, p.capacity) && p.completedCleanActive + p.requestCleanActive >= ACTIVE_VALIDATION
    then Some(MaxOpt(p.validatedInRequest, p.capacity))
    else p.validatedInRequest
  }

  /** A growth past what has been earned is a trial of the new extent. */
  predicate OpensTrial(p: Policy, oldCapacity: nat, newCapacity: nat) {
    newCapacity > oldCapacity && !(p.earnedTarget.Some? && newCapacity <= p.earnedTarget.value)
  }

  function CapacityChanged(p: Policy, now: nat, oldCapacity: nat, newCapacity: nat): Policy {
    ClearCapacityValidation(p).(
      capacity := newCapacity, quietSince := None,
      validatedInRequest := ValidationBeforeGrowth(p, newCapacity),
      trialAdverseActive := if newCapacity > oldCapacity && p.trialCapacity == Some(oldCapacity) then p.trialAdverseActive else 0,
      lastCapacityChange := Some(now),
      lastIncrease := if newCapacity > oldCapacity then Some(now) else p.lastIncrease,
      lastRelease := if newCapacity < oldCapacity then Some(now) else p.lastRelease,
      trialBase := if newCapacity < oldCapacity then None
                   else if OpensTrial(p, oldCapacity, newCapacity) then Some(if p.trialBase.Some? then p.trialBase.value else oldCapacity)
                   else p.trialBase,
      trialCapacity := if newCapacity < oldCapacity then None
                       else if OpensTrial(p, oldCapacity, newCapacity) then Some(newCapacity) else p.trialCapacity)
  }

  // ----- sampling

  predicate TrialIntervalStarted(p: Policy) {
    p.workspacePhase.None? || (p.requestStarted.Some? && p.lastSample.Some? && p.requestStarted.value <= p.lastSample.value)
  }

  /** Active churn time after a sample: churning intervals of completed work add to it, calm ones
      subtract, and anything else clears it. */
  function ChurnAfter(p: Policy, now: nat, boundary: Boundary, r: Reading): nat {
    var active := boundary == CompletedOperation && p.requestStarted.Some?;
    var intervalActive := active && p.lastChurnSampleActive && p.lastSample.Some? && p.lastSample.value >= p.requestStarted.value;
    var elapsed := Elapsed(p, now);
    var credit := if elapsed.None? then 0 else Min(elapsed.value, SAMPLE_GAP_LIMIT);
    if intervalActive && r.pressure == Some(Normal) then
      match r.churn
      case Some(true) => Min(p.activeChurn + credit, ACTIVE_VALIDATION)
      case Some(false) => if p.activeChurn < credit then 0 else p.activeChurn - credit
      case None => 0
    else if !active || r.pressure != Some(Normal) || r.churn.None? then 0
    else p.activeChurn
  }

  predicate TrialActive(p: Policy, boundary: Boundary) {
    p.workspacePhase.None? || (p.requestStarted.Some? && boundary == CompletedOperation)
  }

  /** Adverse time of the unaccepted trial after a sample. */
  function AdverseAfter(p: Policy, now: nat, capacity: nat, boundary: Boundary, state: State): nat {
    if p.trialCapacity == Some(capacity) && state == NormalBusy && !Gap(p, now) && TrialActive(p, boundary)
       && p.lastSampleTrialActive && TrialIntervalStarted(p)
    then Min(p.trialAdverseActive + Elapsed(p, now).value, ACTIVE_VALIDATION)
    else p.trialAdverseActive
  }

  /** The interval since the last sample earns clean request time: both ends quiet, inside one
      request, at the extent under validation, with no sampling gap. */
  predicate EarnsCleanTime(p: Policy, now: nat, capacity: nat, state: State) {
    && state == NormalQuiet && p.requestStarted.Some? && ExtentMatches(p, capacity)
    && !Gap(p, now)
    && p.state == Some(NormalQuiet)
    && p.lastSampleActive
    && p.lastSample.Some? && p.requestStarted.value <= p.lastSample.value
  }

  function CleanAfter(p: Policy, now: nat, capacity: nat, state: State): nat {
    if EarnsCleanTime(p, now, capacity, state) then Min(p.requestCleanActive + Elapsed(p, now).value, ACTIVE_VALIDATION)
    else p.requestCleanActive
  }

  /** Quiet storage time since the last capacity change, outside workspace phases. */
  function PreparationAfter(p: Policy, now: nat, state: State): nat {
    if p.workspacePhase.Some? || state != NormalQuiet || p.state != Some(NormalQuiet) || Gap(p, now)
       || !(p.lastSample.Some? && (p.lastCapacityChange.None? || p.lastSample.value >= p.lastCapacityChange.value))
    then p.preparationHealthy
    else Min(p.preparationHealthy + Elapsed(p, now).value, ACTIVE_VALIDATION)
  }

  /** The policy once a due sample's measurements are recorded, before pressure is acted on. */
  function Measured(p: Policy, now: nat, capacity: nat, boundary: Boundary, r: Reading): Policy {
    var state := StateAt(p, now, r);
    p.(capacity := capacity,
       activeChurn := ChurnAfter(p, now, boundary, r),
       lastChurnSampleActive := boundary == CompletedOperation && p.requestStarted.Some?,
       trialAdverseActive := AdverseAfter(p, now, capacity, boundary, state),
       lastSampleTrialActive := TrialActive(p, boundary),
       quietSince := if state != NormalQuiet then None else if p.quietSince.Some? then p.quietSince else Some(now),
       requestCleanActive := CleanAfter(p, now, capacity, state),
       lastSampleActive := state == NormalQuiet && p.requestStarted.Some? && ExtentMatches(p, capacity),
       preparationHealthy := PreparationAfter(p, now, state),
       lastSample := Some(now))
  }

  predicate UnderPressure(state: Option<State>) {
    state in {Some(WarningState), Some(CriticalState)}
  }

  predicate EntersPressure(p: Policy, state: State) {
    UnderPressure(Some(state)) && !UnderPressure(p.state)
  }

  function Entered(p: Policy, state: State): Policy {
    p.(state := Some(state),
       criticalAtFloor := state == CriticalState && p.criticalAtFloor,
       stopLatched := state == CriticalState && p.stopLatched)
  }

  /** The policy after a due sample, before its action is chosen. */
  function Sampled(p: Policy, now: nat, capacity: nat, boundary: Boundary, r: Reading): Policy {
    Entered(
      if EntersPressure(p, StateAt(p, now, r)) then InterruptedWork(Measured(p, now, capacity, boundary, r), now, false)
      else Measured(p, now, capacity, boundary, r),
      StateAt(p, now, r))
  }

  function RollbackBase(p: Policy, capacity: nat): Option<nat> {
    if p.trialBase.Some? && p.trialCapacity == Some(capacity) && p.trialBase.value < capacity then p.trialBase else None
  }

  function ChurnTarget(p: Policy, capacity: nat): nat
    requires capacity > 0
  {
    Max(if p.trialBase.Some? && p.trialBase.value < capacity then AlignDown(p.trialBase.value) else AlignDown(capacity - 1), MIN_CAPACITY)
  }

  function ChurnAction(p: Policy, capacity: nat): Action {
    if p.activeChurn >= ACTIVE_VALIDATION && capacity > MIN_CAPACITY then ChurnRelease(ChurnTarget(p, capacity)) else Hold
  }

  /** The action for a sampled policy. */
  function ActionFor(p: Policy, now: nat, capacity: nat, state: State): Action {
    match state
    case CriticalState =>
      if capacity > MIN_CAPACITY then Release(MIN_CAPACITY) else if p.criticalAtFloor then Stop else Hold
    case WarningState =>
      if capacity > MIN_CAPACITY && (p.lastRelease.None? || AtLeastAfter(now, p.lastRelease, RELEASE_INTERVAL))
      then Release(Max(AlignDown(capacity - 1), MIN_CAPACITY)) else Hold
    case NormalQuiet => RecoveryAction(p, now, capacity)
    case NormalBusy =>
      if p.trialAdverseActive >= ACTIVE_VALIDATION && RollbackBase(p, capacity).Some?
      then Rollback(Max(AlignDown(RollbackBase(p, capacity).value), MIN_CAPACITY))
      else ChurnAction(p, capacity)
    case Unknown => ChurnAction(p, capacity)
  }

  /** Critical pressure is remembered; persisting at the floor it latches the stop. */
  function Alarmed(p: Policy, capacity: nat, state: State): Policy {
    p.(criticalAtFloor := p.criticalAtFloor || state == CriticalState,
       stopLatched := p.stopLatched || (state == CriticalState && capacity <= MIN_CAPACITY && p.criticalAtFloor))
  }

  function WithCounters(p: Policy, counters: Option<VmCounters>): Policy {
    p.(previousCounters := counters)
  }

  /** Take a sample if one is due; None when it is not. */
  function ObserveSample(p: Policy, now: nat, capacity: nat, boundary: Boundary, r: Reading, counters: Option<VmCounters>): (Policy, Option<Action>) {
    if !SampleDue(p, now) then (p, None) else
    var q := Sampled(p, now, capacity, boundary, r);
    var state := StateAt(p, now, r);
    (WithCounters(Alarmed(q, capacity, state), counters), Some(ActionFor(q, now, capacity, state)))
  }
}
