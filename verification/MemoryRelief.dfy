/** What the controller must do, not only what it may: pressure is relieved, a trial that keeps the
    machine busy is taken back, churn gives slots back, and growth comes once every wait has passed. */
module MemoryRelief {
  import opened Wrappers
  import opened MemoryPolicy
  import opened MemorySystem

  // ----- targets

  /** The largest multiple of sixteen below an extent. */
  ghost predicate NextDown(target: nat, capacity: nat) {
    && target % GROWTH_STEP_SLOTS == 0 && target < capacity
    && forall m: nat :: m % GROWTH_STEP_SLOTS == 0 && m < capacity ==> m <= target
  }

  lemma AlignedIsNext(capacity: nat)
    requires capacity > 0
    ensures NextDown(AlignDown(capacity - 1), capacity)
  {
    forall m: nat | m % GROWTH_STEP_SLOTS == 0 && m < capacity ensures m <= AlignDown(capacity - 1) {
      assert m == m / GROWTH_STEP_SLOTS * GROWTH_STEP_SLOTS;
    }
  }

  // ----- one due sample

  /** A check of a bounded system at which a sample is due, and whose resize the engine accepts. */
  ghost predicate Due(s: System, e: Event) {
    Bounded(s) && e.Checked? && SampleDue(s.policy, e.now) && e.engineOk
  }

  /** The policy as the sample's action is chosen. */
  function Seen(s: System, e: Event): Policy
    requires e.Checked?
  {
    Sampled(s.policy, e.now, s.engine, e.boundary, e.reading)
  }

  function StateSeen(s: System, e: Event): State
    requires e.Checked?
  {
    StateAt(s.policy, e.now, e.reading)
  }

  /** What the policy holds as the action is chosen, in terms of what it held before. */
  ghost predicate SeenAs(s: System, e: Event, q: Policy)
    requires e.Checked?
  {
    var p, state := s.policy, StateSeen(s, e);
    && q.lastRelease == p.lastRelease && q.maximumCapacity == p.maximumCapacity && q.lastSample == Some(e.now)
    && q.workspacePhase == p.workspacePhase && q.earnedTarget == p.earnedTarget && q.requestStarted == p.requestStarted
    && q.lastCapacityChange == p.lastCapacityChange && q.state == Some(state)
    && (!UnderPressure(Some(state)) ==>
          && q.trialCapacity == p.trialCapacity && q.trialBase == p.trialBase && q.retryNotBefore == p.retryNotBefore
          && q.completedCleanActive == p.completedCleanActive && !q.stopLatched
          && q.lastSampleTrialActive == TrialActive(p, e.boundary)
          && q.lastChurnSampleActive == (e.boundary == CompletedOperation && p.requestStarted.Some?)
          && q.lastSampleActive == (state == NormalQuiet && p.requestStarted.Some? && ExtentMatches(p, s.engine))
          && q.trialAdverseActive == AdverseAfter(p, e.now, s.engine, e.boundary, state)
          && q.activeChurn == ChurnAfter(p, e.now, e.boundary, e.reading)
          && q.requestCleanActive == CleanAfter(p, e.now, s.engine, state)
          && q.preparationHealthy == PreparationAfter(p, e.now, state)
          && q.quietSince == (if state != NormalQuiet then None else if p.quietSince.Some? then p.quietSince else Some(e.now)))
  }

  lemma SeenKeeps(s: System, e: Event)
    requires e.Checked?
    ensures SeenAs(s, e, Seen(s, e))
  {
    var m := Measured(s.policy, e.now, s.engine, e.boundary, e.reading);
    assert InterruptedWork(m, e.now, false).lastRelease == m.lastRelease;
  }

  /** A due sample: the policy it leaves as its action is chosen, the action, and what comes of it. */
  lemma DueStep(s: System, e: Event) returns (q: Policy, action: Action)
    requires Due(s, e)
    ensures SeenAs(s, e, q) && action == ActionFor(q, e.now, s.engine, StateSeen(s, e))
    ensures Step(s, e).engine == (if action.Hold? || action.Stop? then s.engine else action.target)
    ensures Bounded(Step(s, e)) && Step(s, e).policy.maximumCapacity == s.policy.maximumCapacity
    ensures Releases(action) ==> action.target < s.engine
    ensures action.Recover? ==> action.target > s.engine
    ensures q.trialBase.Some? ==> q.trialBase.value >= MIN_CAPACITY
  {
    q := Seen(s, e);
    action := ActionFor(q, e.now, s.engine, StateSeen(s, e));
    SeenKeeps(s, e);
    StepBounded(s, e);
    SampledBounds(s.policy, e.now, e.boundary, e.reading);
    ActionForInRange(q, e.now, StateSeen(s, e));
  }

  lemma CriticalAction(q: Policy, now: nat, capacity: nat)
    requires capacity > MIN_CAPACITY
    ensures ActionFor(q, now, capacity, CriticalState) == Release(MIN_CAPACITY)
  {
  }

  lemma WarningAction(q: Policy, now: nat, capacity: nat)
    requires capacity >= MIN_CAPACITY
    ensures var due := q.lastRelease.None? || AtLeastAfter(now, q.lastRelease, RELEASE_INTERVAL);
            ActionFor(q, now, capacity, WarningState) ==
            if capacity > MIN_CAPACITY && due then Release(AlignDown(capacity - 1)) else Hold
    ensures capacity > MIN_CAPACITY ==> AlignDown(capacity - 1) >= MIN_CAPACITY
  {
  }

  lemma BusyAction(q: Policy, now: nat, capacity: nat)
    requires q.trialBase.Some? ==> q.trialBase.value >= MIN_CAPACITY
    ensures var action := ActionFor(q, now, capacity, NormalBusy);
            && (q.trialAdverseActive >= ACTIVE_VALIDATION && q.trialBase.Some? && q.trialCapacity == Some(capacity) && q.trialBase.value < capacity ==>
                  action == Rollback(AlignDown(q.trialBase.value)))
            && (q.trialAdverseActive < ACTIVE_VALIDATION || q.trialCapacity.None? ==> action == ChurnAction(q, capacity))
    ensures q.trialBase.Some? ==> AlignDown(q.trialBase.value) >= MIN_CAPACITY
  {
  }

  lemma ChurningAction(q: Policy, capacity: nat)
    requires q.trialBase.None? && capacity >= MIN_CAPACITY
    ensures ChurnAction(q, capacity) == if q.activeChurn >= ACTIVE_VALIDATION && capacity > MIN_CAPACITY then ChurnRelease(AlignDown(capacity - 1)) else Hold
    ensures capacity > MIN_CAPACITY ==> AlignDown(capacity - 1) >= MIN_CAPACITY
  {
  }

  /** A due sample as the action it chooses, performed on the policy it leaves. */
  lemma Acted(s: System, e: Event) returns (a: System, action: Action)
    requires Due(s, e)
    ensures a.engine == s.engine && a.epoch == s.epoch && SeenAs(s, e, a.policy)
    ensures !UnderPressure(Some(StateSeen(s, e))) ==> a.policy.validatedInRequest == s.policy.validatedInRequest && a.policy.capacity == s.engine
    ensures Step(s, e) == Perform(a, e.now, action, true)
    ensures Releases(action) ==> action.target < s.engine
    ensures action.Recover? ==> action.target > s.engine
    ensures StateSeen(s, e) == NormalQuiet ==> action.Hold? || action.Recover?
    ensures StateSeen(s, e) in {NormalBusy, Unknown} ==> action.Hold? || Releases(action)
  {
    var q;
    q, action := DueStep(s, e);
    SeenKeeps(s, e);
    q := Seen(s, e);
    a := s.(policy := WithCounters(Alarmed(q, s.engine, StateSeen(s, e)), e.counters));
    action := ActionFor(q, e.now, s.engine, StateSeen(s, e));
    SampledBounds(s.policy, e.now, e.boundary, e.reading);
    ActionForInRange(q, e.now, StateSeen(s, e));
    NormalActions(q, e.now, s.engine, StateSeen(s, e));
    NormalKeepsValidated(s, e);
  }

  lemma NormalActions(q: Policy, now: nat, capacity: nat, state: State)
    ensures var action := ActionFor(q, now, capacity, state);
            && (state == NormalQuiet ==> action.Hold? || action.Recover?)
            && (state in {NormalBusy, Unknown} ==> action.Hold? || Releases(action))
  {
  }

  lemma NormalKeepsValidated(s: System, e: Event)
    requires e.Checked?
    ensures !UnderPressure(Some(StateSeen(s, e))) ==>
              Seen(s, e).validatedInRequest == s.policy.validatedInRequest && Seen(s, e).capacity == s.engine
  {
  }

  /** Critical pressure above the floor takes the engine to the floor at once. */
  lemma CriticalReleases(s: System, e: Event)
    requires Due(s, e) && e.reading.pressure == Some(Critical) && s.engine > MIN_CAPACITY
    ensures Step(s, e).engine == MIN_CAPACITY
  {
    var q, action := DueStep(s, e);
    CriticalAction(q, e.now, s.engine);
  }

  /** Warning pressure takes the engine down to the next multiple of sixteen, which is never below the
      floor, unless a release in the last five seconds still has to show its effect. */
  lemma WarningReleases(s: System, e: Event)
    requires Due(s, e) && e.reading.pressure == Some(Warning)
    ensures var due := s.policy.lastRelease.None? || AtLeastAfter(e.now, s.policy.lastRelease, RELEASE_INTERVAL);
            if s.engine > MIN_CAPACITY && due then NextDown(Step(s, e).engine, s.engine) && Step(s, e).engine >= MIN_CAPACITY
            else Step(s, e).engine == s.engine
  {
    assert StateSeen(s, e) == WarningState;
    var q, action := DueStep(s, e);
    WarningAction(q, e.now, s.engine);
    if s.engine > MIN_CAPACITY {
      AlignedIsNext(s.engine);
    }
  }

  /** A busy sample that completes fifteen adverse seconds takes a trial back to the multiple of
      sixteen at or below the extent it started from. */
  lemma BusyRollsBack(s: System, e: Event)
    requires Due(s, e) && StateSeen(s, e) == NormalBusy
    requires s.policy.trialCapacity == Some(s.engine) && s.policy.trialBase.value < s.engine
    requires AdverseAfter(s.policy, e.now, s.engine, e.boundary, NormalBusy) >= ACTIVE_VALIDATION
    ensures NextDown(Step(s, e).engine, s.policy.trialBase.value + 1) && Step(s, e).engine >= MIN_CAPACITY
  {
    var q, action := DueStep(s, e);
    BusyAction(q, e.now, s.engine);
    AlignedIsNext(s.policy.trialBase.value + 1);
  }

  /** A sample that completes fifteen churning seconds gives slots back: to the multiple of sixteen at
      or below a trial's start, or else to the next one below. */
  lemma ChurnGivesBack(s: System, e: Event)
    requires Due(s, e) && StateSeen(s, e) in {NormalBusy, Unknown} && s.engine > MIN_CAPACITY
    requires ChurnAfter(s.policy, e.now, e.boundary, e.reading) >= ACTIVE_VALIDATION
    requires s.policy.trialCapacity.None?
    ensures NextDown(Step(s, e).engine, s.engine) && Step(s, e).engine >= MIN_CAPACITY
  {
    var q, action := DueStep(s, e);
    BusyAction(q, e.now, s.engine);
    ChurningAction(q, s.engine);
    AlignedIsNext(s.engine);
  }

  /** Everything that has to hold for a due sample to grow the engine. */
  ghost predicate GrowthIsDue(s: System, e: Event)
    requires e.Checked?
  {
    var p, now := s.policy, e.now;
    var clean := p.completedCleanActive + CleanAfter(p, now, s.engine, NormalQuiet);
    && StateSeen(s, e) == NormalQuiet && p.workspacePhase.None? && s.engine < p.maximumCapacity
    // quiet, settled and not backing off
    && p.quietSince.Some? && now >= p.quietSince.value + RECOVERY_COOLDOWN
    && (p.lastCapacityChange.Some? ==> now >= p.lastCapacityChange.value + RECOVERY_COOLDOWN)
    && (p.retryNotBefore.Some? ==> now >= p.retryNotBefore.value)
    // restoring what was earned, or starting a trial, or going on from one that has proved itself
    && ((p.earnedTarget.Some? && s.engine < p.earnedTarget.value)
        || p.trialCapacity.None?
        || ((if p.requestStarted.Some? then clean >= ACTIVE_VALIDATION else p.completedCleanActive == 0)
            && PreparationAfter(p, now, NormalQuiet) >= ACTIVE_VALIDATION))
  }

  /** The extent growth goes to: the next multiple of sixteen, or the extent being restored or the
      maximum if that is nearer. */
  ghost predicate GrownTo(target: nat, s: System) {
    var p, c := s.policy, s.engine;
    var limit := if p.earnedTarget.Some? && c < p.earnedTarget.value then p.earnedTarget.value else p.maximumCapacity;
    && c < target <= limit && target <= c + GROWTH_STEP_SLOTS
    && (target == limit || (target % GROWTH_STEP_SLOTS == 0 && forall m: nat :: m % GROWTH_STEP_SLOTS == 0 && c < m ==> target <= m))
  }

  lemma NextIsGrown(s: System)
    requires PolicyBounds(s.policy) && s.engine < s.policy.maximumCapacity
    ensures GrownTo(NextCapacity(s.policy, s.engine), s)
  {
    NextCapacityStep(s.policy, s.engine);
    var next := (s.engine / GROWTH_STEP_SLOTS + 1) * GROWTH_STEP_SLOTS;
    forall m: nat | m % GROWTH_STEP_SLOTS == 0 && s.engine < m ensures next <= m {
      assert m == m / GROWTH_STEP_SLOTS * GROWTH_STEP_SLOTS;
    }
  }

  lemma MayGrowWhenDue(s: System, e: Event, q: Policy)
    requires Due(s, e) && SeenAs(s, e, q) && StateSeen(s, e) == NormalQuiet
    ensures MayGrow(q, e.now, s.engine) <==> GrowthIsDue(s, e)
    ensures NextCapacity(q, s.engine) == NextCapacity(s.policy, s.engine)
  {
  }

  /** A due sample grows the engine exactly when growth is due, and then by one step. */
  lemma GrowsWhenDue(s: System, e: Event)
    requires Due(s, e)
    ensures Step(s, e).engine > s.engine <==> GrowthIsDue(s, e)
    ensures GrowthIsDue(s, e) ==> GrownTo(Step(s, e).engine, s)
  {
    var q, action := DueStep(s, e);
    OnlyQuietRecovers(q, e.now, s.engine, StateSeen(s, e));
    if StateSeen(s, e) == NormalQuiet {
      MayGrowWhenDue(s, e, q);
      if GrowthIsDue(s, e) {
        NextIsGrown(s);
      }
    }
  }

  lemma OnlyQuietRecovers(p: Policy, now: nat, capacity: nat, state: State)
    ensures var action := ActionFor(p, now, capacity, state);
            && (state != NormalQuiet ==> !action.Recover?)
            && (state == NormalQuiet ==> !Releases(action) && (action.Recover? <==> MayGrow(p, now, capacity)))
            && (action.Recover? ==> action.target == NextCapacity(p, capacity))
  {
  }

  // ----- between samples, and after a gap

  /** Between samples the engine grows exactly when the last sample left growth due. */
  lemma GrowsBetweenSamples(s: System, e: Event)
    requires Bounded(s) && e.Checked? && e.engineOk && !SampleDue(s.policy, e.now)
    ensures var p, now := s.policy, e.now;
            Step(s, e).engine > s.engine <==>
              && p.lastSample.value <= now && p.state == Some(NormalQuiet) && !p.stopLatched
              && p.workspacePhase.None? && s.engine < p.maximumCapacity
              && p.quietSince.Some? && now >= p.quietSince.value + RECOVERY_COOLDOWN
              && (p.lastCapacityChange.Some? ==> now >= p.lastCapacityChange.value + RECOVERY_COOLDOWN)
              && (p.retryNotBefore.Some? ==> now >= p.retryNotBefore.value)
              && ((p.earnedTarget.Some? && s.engine < p.earnedTarget.value)
                  || p.trialCapacity.None?
                  || ((if p.requestStarted.Some? then p.completedCleanActive + p.requestCleanActive >= ACTIVE_VALIDATION
                       else p.completedCleanActive == 0)
                      && p.preparationHealthy >= ACTIVE_VALIDATION))
    ensures Step(s, e).engine >= s.engine && (Step(s, e).engine > s.engine ==> GrownTo(Step(s, e).engine, s))
  {
    if s.engine < s.policy.maximumCapacity {
      NextIsGrown(s);
    }
  }

  /** A sample that comes too late after the one before it, or is the first, proves nothing quiet: the
      engine does not grow and the quiet time starts over. */
  lemma GapStartsOver(s: System, e: Event)
    requires Due(s, e) && e.reading.pressure == Some(Normal)
    requires s.policy.lastSample.None? || e.now < s.policy.lastSample.value || e.now > s.policy.lastSample.value + SAMPLE_GAP_LIMIT
    ensures Step(s, e).engine <= s.engine && Step(s, e).policy.quietSince.None?
  {
    assert StateSeen(s, e) == Unknown;
    var a, action := Acted(s, e);
    ReleaseForgetsQuiet(a, e.now, action);
  }

  lemma ReleaseForgetsQuiet(s: System, now: nat, action: Action)
    requires s.policy.quietSince.None? && (action.Hold? || (Releases(action) && action.target < s.engine))
    ensures Perform(s, now, action, true).policy.quietSince.None? && Perform(s, now, action, true).engine <= s.engine
  {
  }

  // ----- pressure soon after growth

  /** The policy after an arrival of pressure: it backs off if a trial is pending or the engine grew
      within fifteen seconds, and keeps its backoff otherwise. */
  lemma PressureArrives(s: System, e: Event)
    requires Due(s, e) && e.reading.pressure in {Some(Warning), Some(Critical)} && !UnderPressure(s.policy.state)
    ensures var p, t := s.policy, Step(s, e).policy;
            var soon := p.trialCapacity.Some? || (p.lastIncrease.Some? && p.lastIncrease.value <= e.now <= p.lastIncrease.value + ACTIVE_VALIDATION);
            && t.trialCapacity.None?
            && (soon ==> t.retryDelay == Doubled(p.retryDelay) && t.retryNotBefore == Some(e.now + Doubled(p.retryDelay)))
            && (!soon ==> t.retryDelay == p.retryDelay && t.retryNotBefore == p.retryNotBefore)
  {
    PressedPolicy(s, e);
    PressedAction(s, e);
    ReleaseKeepsBackoff(s.(policy := WithCounters(Alarmed(Seen(s, e), s.engine, StateSeen(s, e)), e.counters)), e.now,
                        ActionFor(Seen(s, e), e.now, s.engine, StateSeen(s, e)));
  }

  lemma PressedPolicy(s: System, e: Event)
    requires e.Checked? && UnderPressure(Some(StateSeen(s, e))) && !UnderPressure(s.policy.state)
    ensures var p, q := s.policy, Seen(s, e);
            var soon := BacksOff(p, e.now, false);
            && q.trialCapacity.None?
            && q.retryDelay == (if soon then Doubled(p.retryDelay) else p.retryDelay)
            && q.retryNotBefore == (if soon then Some(e.now + Doubled(p.retryDelay)) else p.retryNotBefore)
  {
  }

  lemma PressedAction(s: System, e: Event)
    requires Due(s, e) && UnderPressure(Some(StateSeen(s, e)))
    ensures var action := ActionFor(Seen(s, e), e.now, s.engine, StateSeen(s, e));
            (action.Hold? || action.Stop? || action.Release?) && (action.Release? ==> action.target < s.engine)
  {
  }

  lemma ReleaseKeepsBackoff(s: System, now: nat, action: Action)
    requires action.Hold? || action.Stop? || (action.Release? && action.target < s.engine)
    ensures var t := Perform(s, now, action, true).policy;
            && t.retryDelay == s.policy.retryDelay && t.retryNotBefore == s.policy.retryNotBefore
            && (s.policy.trialCapacity.None? ==> t.trialCapacity.None?)
  {
  }

  /** Pressure within fifteen seconds of a growth makes the next one wait twice as long as the last,
      whether or not the growth was a trial. */
  lemma PressureAfterGrowth(s: System, grow: Event, e: Event)
    requires Due(s, grow) && Step(s, grow).engine > s.engine && Due(Step(s, grow), e)
    requires e.reading.pressure in {Some(Warning), Some(Critical)} && grow.now <= e.now <= grow.now + ACTIVE_VALIDATION
    ensures var t := Step(Step(s, grow), e).policy;
            t.retryDelay == Doubled(Step(s, grow).policy.retryDelay) && t.retryNotBefore == Some(e.now + t.retryDelay)
  {
    GrowsWhenDue(s, grow);
    var a, action := Acted(s, grow);
    GrowthIsRecent(a, grow.now, action);
    PressureArrives(Step(s, grow), e);
  }

  lemma GrowthIsRecent(s: System, now: nat, action: Action)
    requires action.Recover? && action.target > s.engine
    ensures var t := Perform(s, now, action, true).policy;
            t.lastIncrease == Some(now) && t.state == s.policy.state
  {
  }

  // ----- the end of a workspace phase

  /** A phase's end restores the ordinary extent exactly when the phase released nothing, no trial is
      pending, and the machine has been quiet, settled and not backing off. */
  lemma RestoresWhenDue(s: System, now: nat)
    requires Bounded(s) && s.policy.workspacePhase.Some?
    ensures var p, ordinary := s.policy, s.policy.workspacePhase.value.ordinaryCapacity;
            var due :=
              && p.workspacePhase.value.pressureReleaseEpoch == s.epoch && p.trialCapacity.None? && !p.stopLatched
              && p.state == Some(NormalQuiet) && p.lastSample.Some? && p.lastSample.value <= now <= p.lastSample.value + SAMPLE_INTERVAL
              && p.quietSince.Some? && now >= p.quietSince.value + RECOVERY_COOLDOWN
              && (p.lastCapacityChange.Some? ==> now >= p.lastCapacityChange.value + RECOVERY_COOLDOWN)
              && (p.retryNotBefore.Some? ==> now >= p.retryNotBefore.value);
            Step(s, PhaseEnds(now, true)).engine == if due then ordinary else s.engine
  {
  }
}
