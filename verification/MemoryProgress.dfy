/** What runs of checks come to: pressure that lasts reaches the floor, a trial that stays busy is
    taken back, churn that lasts gives slots back, clean time is earned, and quiet leads to growth. */
module MemoryProgress {
  import opened Wrappers
  import opened MemoryPolicy
  import opened MemorySystem
  import opened MemoryRelief
  import MemoryPacing
  import MemoryRefusal

  // ----- runs of checks

  /** The time of the last check, or the given one if there is none. */
  function LastTime(events: seq<Event>, from: nat): nat {
    if events != [] && events[|events| - 1].Checked? then events[|events| - 1].now else from
  }

  /** Checks only, each of whose resizes the engine accepts, each at least some time after the one
      before it and not too late after it, the first after a given time. */
  ghost predicate Spaced(events: seq<Event>, from: nat, least: nat, most: Option<nat>) {
    events == [] ||
    var front, e := events[..|events| - 1], events[|events| - 1];
    && Spaced(front, from, least, most)
    && e.Checked? && e.engineOk && LastTime(front, from) + least <= e.now
    && (most.Some? ==> e.now <= LastTime(front, from) + most.value)
  }

  /** Samples often enough for every interval to count. */
  ghost predicate Steady(events: seq<Event>, from: nat) {
    Spaced(events, from, SAMPLE_INTERVAL, Some(SAMPLE_GAP_LIMIT))
  }

  lemma NextDue(s: System, last: nat, e: Event)
    requires Bounded(s) && s.policy.lastSample == Some(last) && e.Checked? && e.engineOk && last + SAMPLE_INTERVAL <= e.now
    ensures Due(s, e)
  {
  }

  // ----- lasting pressure

  /** The last sample's time, and no release after it. */
  ghost predicate Relieving(s: System, last: nat) {
    && Bounded(s) && s.policy.lastSample == Some(last)
    && (s.policy.lastRelease.Some? ==> s.policy.lastRelease.value <= last)
  }

  /** The extent after some Warning samples: first the multiple of sixteen below, then sixteen less
      each time, down to the floor. */
  function AfterWarnings(capacity: nat, n: nat): nat {
    if n == 0 || capacity <= MIN_CAPACITY then capacity
    else if AlignDown(capacity - 1) <= MIN_CAPACITY + GROWTH_STEP_SLOTS * (n - 1) then MIN_CAPACITY
    else AlignDown(capacity - 1) - GROWTH_STEP_SLOTS * (n - 1)
  }

  /** A check records its sample's time, and as the last release only its own. */
  lemma LastReleaseAfter(s: System, e: Event)
    requires Due(s, e)
    ensures var t := Step(s, e).policy;
            && t.lastSample == Some(e.now)
            && t.lastRelease == if Step(s, e).engine < s.engine then Some(e.now) else s.policy.lastRelease
  {
    StepRelease(s, e);
    var a, action := Acted(s, e);
    PerformedSample(a, e.now, action, true);
  }

  lemma PerformedSample(s: System, now: nat, action: Action, engineOk: bool)
    ensures Perform(s, now, action, engineOk).policy.lastSample == s.policy.lastSample
  {
  }

  lemma WarningStep(s: System, e: Event)
    requires Due(s, e) && e.reading.pressure == Some(Warning)
    requires s.policy.lastRelease.None? || AtLeastAfter(e.now, s.policy.lastRelease, RELEASE_INTERVAL)
    ensures Relieving(Step(s, e), e.now)
    ensures Step(s, e).engine == AfterWarnings(s.engine, 1)
  {
    var q, action := DueStep(s, e);
    WarningReleases(s, e);
    if s.engine > MIN_CAPACITY {
      AlignedIsNext(s.engine);
    }
    LastReleaseAfter(s, e);
  }

  lemma OneMoreWarning(capacity: nat, n: nat)
    requires capacity >= MIN_CAPACITY
    ensures AfterWarnings(capacity, n) >= MIN_CAPACITY && AfterWarnings(AfterWarnings(capacity, n), 1) == AfterWarnings(capacity, n + 1)
  {
  }

  /** Samples under Warning pressure at least five seconds apart, with their releases accepted, take
      the engine down step by step. */
  lemma {:induction false} WarningsStepDown(s: System, from: nat, events: seq<Event>)
    requires Relieving(s, from) && Spaced(events, from, RELEASE_INTERVAL, None)
    requires forall i :: 0 <= i < |events| ==> events[i].Checked? && events[i].reading.pressure == Some(Warning)
    ensures Relieving(Run(s, events), LastTime(events, from)) && Run(s, events).engine == AfterWarnings(s.engine, |events|)
  {
    if events != [] {
      var front, e := events[..|events| - 1], events[|events| - 1];
      WarningsStepDown(s, from, front);
      NextDue(Run(s, front), LastTime(front, from), e);
      WarningStep(Run(s, front), e);
      OneMoreWarning(s.engine, |front|);
    }
  }

  /** So they reach the floor in as many samples as there are steps of sixteen above it. */
  lemma WarningsReachFloor(s: System, from: nat, events: seq<Event>)
    requires Relieving(s, from) && Spaced(events, from, RELEASE_INTERVAL, None)
    requires forall i :: 0 <= i < |events| ==> events[i].Checked? && events[i].reading.pressure == Some(Warning)
    requires GROWTH_STEP_SLOTS * |events| >= s.engine - MIN_CAPACITY
    ensures Run(s, events).engine == MIN_CAPACITY
  {
    WarningsStepDown(s, from, events);
    FloorReached(s.engine, |events|);
  }

  lemma FloorReached(capacity: nat, n: nat)
    requires capacity >= MIN_CAPACITY && GROWTH_STEP_SLOTS * n >= capacity - MIN_CAPACITY
    ensures AfterWarnings(capacity, n) == MIN_CAPACITY
  {
  }

  // ----- when the last release was

  /** The time of the last check that shrank the engine. */
  function LastShrink(s: System, events: seq<Event>): Option<nat> {
    if events == [] then None else
    var front, e := events[..|events| - 1], events[|events| - 1];
    if e.Checked? && Run(s, events).engine < Run(s, front).engine then Some(e.now) else LastShrink(s, front)
  }

  lemma CheckedRelease(s: System, e: Event)
    requires Bounded(s) && e.Checked?
    ensures Step(s, e).policy.lastRelease == if Step(s, e).engine < s.engine then Some(e.now) else s.policy.lastRelease
  {
    PollBounds(s, e.now, e.boundary, e.reading, e.counters);
    PolledRelease(s, e);
    var polled := Poll(s, e.now, e.boundary, e.reading, e.counters);
    PerformedRelease(s.(policy := polled.0), e.now, polled.1, e.engineOk);
  }

  lemma PolledRelease(s: System, e: Event)
    requires e.Checked?
    ensures Poll(s, e.now, e.boundary, e.reading, e.counters).0.lastRelease == s.policy.lastRelease
  {
    SeenKeeps(s, e);
  }

  lemma PerformedRelease(s: System, now: nat, action: Action, engineOk: bool)
    requires Bounded(s) && ActionInRange(s.policy, now, action)
    ensures var t := Perform(s, now, action, engineOk);
            t.policy.lastRelease == if t.engine < s.engine then Some(now) else s.policy.lastRelease
  {
  }

  lemma EndedRelease(p: Policy, now: nat, completed: bool)
    ensures EndRequest(p, now, completed).lastRelease == p.lastRelease
  {
    assert AcceptCurrent(AcceptOutgrown(p)).lastRelease == p.lastRelease;
  }

  lemma StepRelease(s: System, e: Event)
    requires Bounded(s)
    ensures Step(s, e).policy.lastRelease ==
            if e.Checked? && Step(s, e).engine < s.engine then Some(e.now) else s.policy.lastRelease
  {
    match e
    case RequestBegins(now) =>
    case RequestEnds(now, completed) => EndedRelease(s.policy, now, completed);
    case Checked(now, boundary, r, counters, engineOk) =>
      CheckedRelease(s, e);
    case PhaseBegins(target) =>
    case PlannedResize(now, capacity) => PlannedRelease(s, now, capacity);
    case PhaseEnds(now, engineOk) => PhaseEndRelease(s, now, engineOk);
  }

  lemma PlannedRelease(s: System, now: nat, capacity: nat)
    ensures Planned(s, now, capacity).policy.lastRelease == s.policy.lastRelease
  {
  }

  lemma PhaseEndRelease(s: System, now: nat, engineOk: bool)
    ensures EndPhase(s, now, engineOk).policy.lastRelease == s.policy.lastRelease
  {
    if s.policy.workspacePhase.Some? {
      PlannedRelease(s, now, s.policy.workspacePhase.value.ordinaryCapacity);
      FinishedRelease(RestoreOrdinary(s, now, engineOk).policy);
    }
  }

  lemma FinishedRelease(p: Policy)
    ensures FinishPhase(p).lastRelease == p.lastRelease
  {
  }

  /** In every run the five seconds between releases are counted from the last one there was. */
  lemma {:induction false} RunLastRelease(initialCapacity: nat, maximumCapacity: nat, events: seq<Event>)
    requires ValidLimits(initialCapacity, maximumCapacity)
    ensures var s := NewSystem(initialCapacity, maximumCapacity);
            Run(s, events).policy.lastRelease == LastShrink(s, events)
  {
    if events != [] {
      var front := events[..|events| - 1];
      RunLastRelease(initialCapacity, maximumCapacity, front);
      RunBounded(initialCapacity, maximumCapacity, front);
      StepRelease(Run(NewSystem(initialCapacity, maximumCapacity), front), events[|events| - 1]);
    }
  }

  // ----- a trial that stays busy

  /** A completed operation's sample of a busy machine. */
  ghost predicate BusyCheck(e: Event) {
    e.Checked? && e.boundary == CompletedOperation && e.reading.pressure == Some(Normal) && e.reading.quiet == Some(false)
  }

  /** A request under way outside any phase, sampled last at a time. */
  ghost predicate Working(s: System, last: nat) {
    && Bounded(s) && s.policy.lastSample == Some(last) && s.policy.workspacePhase.None?
    && s.policy.requestStarted.Some? && s.policy.requestStarted.value <= last
  }

  /** A trial at the engine's extent that has been busy for some time, with no churn about to act. */
  ghost predicate OnTrial(s: System, last: nat, base: nat, busy: nat) {
    && Working(s, last) && s.policy.trialCapacity == Some(s.engine) && s.policy.trialBase == Some(base) && base < s.engine
    && s.policy.lastSampleTrialActive && s.policy.trialAdverseActive == busy < ACTIVE_VALIDATION
    && s.policy.activeChurn < ACTIVE_VALIDATION
  }

  ghost predicate TakenBack(s: System, last: nat, base: nat) {
    && Working(s, last) && s.policy.trialCapacity.None? && NextDown(s.engine, base + 1)
    && s.policy.activeChurn < ACTIVE_VALIDATION
  }

  lemma BusySeen(s: System, last: nat, e: Event)
    requires Working(s, last) && BusyCheck(e) && last < e.now <= last + SAMPLE_GAP_LIMIT
    ensures StateSeen(s, e) == NormalBusy && Elapsed(s.policy, e.now) == Some(e.now - last)
  {
  }

  /** Without churn, churning time does not grow. */
  lemma ChurnFades(s: System, e: Event)
    requires BusyCheck(e) && e.reading.churn != Some(true) && s.policy.activeChurn < ACTIVE_VALIDATION
    ensures ChurnAfter(s.policy, e.now, e.boundary, e.reading) < ACTIVE_VALIDATION
  {
  }

  /** One more busy sample: the trial's busy time grows by the interval, and at fifteen seconds the
      trial is taken back to where it started. */
  lemma TrialStep(s: System, e: Event, last: nat, base: nat, busy: nat)
    requires OnTrial(s, last, base, busy) && BusyCheck(e) && e.engineOk && e.reading.churn != Some(true)
    requires last + SAMPLE_INTERVAL <= e.now <= last + SAMPLE_GAP_LIMIT
    ensures var t, sum := Step(s, e), busy + (e.now - last);
            if sum < ACTIVE_VALIDATION then t.engine == s.engine && OnTrial(t, e.now, base, sum) else TakenBack(t, e.now, base)
  {
    NextDue(s, last, e);
    BusySeen(s, last, e);
    ChurnFades(s, e);
    SeenKeeps(s, e);
    if busy + (e.now - last) >= ACTIVE_VALIDATION {
      BusyRollsBack(s, e);
    }
    var q, action := DueStep(s, e);
    BusyKeeps(s, e, last);
  }

  /** What acting on a sample leaves, when it releases or does nothing. */
  lemma ActedBusy(s: System, now: nat, action: Action)
    requires action.Hold? || Releases(action)
    requires Releases(action) ==> action.target < s.engine
    ensures var t, p := Perform(s, now, action, true), s.policy;
            && t.policy.lastSample == p.lastSample && t.policy.requestStarted == p.requestStarted
            && t.policy.workspacePhase == p.workspacePhase && t.policy.earnedTarget == p.earnedTarget
            && (action.Hold? ==> t == s)
            && (Releases(action) ==> t.engine == action.target && t.policy.trialCapacity.None? && t.policy.activeChurn == 0)
  {
  }

  /** What else a busy sample leaves: the request goes on, and either nothing was released and the
      trial stands as measured, or it was and no trial or churn is left. */
  lemma BusyKeeps(s: System, e: Event, last: nat)
    requires Due(s, e) && Working(s, last) && BusyCheck(e) && last < e.now <= last + SAMPLE_GAP_LIMIT
    ensures var t, p := Step(s, e), s.policy;
            && Working(t, e.now) && t.engine <= s.engine && t.policy.earnedTarget == p.earnedTarget
            && (t.engine == s.engine ==>
                  && t.policy.trialCapacity == p.trialCapacity && t.policy.trialBase == p.trialBase
                  && t.policy.trialAdverseActive == AdverseAfter(p, e.now, s.engine, e.boundary, NormalBusy)
                  && t.policy.activeChurn == ChurnAfter(p, e.now, e.boundary, e.reading)
                  && t.policy.lastSampleTrialActive && t.policy.lastChurnSampleActive)
            && (t.engine < s.engine ==> t.policy.trialCapacity.None? && t.policy.activeChurn == 0)
  {
    BusySeen(s, last, e);
    StepBounded(s, e);
    var a, action := Acted(s, e);
    ActedBusy(a, e.now, action);
  }

  /** Once taken back, the engine stays where it is while the machine is busy without churn. */
  lemma TakenBackStays(s: System, e: Event, last: nat, base: nat)
    requires TakenBack(s, last, base) && BusyCheck(e) && e.engineOk && e.reading.churn != Some(true)
    requires last + SAMPLE_INTERVAL <= e.now <= last + SAMPLE_GAP_LIMIT
    ensures Step(s, e).engine == s.engine && TakenBack(Step(s, e), e.now, base)
  {
    NextDue(s, last, e);
    BusySeen(s, last, e);
    ChurnFades(s, e);
    var q, action := DueStep(s, e);
    BusyKeeps(s, e, last);
  }

  ghost predicate BusyWithoutChurn(events: seq<Event>) {
    forall i :: 0 <= i < |events| ==> BusyCheck(events[i]) && events[i].reading.churn != Some(true)
  }

  /** A trial whose request keeps the machine busy is taken back, to the multiple of sixteen at or below
      the extent it started from, exactly once it has been busy for fifteen seconds. */
  lemma {:induction false} BusyTrialIsTakenBack(s: System, from: nat, base: nat, busy: nat, events: seq<Event>)
    requires OnTrial(s, from, base, busy) && Steady(events, from) && BusyWithoutChurn(events)
    ensures var t, last := Run(s, events), LastTime(events, from);
            last >= from && if busy + (last - from) < ACTIVE_VALIDATION then t.engine == s.engine && OnTrial(t, last, base, busy + (last - from))
                            else TakenBack(t, last, base)
  {
    if events != [] {
      var front, e := events[..|events| - 1], events[|events| - 1];
      BusyTrialIsTakenBack(s, from, base, busy, front);
      var t, last := Run(s, front), LastTime(front, from);
      if busy + (last - from) < ACTIVE_VALIDATION {
        TrialStep(t, e, last, base, busy + (last - from));
      } else {
        TakenBackStays(t, e, last, base);
      }
    }
  }

  // ----- growth that is taken back

  /** Growth past everything earned, with no trial pending, is a trial from the extent it grew from. */
  lemma GrowthOpensTrial(s: System, e: Event)
    requires Due(s, e) && Step(s, e).engine > s.engine && s.policy.trialCapacity.None?
    requires s.policy.earnedTarget.Some? ==> Step(s, e).engine > s.policy.earnedTarget.value
    ensures var t := Step(s, e);
            && t.policy.trialCapacity == Some(t.engine) && t.policy.trialBase == Some(s.engine)
            && t.policy.trialAdverseActive == 0 && t.policy.activeChurn == 0 && !t.policy.lastSampleTrialActive
            && t.policy.lastSample == Some(e.now) && t.policy.requestStarted == s.policy.requestStarted
            && t.policy.workspacePhase == s.policy.workspacePhase && Bounded(t)
  {
    StepBounded(s, e);
    GrowsWhenDue(s, e);
    var a, action := Acted(s, e);
    ActedQuiet(a, e.now, action);
  }

  /** What acting on a sample leaves, when it grows or does nothing. */
  lemma ActedQuiet(s: System, now: nat, action: Action)
    requires action.Hold? || action.Recover?
    requires action.Recover? ==> action.target > s.engine == s.policy.capacity
    ensures var t, p := Perform(s, now, action, true), s.policy;
            && t.policy.lastSample == p.lastSample && t.policy.requestStarted == p.requestStarted && t.policy.state == p.state
            && t.policy.workspacePhase == p.workspacePhase && t.policy.earnedTarget == p.earnedTarget
            && t.policy.maximumCapacity == p.maximumCapacity
            && (action.Hold? ==> t == s)
            && (action.Recover? ==>
                  && t.engine == action.target && t.policy.capacity == action.target && t.policy.activeChurn == 0 && !t.policy.lastSampleTrialActive
                  && t.policy.validatedInRequest == ValidationBeforeGrowth(p, action.target)
                  && (p.trialCapacity.None? ==> t.policy.trialAdverseActive == 0)
                  && (p.trialCapacity.None? && p.trialBase.None? && !(p.earnedTarget.Some? && action.target <= p.earnedTarget.value) ==>
                        t.policy.trialCapacity == Some(action.target) && t.policy.trialBase == Some(s.engine)))
  {
  }

  /** The first sample after a growth starts the trial's busy time. */
  lemma FirstBusySample(s: System, e: Event, last: nat, base: nat)
    requires Working(s, last) && s.policy.trialCapacity == Some(s.engine) && s.policy.trialBase == Some(base) && base < s.engine
    requires s.policy.trialAdverseActive == 0 && s.policy.activeChurn == 0 && !s.policy.lastSampleTrialActive
    requires BusyCheck(e) && e.engineOk && e.reading.churn != Some(true) && last + SAMPLE_INTERVAL <= e.now <= last + SAMPLE_GAP_LIMIT
    ensures Step(s, e).engine == s.engine && OnTrial(Step(s, e), e.now, base, 0)
  {
    NextDue(s, last, e);
    BusySeen(s, last, e);
    ChurnFades(s, e);
    var q, action := DueStep(s, e);
    BusyKeeps(s, e, last);
  }

  /** A round trip: growth past everything earned, met by fifteen busy seconds, is undone down to the
      multiple of sixteen at or below the extent it grew from; until then it stands. */
  lemma GrowthIsTakenBack(s: System, grow: Event, first: Event, events: seq<Event>)
    requires Due(s, grow) && Step(s, grow).engine > s.engine && s.policy.trialCapacity.None?
    requires s.policy.earnedTarget.Some? ==> Step(s, grow).engine > s.policy.earnedTarget.value
    requires s.policy.workspacePhase.None? && s.policy.requestStarted.Some? && s.policy.requestStarted.value <= grow.now
    requires BusyCheck(first) && first.engineOk && first.reading.churn != Some(true)
    requires grow.now + SAMPLE_INTERVAL <= first.now <= grow.now + SAMPLE_GAP_LIMIT
    requires Steady(events, first.now) && BusyWithoutChurn(events)
    ensures var grown, t := Step(s, grow).engine, Run(Step(Step(s, grow), first), events);
            if LastTime(events, first.now) < first.now + ACTIVE_VALIDATION then t.engine == grown else NextDown(t.engine, s.engine + 1)
  {
    GrowthOpensTrial(s, grow);
    FirstBusySample(Step(s, grow), first, grow.now, s.engine);
    BusyTrialIsTakenBack(Step(Step(s, grow), first), first.now, s.engine, 0, events);
  }

  // ----- churn that lasts

  /** A churning operation's sample. */
  ghost predicate ChurnCheck(e: Event) {
    BusyCheck(e) && e.reading.churn == Some(true)
  }

  /** A request whose operations have churned for some time, above the floor and with no trial. */
  ghost predicate Churning(s: System, last: nat, churned: nat) {
    && Working(s, last) && s.policy.trialCapacity.None? && s.engine > MIN_CAPACITY
    && s.policy.lastChurnSampleActive && s.policy.activeChurn == churned < ACTIVE_VALIDATION
  }

  /** Slots have been given back since the extent was some other. */
  ghost predicate GaveBack(s: System, last: nat, capacity: nat) {
    Working(s, last) && s.policy.trialCapacity.None? && s.engine < capacity
  }

  /** One more churning operation: its interval counts, and at fifteen seconds slots go back, down to
      the multiple of sixteen below. */
  lemma ChurnStep(s: System, e: Event, last: nat, churned: nat)
    requires Churning(s, last, churned) && ChurnCheck(e) && e.engineOk
    requires last + SAMPLE_INTERVAL <= e.now <= last + SAMPLE_GAP_LIMIT
    ensures var t, sum := Step(s, e), churned + (e.now - last);
            if sum < ACTIVE_VALIDATION then t.engine == s.engine && Churning(t, e.now, sum)
            else NextDown(t.engine, s.engine) && GaveBack(t, e.now, s.engine)
  {
    NextDue(s, last, e);
    BusySeen(s, last, e);
    SeenKeeps(s, e);
    assert ChurnAfter(s.policy, e.now, e.boundary, e.reading) == Min(churned + (e.now - last), ACTIVE_VALIDATION);
    if churned + (e.now - last) >= ACTIVE_VALIDATION {
      ChurnGivesBack(s, e);
    }
    var q, action := DueStep(s, e);
    BusyKeeps(s, e, last);
  }

  /** Churn is net: an operation without churn takes its interval off again, one that cannot be judged
      clears it, and either way nothing is given back for it. */
  lemma CalmOperation(s: System, e: Event, last: nat, churned: nat)
    requires Churning(s, last, churned) && BusyCheck(e) && e.engineOk && e.reading.churn != Some(true)
    requires last + SAMPLE_INTERVAL <= e.now <= last + SAMPLE_GAP_LIMIT
    ensures Step(s, e).engine == s.engine
    ensures Churning(Step(s, e), e.now, if e.reading.churn.None? || churned < e.now - last then 0 else churned - (e.now - last))
  {
    NextDue(s, last, e);
    BusySeen(s, last, e);
    ChurnFades(s, e);
    var q, action := DueStep(s, e);
    BusyAction(q, e.now, s.engine);
    BusyKeeps(s, e, last);
  }

  lemma GaveBackStays(s: System, e: Event, last: nat, capacity: nat)
    requires GaveBack(s, last, capacity) && BusyCheck(e) && e.engineOk
    requires last + SAMPLE_INTERVAL <= e.now <= last + SAMPLE_GAP_LIMIT
    ensures GaveBack(Step(s, e), e.now, capacity)
  {
    NextDue(s, last, e);
    BusySeen(s, last, e);
    SeenKeeps(s, e);
    BusyKeeps(s, e, last);
  }

  /** Operations that keep churning make the controller give slots back exactly once they have churned
      for fifteen seconds. */
  lemma {:induction false} ChurnGivesSlotsBack(s: System, from: nat, churned: nat, events: seq<Event>)
    requires Churning(s, from, churned) && Steady(events, from)
    requires forall i :: 0 <= i < |events| ==> ChurnCheck(events[i])
    ensures var t, last := Run(s, events), LastTime(events, from);
            last >= from && if churned + (last - from) < ACTIVE_VALIDATION then t.engine == s.engine && Churning(t, last, churned + (last - from))
                            else GaveBack(t, last, s.engine)
  {
    if events != [] {
      var front, e := events[..|events| - 1], events[|events| - 1];
      ChurnGivesSlotsBack(s, from, churned, front);
      var t, last := Run(s, front), LastTime(front, from);
      if churned + (last - from) < ACTIVE_VALIDATION {
        ChurnStep(t, e, last, churned + (last - from));
      } else {
        GaveBackStays(t, e, last, s.engine);
      }
    }
  }

  // ----- quiet

  /** A sample of a quiet machine. */
  ghost predicate QuietCheck(e: Event) {
    e.Checked? && e.reading.pressure == Some(Normal) && e.reading.quiet == Some(true)
  }

  lemma QuietSeen(s: System, last: nat, e: Event)
    requires s.policy.lastSample == Some(last) && QuietCheck(e) && last < e.now <= last + SAMPLE_GAP_LIMIT
    ensures StateSeen(s, e) == NormalQuiet && Elapsed(s.policy, e.now) == Some(e.now - last)
  {
  }

  /** Outside any phase, sampled last at a time. */
  ghost predicate Idle(s: System, last: nat) {
    Bounded(s) && s.policy.lastSample == Some(last) && s.policy.workspacePhase.None?
  }

  /** What a quiet sample leaves: no slots lost, and if none were gained either, the policy as it was
      measured. */
  lemma QuietKeeps(s: System, e: Event, last: nat)
    requires Due(s, e) && Idle(s, last) && QuietCheck(e) && last < e.now <= last + SAMPLE_GAP_LIMIT
    ensures var t, p := Step(s, e), s.policy;
            && Idle(t, e.now) && t.engine >= s.engine && t.policy.maximumCapacity == p.maximumCapacity
            && t.policy.earnedTarget == p.earnedTarget && t.policy.requestStarted == p.requestStarted
            && (t.engine == s.engine ==>
                  && t.policy.state == Some(NormalQuiet) && t.policy.lastSampleActive == p.requestStarted.Some?
                  && t.policy.requestCleanActive == CleanAfter(p, e.now, s.engine, NormalQuiet) && t.policy.completedCleanActive == p.completedCleanActive
                  && t.policy.preparationHealthy == PreparationAfter(p, e.now, NormalQuiet)
                  && t.policy.quietSince == (if p.quietSince.Some? then p.quietSince else Some(e.now))
                  && t.policy.lastCapacityChange == p.lastCapacityChange && t.policy.retryNotBefore == p.retryNotBefore
                  && t.policy.trialCapacity == p.trialCapacity)
  {
    QuietSeen(s, last, e);
    StepBounded(s, e);
    var a, action := Acted(s, e);
    ActedQuiet(a, e.now, action);
  }

  // ----- clean time is earned

  /** A request with some clean time at its extent, last sampled quiet. */
  ghost predicate Cleaning(s: System, last: nat, capacity: nat, clean: nat, done: nat) {
    && Idle(s, last) && s.engine == capacity
    && s.policy.requestStarted.Some? && s.policy.requestStarted.value <= last && s.policy.lastSampleActive
    && s.policy.state == Some(NormalQuiet)
    && s.policy.requestCleanActive == Min(clean, ACTIVE_VALIDATION) && s.policy.completedCleanActive == done
  }

  lemma CleanStep(s: System, e: Event, last: nat, capacity: nat, clean: nat, done: nat)
    requires Cleaning(s, last, capacity, clean, done) && QuietCheck(e) && e.engineOk
    requires last + SAMPLE_INTERVAL <= e.now <= last + SAMPLE_GAP_LIMIT && Step(s, e).engine == capacity
    ensures Cleaning(Step(s, e), e.now, capacity, clean + (e.now - last), done)
  {
    NextDue(s, last, e);
    QuietSeen(s, last, e);
    SeenKeeps(s, e);
    QuietKeeps(s, e, last);
    assert CleanAfter(s.policy, e.now, s.engine, NormalQuiet) == Min(s.policy.requestCleanActive + (e.now - last), ACTIVE_VALIDATION);
  }

  ghost predicate Quiet(events: seq<Event>) {
    forall i :: 0 <= i < |events| ==> QuietCheck(events[i])
  }

  /** Quiet samples never shrink the engine. */
  lemma {:induction false} QuietNeverShrinks(s: System, from: nat, events: seq<Event>)
    requires Idle(s, from) && Steady(events, from) && Quiet(events)
    ensures Idle(Run(s, events), LastTime(events, from)) && Run(s, events).engine >= s.engine
    ensures LastTime(events, from) >= from
  {
    if events != [] {
      var front, e := events[..|events| - 1], events[|events| - 1];
      QuietNeverShrinks(s, from, front);
      NextDue(Run(s, front), LastTime(front, from), e);
      QuietKeeps(Run(s, front), e, LastTime(front, from));
    }
  }

  lemma {:induction false} CleanTimeCounts(s: System, from: nat, capacity: nat, clean: nat, done: nat, events: seq<Event>)
    requires Cleaning(s, from, capacity, clean, done) && Steady(events, from) && Quiet(events) && Run(s, events).engine == capacity
    ensures LastTime(events, from) >= from
    ensures Cleaning(Run(s, events), LastTime(events, from), capacity, clean + (LastTime(events, from) - from), done)
  {
    if events != [] {
      var front, e := events[..|events| - 1], events[|events| - 1];
      QuietNeverShrinks(s, from, front);
      NextDue(Run(s, front), LastTime(front, from), e);
      QuietKeeps(Run(s, front), e, LastTime(front, from));
      CleanTimeCounts(s, from, capacity, clean, done, front);
      CleanStep(Run(s, front), e, LastTime(front, from), capacity, clean + (LastTime(front, from) - from), done);
    }
  }

  /** Clean time is earned: once a request has been sampled quiet for fifteen seconds in all at one
      extent, counting what earlier requests completed there, and completes within five seconds of
      its last sample, that extent is earned. */
  lemma CleanTimeEarns(s: System, from: nat, capacity: nat, clean: nat, done: nat, events: seq<Event>, end: nat)
    requires Cleaning(s, from, capacity, clean, done) && Steady(events, from) && Quiet(events) && Run(s, events).engine == capacity
    requires LastTime(events, from) <= end <= LastTime(events, from) + SAMPLE_GAP_LIMIT
    ensures LastTime(events, from) >= from
    ensures var t := Step(Run(s, events), RequestEnds(end, true));
            && t.policy.completedCleanActive == Min(done + clean + (LastTime(events, from) - from), ACTIVE_VALIDATION)
            && (done + clean + (LastTime(events, from) - from) >= ACTIVE_VALIDATION ==>
                  t.policy.earnedTarget.Some? && t.policy.earnedTarget.value >= capacity)
  {
    CleanTimeCounts(s, from, capacity, clean, done, events);
    CompletionEarns(Run(s, events).policy, LastTime(events, from), end);
  }

  lemma CompletionEarns(p: Policy, last: nat, end: nat)
    requires p.requestStarted.Some? && p.lastSample == Some(last) && last <= end <= last + SAMPLE_GAP_LIMIT
    requires p.workspacePhase.None? && p.state == Some(NormalQuiet)
    ensures var q := EndRequest(p, end, true);
            && q.completedCleanActive == Min(p.completedCleanActive + p.requestCleanActive, ACTIVE_VALIDATION)
            && (p.completedCleanActive + p.requestCleanActive >= ACTIVE_VALIDATION ==>
                  q.earnedTarget.Some? && q.earnedTarget.value >= p.capacity)
            && (p.validatedInRequest.Some? && p.validatedInRequest.value < p.capacity ==>
                  q.earnedTarget.Some? && q.earnedTarget.value >= p.validatedInRequest.value)
  {
    assert CountsTowardValidation(p, end, true);
  }

  /** An extent that has been clean for fifteen seconds and is outgrown within the request is earned
      when the request completes. */
  lemma OutgrownIsEarned(s: System, last: nat, e: Event, end: nat)
    requires Due(s, e) && Idle(s, last) && QuietCheck(e) && last < e.now <= last + SAMPLE_GAP_LIMIT
    requires s.policy.requestStarted.Some? && Step(s, e).engine > s.engine && e.now <= end <= e.now + SAMPLE_GAP_LIMIT
    requires s.policy.completedCleanActive + CleanAfter(s.policy, e.now, s.engine, NormalQuiet) >= ACTIVE_VALIDATION
    requires s.policy.validatedInRequest.Some? ==> s.policy.validatedInRequest.value <= s.engine
    ensures var t := Step(Step(s, e), RequestEnds(end, true));
            t.policy.earnedTarget.Some? && t.policy.earnedTarget.value >= s.engine
  {
    QuietSeen(s, last, e);
    var a, action := Acted(s, e);
    ActedQuiet(a, e.now, action);
    assert a.policy.completedCleanActive + a.policy.requestCleanActive >= ACTIVE_VALIDATION;
    CompletionEarns(Step(s, e).policy, e.now, end);
  }

  // ----- quiet leads to growth

  /** Quiet since some time, at an extent that has not changed since. */
  ghost predicate Waiting(s: System, last: nat, capacity: nat, since: nat) {
    && Idle(s, last) && s.engine == capacity && s.policy.state == Some(NormalQuiet)
    && s.policy.quietSince.Some? && s.policy.quietSince.value <= since <= last
  }

  /** Growth has nothing else to wait for than these times. */
  ghost predicate ReadyBy(p: Policy, time: nat) {
    && (p.lastCapacityChange.Some? ==> p.lastCapacityChange.value + RECOVERY_COOLDOWN <= time)
    && (p.retryNotBefore.Some? ==> p.retryNotBefore.value <= time)
  }

  lemma FirstQuiet(s: System, e: Event, last: nat)
    requires Idle(s, last) && QuietCheck(e) && e.engineOk && last + SAMPLE_INTERVAL <= e.now <= last + SAMPLE_GAP_LIMIT
    requires s.policy.quietSince.Some? ==> s.policy.quietSince.value <= last
    requires Step(s, e).engine == s.engine
    ensures Waiting(Step(s, e), e.now, s.engine, e.now)
  {
    NextDue(s, last, e);
    QuietSeen(s, last, e);
    SeenKeeps(s, e);
    QuietKeeps(s, e, last);
  }

  lemma WaitStep(s: System, e: Event, last: nat, capacity: nat, since: nat)
    requires Waiting(s, last, capacity, since) && QuietCheck(e) && e.engineOk
    requires last + SAMPLE_INTERVAL <= e.now <= last + SAMPLE_GAP_LIMIT
    ensures var t := Step(s, e);
            && (t.engine == capacity ==>
                  && Waiting(t, e.now, capacity, since) && t.policy.trialCapacity == s.policy.trialCapacity
                  && t.policy.lastCapacityChange == s.policy.lastCapacityChange && t.policy.retryNotBefore == s.policy.retryNotBefore
                  && t.policy.earnedTarget == s.policy.earnedTarget && t.policy.maximumCapacity == s.policy.maximumCapacity)
            && (capacity < s.policy.maximumCapacity && e.now >= since + RECOVERY_COOLDOWN && ReadyBy(s.policy, e.now)
                && (s.policy.trialCapacity.None? || (s.policy.earnedTarget.Some? && capacity < s.policy.earnedTarget.value)) ==>
                  t.engine > capacity)
  {
    NextDue(s, last, e);
    QuietSeen(s, last, e);
    SeenKeeps(s, e);
    QuietKeeps(s, e, last);
    GrowsWhenDue(s, e);
  }

  ghost predicate SameWaits(p: Policy, q: Policy) {
    && q.trialCapacity == p.trialCapacity && q.lastCapacityChange == p.lastCapacityChange && q.retryNotBefore == p.retryNotBefore
    && q.earnedTarget == p.earnedTarget && q.maximumCapacity == p.maximumCapacity
  }

  lemma {:induction false} StillWaiting(s: System, from: nat, since: nat, events: seq<Event>)
    requires Waiting(s, from, s.engine, since) && Steady(events, from) && Quiet(events) && Run(s, events).engine == s.engine
    ensures Waiting(Run(s, events), LastTime(events, from), s.engine, since) && SameWaits(s.policy, Run(s, events).policy)
  {
    if events != [] {
      var front, e := events[..|events| - 1], events[|events| - 1];
      QuietNeverShrinks(s, from, front);
      NextDue(Run(s, front), LastTime(front, from), e);
      QuietKeeps(Run(s, front), e, LastTime(front, from));
      StillWaiting(s, from, since, front);
      WaitStep(Run(s, front), e, LastTime(front, from), s.engine, since);
    }
  }

  /** Quiet leads to growth: below the maximum, with no trial pending or an earned extent to restore, a
      machine that stays quiet for five seconds grows by the first sample after every wait has passed. */
  lemma QuietGrows(s: System, from: nat, since: nat, events: seq<Event>)
    requires Waiting(s, from, s.engine, since) && Steady(events, from) && Quiet(events) && events != []
    requires s.engine < s.policy.maximumCapacity
    requires s.policy.trialCapacity.None? || (s.policy.earnedTarget.Some? && s.engine < s.policy.earnedTarget.value)
    requires LastTime(events, from) >= since + RECOVERY_COOLDOWN && ReadyBy(s.policy, LastTime(events, from))
    ensures Run(s, events).engine > s.engine
  {
    var front, e := events[..|events| - 1], events[|events| - 1];
    QuietNeverShrinks(s, from, front);
    var t := Run(s, front);
    NextDue(t, LastTime(front, from), e);
    QuietKeeps(t, e, LastTime(front, from));
    if t.engine == s.engine {
      StillWaiting(s, from, since, front);
      WaitStep(t, e, LastTime(front, from), s.engine, since);
    }
  }

  /** A quiet machine whose preparation for the next step has gone on for some time since the last
      change of extent. */
  ghost predicate Preparing(s: System, last: nat, capacity: nat, since: nat, prepared: nat) {
    && Waiting(s, last, capacity, since)
    && (s.policy.lastCapacityChange.Some? ==> s.policy.lastCapacityChange.value <= last)
    && s.policy.preparationHealthy == Min(prepared, ACTIVE_VALIDATION)
  }

  lemma PrepareStep(s: System, e: Event, last: nat, capacity: nat, since: nat, prepared: nat)
    requires Preparing(s, last, capacity, since, prepared) && QuietCheck(e) && e.engineOk
    requires last + SAMPLE_INTERVAL <= e.now <= last + SAMPLE_GAP_LIMIT && Step(s, e).engine == capacity
    ensures Preparing(Step(s, e), e.now, capacity, since, prepared + (e.now - last))
  {
    NextDue(s, last, e);
    QuietSeen(s, last, e);
    QuietKeeps(s, e, last);
    WaitStep(s, e, last, capacity, since);
    assert PreparationAfter(s.policy, e.now, NormalQuiet) == Min(s.policy.preparationHealthy + (e.now - last), ACTIVE_VALIDATION);
  }

  lemma {:induction false} StillPreparing(s: System, from: nat, since: nat, prepared: nat, events: seq<Event>)
    requires Preparing(s, from, s.engine, since, prepared) && Steady(events, from) && Quiet(events) && Run(s, events).engine == s.engine
    ensures LastTime(events, from) >= from
    ensures Preparing(Run(s, events), LastTime(events, from), s.engine, since, prepared + (LastTime(events, from) - from))
    ensures s.policy.requestStarted.None? && s.policy.completedCleanActive == 0 ==>
              Run(s, events).policy.requestStarted.None? && Run(s, events).policy.completedCleanActive == 0
  {
    if events != [] {
      var front, e := events[..|events| - 1], events[|events| - 1];
      QuietNeverShrinks(s, from, front);
      NextDue(Run(s, front), LastTime(front, from), e);
      QuietKeeps(Run(s, front), e, LastTime(front, from));
      StillPreparing(s, from, since, prepared, front);
      PrepareStep(Run(s, front), e, LastTime(front, from), s.engine, since, prepared + (LastTime(front, from) - from));
    }
  }

  lemma PreparedStepGrows(s: System, e: Event, last: nat, capacity: nat, since: nat, prepared: nat)
    requires Preparing(s, last, capacity, since, prepared) && QuietCheck(e) && e.engineOk
    requires last + SAMPLE_INTERVAL <= e.now <= last + SAMPLE_GAP_LIMIT && capacity < s.policy.maximumCapacity
    requires e.now >= since + RECOVERY_COOLDOWN && ReadyBy(s.policy, e.now) && prepared + (e.now - last) >= ACTIVE_VALIDATION
    requires if s.policy.requestStarted.Some? then
               s.policy.completedCleanActive + CleanAfter(s.policy, e.now, s.engine, NormalQuiet) >= ACTIVE_VALIDATION
             else s.policy.completedCleanActive == 0
    ensures Step(s, e).engine > capacity
  {
    NextDue(s, last, e);
    QuietSeen(s, last, e);
    assert PreparationAfter(s.policy, e.now, NormalQuiet) == Min(s.policy.preparationHealthy + (e.now - last), ACTIVE_VALIDATION);
    GrowsWhenDue(s, e);
  }

  /** Even past a pending trial: between requests, with none of its clean time counted yet, fifteen
      quiet seconds of preparation are enough for the next step. */
  lemma QuietGrowsPastTrial(s: System, from: nat, since: nat, prepared: nat, events: seq<Event>)
    requires Preparing(s, from, s.engine, since, prepared) && Steady(events, from) && Quiet(events) && events != []
    requires s.engine < s.policy.maximumCapacity && s.policy.requestStarted.None? && s.policy.completedCleanActive == 0
    requires LastTime(events, from) >= since + RECOVERY_COOLDOWN && ReadyBy(s.policy, LastTime(events, from))
    requires prepared + LastTime(events, from) >= from + ACTIVE_VALIDATION
    ensures Run(s, events).engine > s.engine
  {
    var front, e := events[..|events| - 1], events[|events| - 1];
    QuietNeverShrinks(s, from, front);
    var t, last := Run(s, front), LastTime(front, from);
    NextDue(t, last, e);
    QuietKeeps(t, e, last);
    if t.engine == s.engine {
      StillPreparing(s, from, since, prepared, front);
      StillWaiting(s, from, since, front);
      PreparedStepGrows(t, e, last, s.engine, since, prepared + (last - from));
    }
  }

  /** And within a request once its extent, too, has been clean for fifteen seconds. */
  lemma CleanTrialGrows(s: System, from: nat, since: nat, prepared: nat, clean: nat, done: nat, events: seq<Event>)
    requires Preparing(s, from, s.engine, since, prepared) && Cleaning(s, from, s.engine, clean, done)
    requires Steady(events, from) && Quiet(events) && events != [] && s.engine < s.policy.maximumCapacity
    requires LastTime(events, from) >= since + RECOVERY_COOLDOWN && ReadyBy(s.policy, LastTime(events, from))
    requires prepared + LastTime(events, from) >= from + ACTIVE_VALIDATION
    requires done + clean + LastTime(events, from) >= from + ACTIVE_VALIDATION
    ensures Run(s, events).engine > s.engine
  {
    var front, e := events[..|events| - 1], events[|events| - 1];
    QuietNeverShrinks(s, from, front);
    var t, last := Run(s, front), LastTime(front, from);
    NextDue(t, last, e);
    QuietKeeps(t, e, last);
    if t.engine == s.engine {
      StillPreparing(s, from, since, prepared, front);
      StillWaiting(s, from, since, front);
      CleanTimeCounts(s, from, s.engine, clean, done, front);
      QuietSeen(t, last, e);
      assert CleanAfter(t.policy, e.now, t.engine, NormalQuiet) == Min(t.policy.requestCleanActive + (e.now - last), ACTIVE_VALIDATION);
      PreparedStepGrows(t, e, last, s.engine, since, prepared + (last - from));
    }
  }

  /** From any state a run reaches that is quiet and has a step to take, 120 quiet seconds are always
      enough: no wait is longer. */
  lemma QuietAlwaysGrows(initialCapacity: nat, maximumCapacity: nat, events: seq<Event>, from: nat, since: nat, more: seq<Event>)
    requires ValidLimits(initialCapacity, maximumCapacity) && MemoryPacing.Timed(events)
    requires var s := Run(NewSystem(initialCapacity, maximumCapacity), events);
             && Waiting(s, from, s.engine, since) && s.engine < maximumCapacity
             && (s.policy.trialCapacity.None? || (s.policy.earnedTarget.Some? && s.engine < s.policy.earnedTarget.value))
    requires Steady(more, from) && Quiet(more) && more != [] && LastTime(more, from) >= since + RECOVERY_COOLDOWN
    requires LastTime(more, from) >= MemoryPacing.RunWatch(NewSystem(initialCapacity, maximumCapacity), events).latest + MAX_RETRY_DELAY
    ensures var s := Run(NewSystem(initialCapacity, maximumCapacity), events); Run(s, more).engine > s.engine
  {
    RunBounded(initialCapacity, maximumCapacity, events);
    MemoryRefusal.WaitIsBounded(initialCapacity, maximumCapacity, events);
    QuietGrows(Run(NewSystem(initialCapacity, maximumCapacity), events), from, since, more);
  }
}
