/** When the controller may grow: not before an interruption's backoff has passed, not within the
    cooldown of any capacity change, and not in a workspace phase that has seen a release. */
module MemoryPacing {
  import opened Wrappers
  import opened MemoryPolicy
  import opened MemorySystem

  // ----- the part of a policy that pacing depends on

  datatype Pace = Pace(trial: bool, retry: Option<nat>, delay: nat, changed: Option<nat>)

  function PaceOf(p: Policy): Pace {
    Pace(p.trialCapacity.Some?, p.retryNotBefore, p.retryDelay, p.lastCapacityChange)
  }

  function BackedOff(c: Pace, now: nat): Pace {
    c.(retry := Some(now + Doubled(c.delay)), delay := Doubled(c.delay))
  }

  function Interrupting(c: Pace, now: nat, backsOff: bool): Pace {
    (if backsOff then BackedOff(c, now) else c).(trial := false)
  }

  // ----- what a run has to wait for

  /** The latest event time, the end of the longest backoff owed to an interruption, the time of
      the last capacity change, and whether the current phase has released anything. */
  datatype Watch = Watch(latest: nat, until: nat, changed: Option<nat>, releasedInPhase: bool)

  function TimeOf(e: Event): Option<nat> {
    match e
    case RequestBegins(now) => Some(now)
    case RequestEnds(now, _) => Some(now)
    case Checked(now, _, _, _, _) => Some(now)
    case PhaseBegins(_) => None
    case PlannedResize(now, _) => Some(now)
    case PhaseEnds(now, _) => Some(now)
  }

  /** The event interrupts work and backs off: pressure arrives on a trial or a recent increase, a
      trial is rolled back, or sustained churn forces a release. */
  predicate Interrupts(s: System, e: Event) {
    match e
    case Checked(now, boundary, r, counters, engineOk) =>
      MIN_CAPACITY <= s.engine <= s.policy.maximumCapacity &&
      (PressureInterrupts(s, now, r)
       || (engineOk && ReleaseInterrupts(s, now, Poll(s, now, boundary, r, counters))))
    case _ => false
  }

  predicate PressureInterrupts(s: System, now: nat, r: Reading) {
    SampleDue(s.policy, now) && EntersPressure(s.policy, StateAt(s.policy, now, r)) && BacksOff(s.policy, now, false)
  }

  predicate ReleaseInterrupts(s: System, now: nat, polled: (Policy, Action)) {
    (polled.1.Rollback? && BacksOff(polled.0, now, false)) || polled.1.ChurnRelease?
  }

  function Watching(w: Watch, s: System, e: Event): Watch {
    var t := Step(s, e);
    var now := TimeOf(e);
    Watch(if now.Some? then now.value else w.latest,
          if Interrupts(s, e) && now.Some? then Max(w.until, now.value + t.policy.retryDelay) else w.until,
          if t.engine != s.engine then now else w.changed,
          if e.PhaseBegins? && s.policy.workspacePhase.None? then false else w.releasedInPhase || t.epoch > s.epoch)
  }

  function RunWatch(s: System, events: seq<Event>): Watch {
    if events == [] then Watch(0, 0, None, false)
    else
      var before := events[..|events| - 1];
      Watching(RunWatch(s, before), Run(s, before), events[|events| - 1])
  }

  /** Event times never go back. */
  ghost predicate Timed(events: seq<Event>) {
    forall i, k :: 0 <= i < k < |events| && TimeOf(events[i]).Some? && TimeOf(events[k]).Some? ==>
      TimeOf(events[i]).value <= TimeOf(events[k]).value
  }

  /** Growth the controller decides on: a check that grows the engine, or a phase end that restores it. */
  predicate Grows(s: System, e: Event) {
    (e.Checked? || e.PhaseEnds?) && Step(s, e).engine > s.engine
  }

  // ----- the invariant

  ghost predicate Paced(c: Pace, w: Watch) {
    && c.changed == w.changed
    && (w.until > w.latest ==>
          !c.trial && c.retry.Some? && c.retry.value >= w.until && w.until <= w.latest + c.delay)
  }

  ghost predicate PhaseWatched(s: System, w: Watch) {
    s.policy.workspacePhase.Some? ==>
      && s.policy.workspacePhase.value.pressureReleaseEpoch <= s.epoch
      && (w.releasedInPhase ==> s.policy.workspacePhase.value.pressureReleaseEpoch < s.epoch)
  }

  /** Nothing may grow before the backoff ends or within the cooldown of a change. */
  predicate Waited(c: Pace, now: nat) {
    && (c.changed.None? || AtLeastAfter(now, c.changed, RECOVERY_COOLDOWN))
    && (c.retry.None? || now >= c.retry.value)
  }

  lemma WaitedOut(c: Pace, w: Watch, now: nat)
    requires Paced(c, w) && Waited(c, now) && now >= w.latest
    ensures now >= w.until && (w.changed.None? || AtLeastAfter(now, w.changed, RECOVERY_COOLDOWN))
  {
  }

  // ----- how each transition shows in the pace

  lemma SampledPace(p: Policy, now: nat, boundary: Boundary, r: Reading)
    ensures var c := PaceOf(Sampled(p, now, p.capacity, boundary, r));
            c == if EntersPressure(p, StateAt(p, now, r)) then Interrupting(PaceOf(p), now, BacksOff(p, now, false)) else PaceOf(p)
  {
  }

  lemma PolledPace(s: System, now: nat, boundary: Boundary, r: Reading, counters: Option<VmCounters>)
    requires Bounded(s)
    ensures var c := PaceOf(Poll(s, now, boundary, r, counters).0);
            c == if SampleDue(s.policy, now) && EntersPressure(s.policy, StateAt(s.policy, now, r))
                 then Interrupting(PaceOf(s.policy), now, BacksOff(s.policy, now, false)) else PaceOf(s.policy)
  {
    if SampleDue(s.policy, now) {
      SampledPace(s.policy, now, boundary, r);
    }
  }

  lemma InterruptedPace(p: Policy, now: nat, always: bool)
    ensures PaceOf(InterruptedWork(p, now, always)) == Interrupting(PaceOf(p), now, BacksOff(p, now, always))
  {
  }

  lemma ChangedPace(p: Policy, now: nat, newCapacity: nat)
    requires newCapacity != p.capacity
    ensures var c := PaceOf(CapacityChanged(p, now, p.capacity, newCapacity));
            c == PaceOf(p).(changed := Some(now), trial := c.trial) && (newCapacity < p.capacity ==> !c.trial)
  {
  }

  /** Acting on a poll: a release never leaves a trial; growth happens only once waited for. */
  lemma PerformedPace(s: System, now: nat, action: Action, engineOk: bool)
    requires Bounded(s) && ActionInRange(s.policy, now, action)
    ensures var t := Perform(s, now, action, engineOk);
            var c, d := PaceOf(s.policy), PaceOf(t.policy);
            && (t.engine > s.engine ==> action.Recover? && d == c.(changed := Some(now), trial := d.trial))
            && (t.engine < s.engine ==>
                  d == (if action.Rollback? then Interrupting(c, now, BacksOff(s.policy, now, false))
                        else if action.ChurnRelease? then Interrupting(c, now, true) else c).(changed := Some(now), trial := false))
            && (t.engine == s.engine ==> d == if action.Recover? then BackedOff(c, now) else c)
            && (action.Recover? ==> Waited(c, now))
            && (t.engine < s.engine <==> engineOk && Releases(action))
  {
    if Releases(action) {
      InterruptedPace(s.policy, now, false);
      InterruptedPace(s.policy, now, true);
      ChangedPace(s.policy, now, action.target);
      ChangedPace(InterruptedWork(s.policy, now, false), now, action.target);
      ChangedPace(InterruptedWork(s.policy, now, true), now, action.target);
    } else if action.Recover? {
      ChangedPace(s.policy, now, action.target);
    }
  }

  lemma EndedPace(p: Policy, now: nat, completed: bool)
    ensures var c, d := PaceOf(p), PaceOf(EndRequest(p, now, completed));
            d == c || (c.trial && d.changed == c.changed)
  {
  }

  lemma PlannedPace(s: System, now: nat, capacity: nat)
    requires Bounded(s)
    ensures var t := Planned(s, now, capacity);
            PaceOf(t.policy) == if t.engine != s.engine then PaceOf(s.policy).(changed := Some(now)) else PaceOf(s.policy)
  {
  }

  lemma RestoredPace(s: System, now: nat, engineOk: bool)
    requires Bounded(s)
    ensures var t := RestoreOrdinary(s, now, engineOk);
            var c, d := PaceOf(s.policy), PaceOf(t.policy);
            && t.engine >= s.engine && t.epoch == s.epoch
            && (t.engine > s.engine ==>
                  && d == c.(changed := Some(now)) && Waited(c, now)
                  && s.policy.workspacePhase.Some? && s.policy.workspacePhase.value.pressureReleaseEpoch == s.epoch)
            && (t.engine == s.engine ==> d == c || (d == BackedOff(c, now) && Waited(c, now)))
  {
    if RestorationAllowed(s.policy, now, s.epoch) {
      PlannedPace(s, now, s.policy.workspacePhase.value.ordinaryCapacity);
    }
  }

  lemma ClearedPace(p: Policy)
    ensures PaceOf(ClearWorkspaceValidation(p)) == PaceOf(p) && SamePhase(p, ClearWorkspaceValidation(p))
  {
  }

  lemma LeftPace(p: Policy)
    ensures PaceOf(LeavePhase(p)) == PaceOf(p) && LeavePhase(p).workspacePhase.None?
  {
  }

  lemma FinishedPace(p: Policy)
    ensures PaceOf(FinishPhase(p)) == PaceOf(p) && FinishPhase(p).workspacePhase.None?
  {
    LeftPace(p);
    ClearedPace(LeavePhase(p));
  }

  // ----- every step keeps the watch

  /** The watch after an event, from what the event does. */
  lemma PacedAfter(c: Pace, w: Watch, d: Pace, now: nat, interrupts: bool, changes: bool)
    requires Paced(c, w) && now >= w.latest && c.delay <= MAX_RETRY_DELAY
    requires d.changed == if changes then Some(now) else c.changed
    requires interrupts ==> !d.trial && d.delay == Doubled(c.delay) && d.retry == Some(now + d.delay)
    requires !interrupts && now < w.until ==> d.trial == c.trial && d.retry == c.retry && d.delay == c.delay
    ensures Paced(d, Watch(now, if interrupts then Max(w.until, now + d.delay) else w.until,
                           if changes then Some(now) else w.changed, w.releasedInPhase))
  {
  }

  ghost predicate Ready(s: System, w: Watch, e: Event) {
    && Bounded(s) && Paced(PaceOf(s.policy), w) && PhaseWatched(s, w)
    && (TimeOf(e).Some? ==> TimeOf(e).value >= w.latest)
  }

  ghost predicate GrowthWaited(s: System, w: Watch, e: Event) {
    Grows(s, e) ==>
      && TimeOf(e).value >= w.until
      && (w.changed.None? || AtLeastAfter(TimeOf(e).value, w.changed, RECOVERY_COOLDOWN))
      && (e.PhaseEnds? ==> !w.releasedInPhase)
      && (e.Checked? ==> s.policy.workspacePhase.None?)
  }

  ghost predicate SamePhase(p: Policy, q: Policy) {
    q.workspacePhase == p.workspacePhase
  }

  lemma PolledPhase(s: System, now: nat, boundary: Boundary, r: Reading, counters: Option<VmCounters>)
    ensures SamePhase(s.policy, Poll(s, now, boundary, r, counters).0)
  {
  }

  lemma PerformedPhase(s: System, now: nat, action: Action, engineOk: bool)
    ensures var t := Perform(s, now, action, engineOk);
            SamePhase(s.policy, t.policy) && t.epoch == if engineOk && Releases(action) then s.epoch + 1 else s.epoch
  {
  }

  /** A polled policy is still paced; if pressure interrupted it, from this moment. */
  lemma PolledPaced(s: System, w: Watch, now: nat, boundary: Boundary, r: Reading, counters: Option<VmCounters>)
    requires Bounded(s) && Paced(PaceOf(s.policy), w) && now >= w.latest
    ensures var c := PaceOf(Poll(s, now, boundary, r, counters).0);
            var interrupted := PressureInterrupts(s, now, r);
            && Paced(c, Watch(now, if interrupted then Max(w.until, now + c.delay) else w.until, w.changed, w.releasedInPhase))
            && c.delay <= MAX_RETRY_DELAY
  {
    PolledPace(s, now, boundary, r, counters);
    PollBounds(s, now, boundary, r, counters);
    PacedAfter(PaceOf(s.policy), w, PaceOf(Poll(s, now, boundary, r, counters).0), now, PressureInterrupts(s, now, r), false);
  }

  lemma PerformedPaced(s: System, w: Watch, now: nat, action: Action, engineOk: bool)
    requires Bounded(s) && ActionInRange(s.policy, now, action)
    requires Paced(PaceOf(s.policy), w) && now == w.latest
    ensures var t := Perform(s, now, action, engineOk);
            var interrupted := engineOk && ReleaseInterrupts(s, now, (s.policy, action));
            && Paced(PaceOf(t.policy), Watch(now, if interrupted then Max(w.until, now + t.policy.retryDelay) else w.until,
                                             if t.engine != s.engine then Some(now) else w.changed, w.releasedInPhase))
            && (t.engine > s.engine ==> now >= w.until && (w.changed.None? || AtLeastAfter(now, w.changed, RECOVERY_COOLDOWN)))
            && (!interrupted ==> PaceOf(t.policy).delay == PaceOf(s.policy).delay || t.engine >= s.engine)
  {
    var t := Perform(s, now, action, engineOk);
    PerformedPace(s, now, action, engineOk);
    if action.Recover? {
      WaitedOut(PaceOf(s.policy), w, now);
    }
    PacedAfter(PaceOf(s.policy), w, PaceOf(t.policy), now, engineOk && ReleaseInterrupts(s, now, (s.policy, action)), t.engine != s.engine);
  }

  /** Under pressure the action is a plain release, a stop or nothing. */
  lemma PressureNeverGrows(s: System, now: nat, boundary: Boundary, r: Reading, counters: Option<VmCounters>)
    requires SampleDue(s.policy, now) && EntersPressure(s.policy, StateAt(s.policy, now, r))
    ensures var action := Poll(s, now, boundary, r, counters).1; action.Release? || action.Hold? || action.Stop?
  {
  }

  lemma CheckPaced(s: System, w: Watch, now: nat, boundary: Boundary, r: Reading, counters: Option<VmCounters>, engineOk: bool)
    requires Ready(s, w, Checked(now, boundary, r, counters, engineOk))
    ensures var e := Checked(now, boundary, r, counters, engineOk);
            && Paced(PaceOf(Check(s, now, boundary, r, counters, engineOk).policy), Watching(w, s, e))
            && (Check(s, now, boundary, r, counters, engineOk).engine > s.engine ==>
                  now >= w.until && (w.changed.None? || AtLeastAfter(now, w.changed, RECOVERY_COOLDOWN)))
  {
    PolledPaced(s, w, now, boundary, r, counters);
    PollBounds(s, now, boundary, r, counters);
    var polled := Poll(s, now, boundary, r, counters);
    var pressed := PressureInterrupts(s, now, r);
    var c := PaceOf(polled.0);
    var mid := Watch(now, if pressed then Max(w.until, now + c.delay) else w.until, w.changed, w.releasedInPhase);
    PerformedPaced(s.(policy := polled.0), mid, now, polled.1, engineOk);
    if pressed {
      PressureNeverGrows(s, now, boundary, r, counters);
      PerformedPace(s.(policy := polled.0), now, polled.1, engineOk);
    }
  }

  lemma CheckPhase(s: System, w: Watch, now: nat, boundary: Boundary, r: Reading, counters: Option<VmCounters>, engineOk: bool)
    requires Ready(s, w, Checked(now, boundary, r, counters, engineOk))
    ensures var e := Checked(now, boundary, r, counters, engineOk);
            && PhaseWatched(Check(s, now, boundary, r, counters, engineOk), Watching(w, s, e))
            && (Check(s, now, boundary, r, counters, engineOk).engine > s.engine ==> s.policy.workspacePhase.None?)
  {
    PollBounds(s, now, boundary, r, counters);
    PolledPhase(s, now, boundary, r, counters);
    var polled := Poll(s, now, boundary, r, counters);
    PerformedPhase(s.(policy := polled.0), now, polled.1, engineOk);
    PerformedPace(s.(policy := polled.0), now, polled.1, engineOk);
  }

  lemma PhaseEndPaced(s: System, w: Watch, now: nat, engineOk: bool)
    requires Ready(s, w, PhaseEnds(now, engineOk))
    ensures var t := EndPhase(s, now, engineOk);
            && Paced(PaceOf(t.policy), Watching(w, s, PhaseEnds(now, engineOk)))
            && t.policy.workspacePhase.None?
            && (t.engine > s.engine ==>
                  now >= w.until && (w.changed.None? || AtLeastAfter(now, w.changed, RECOVERY_COOLDOWN)) && !w.releasedInPhase)
  {
    if s.policy.workspacePhase.Some? {
      var t := RestoreOrdinary(s, now, engineOk);
      RestoredPace(s, now, engineOk);
      FinishedPace(t.policy);
      if Waited(PaceOf(s.policy), now) {
        WaitedOut(PaceOf(s.policy), w, now);
      }
      PacedAfter(PaceOf(s.policy), w, PaceOf(t.policy), now, false, t.engine != s.engine);
    } else {
      PacedAfter(PaceOf(s.policy), w, PaceOf(s.policy), now, false, false);
    }
  }

  lemma RequestPaced(s: System, w: Watch, e: Event)
    requires Ready(s, w, e) && (e.RequestBegins? || e.RequestEnds?)
    ensures Paced(PaceOf(Step(s, e).policy), Watching(w, s, e)) && SamePhase(s.policy, Step(s, e).policy)
  {
    match e
    case RequestBegins(now) => PacedAfter(PaceOf(s.policy), w, PaceOf(BeginRequest(s.policy, now)), now, false, false);
    case RequestEnds(now, completed) =>
      EndedPace(s.policy, now, completed);
      PacedAfter(PaceOf(s.policy), w, PaceOf(EndRequest(s.policy, now, completed)), now, false, false);
  }

  lemma PlannedPaced(s: System, w: Watch, now: nat, capacity: nat)
    requires Ready(s, w, PlannedResize(now, capacity))
    ensures var t := Planned(s, now, capacity);
            Paced(PaceOf(t.policy), Watching(w, s, PlannedResize(now, capacity))) && SamePhase(s.policy, t.policy) && t.epoch == s.epoch
  {
    PlannedPace(s, now, capacity);
    PlannedPhase(s, now, capacity);
    var t := Planned(s, now, capacity);
    PacedAfter(PaceOf(s.policy), w, PaceOf(t.policy), now, false, t.engine != s.engine);
  }

  lemma PlannedPhase(s: System, now: nat, capacity: nat)
    ensures SamePhase(s.policy, Planned(s, now, capacity).policy) && Planned(s, now, capacity).epoch == s.epoch
  {
  }

  lemma PhaseBeginPaced(s: System, w: Watch, target: nat)
    requires Ready(s, w, PhaseBegins(target))
    ensures var t := Step(s, PhaseBegins(target));
            Paced(PaceOf(t.policy), Watching(w, s, PhaseBegins(target))) && PhaseWatched(t, Watching(w, s, PhaseBegins(target)))
  {
  }

  lemma StepPaced(s: System, w: Watch, e: Event)
    requires Ready(s, w, e)
    ensures Paced(PaceOf(Step(s, e).policy), Watching(w, s, e)) && PhaseWatched(Step(s, e), Watching(w, s, e))
    ensures GrowthWaited(s, w, e)
  {
    match e
    case RequestBegins(now) => RequestPaced(s, w, e);
    case RequestEnds(now, completed) => RequestPaced(s, w, e);
    case Checked(now, boundary, r, counters, engineOk) =>
      CheckPaced(s, w, now, boundary, r, counters, engineOk);
      CheckPhase(s, w, now, boundary, r, counters, engineOk);
    case PhaseBegins(target) => PhaseBeginPaced(s, w, target);
    case PlannedResize(now, capacity) => PlannedPaced(s, w, now, capacity);
    case PhaseEnds(now, engineOk) => PhaseEndPaced(s, w, now, engineOk);
  }

  // ----- every run

  lemma {:induction false} WatchLatest(s: System, events: seq<Event>, e: Event)
    requires Timed(events + [e])
    ensures TimeOf(e).Some? ==> RunWatch(s, events).latest <= TimeOf(e).value
  {
    if events != [] {
      var before, last := events[..|events| - 1], events[|events| - 1];
      if TimeOf(e).Some? {
        if TimeOf(last).Some? {
          assert (events + [e])[|events| - 1] == last && (events + [e])[|events|] == e;
        } else {
          forall i, k | 0 <= i < k < |before + [e]| && TimeOf((before + [e])[i]).Some? && TimeOf((before + [e])[k]).Some?
            ensures TimeOf((before + [e])[i]).value <= TimeOf((before + [e])[k]).value
          {
            assert (before + [e])[i] == (events + [e])[i];
            assert (before + [e])[k] == if k < |before| then (events + [e])[k] else (events + [e])[|events|];
          }
          WatchLatest(s, before, e);
        }
      }
    }
  }

  lemma {:induction false} RunPaced(initialCapacity: nat, maximumCapacity: nat, events: seq<Event>)
    requires ValidLimits(initialCapacity, maximumCapacity) && Timed(events)
    ensures var s := NewSystem(initialCapacity, maximumCapacity);
            Paced(PaceOf(Run(s, events).policy), RunWatch(s, events)) && PhaseWatched(Run(s, events), RunWatch(s, events))
  {
    if events != [] {
      var s, before, last := NewSystem(initialCapacity, maximumCapacity), events[..|events| - 1], events[|events| - 1];
      RunPaced(initialCapacity, maximumCapacity, before);
      RunBounded(initialCapacity, maximumCapacity, before);
      assert before + [last] == events;
      WatchLatest(s, before, last);
      StepPaced(Run(s, before), RunWatch(s, before), last);
    }
  }

  /** In every run with a monotone clock, growth the controller decides on comes only after the
      doubled backoff of every interruption so far and at least five seconds after any capacity
      change; never inside a workspace phase, and at a phase's end only if the phase released nothing. */
  lemma GrowthAlwaysWaits(initialCapacity: nat, maximumCapacity: nat, events: seq<Event>, e: Event)
    requires ValidLimits(initialCapacity, maximumCapacity) && Timed(events + [e])
    ensures var s := NewSystem(initialCapacity, maximumCapacity);
            GrowthWaited(Run(s, events), RunWatch(s, events), e)
  {
    var s := NewSystem(initialCapacity, maximumCapacity);
    assert forall i :: 0 <= i < |events| ==> (events + [e])[i] == events[i];
    RunPaced(initialCapacity, maximumCapacity, events);
    RunBounded(initialCapacity, maximumCapacity, events);
    WatchLatest(s, events, e);
    StepPaced(Run(s, events), RunWatch(s, events), e);
  }

  /** An interruption owes a backoff of twice the delay in force, between 10 and 120 seconds. */
  lemma InterruptionBacksOff(s: System, w: Watch, e: Event)
    requires Ready(s, w, e) && Interrupts(s, e)
    ensures var d := Step(s, e).policy.retryDelay;
            && d == Doubled(s.policy.retryDelay) && 2 * RECOVERY_COOLDOWN <= d <= MAX_RETRY_DELAY
            && Watching(w, s, e).until >= TimeOf(e).value + d
  {
    var now, boundary, r, counters, engineOk := e.now, e.boundary, e.reading, e.counters, e.engineOk;
    PollBounds(s, now, boundary, r, counters);
    PolledPace(s, now, boundary, r, counters);
    var polled := Poll(s, now, boundary, r, counters);
    PerformedPace(s.(policy := polled.0), now, polled.1, engineOk);
    if PressureInterrupts(s, now, r) {
      PressureNeverGrows(s, now, boundary, r, counters);
    } else {
      ReleaseWithoutPressure(s, now, boundary, r, counters);
    }
  }

  lemma ReleaseWithoutPressure(s: System, now: nat, boundary: Boundary, r: Reading, counters: Option<VmCounters>)
    requires Bounded(s) && ReleaseInterrupts(s, now, Poll(s, now, boundary, r, counters))
    ensures !EntersPressure(s.policy, StateAt(s.policy, now, r))
  {
  }
}
