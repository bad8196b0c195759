/** Whole runs of the memory controller: every earned extent is certified by its journal. */
module MemoryRuns {
  import opened Wrappers
  import opened MemoryPolicy
  import opened MemorySystem
  import opened MemoryEvidence

  // ----- how each transition shows in the view

  lemma BeginView(p: Policy, now: nat)
    ensures ViewOf(BeginRequest(p, now)) == Beginning(ViewOf(p))
  {
  }

  lemma AcceptView(p: Policy)
    ensures ViewOf(CloseRequest(AcceptCurrent(AcceptOutgrown(p)))) == Ending(ViewOf(p), true)
  {
  }

  lemma EndView(p: Policy, now: nat, completed: bool)
    ensures ViewOf(EndRequest(p, now, completed)) == Ending(ViewOf(p), CountsTowardValidation(p, now, completed))
  {
    AcceptView(p);
  }

  lemma MeasuredView(p: Policy, now: nat, boundary: Boundary, r: Reading, state: State)
    requires state == StateAt(p, now, r)
    ensures ViewOf(Entered(Measured(p, now, p.capacity, boundary, r), state))
         == Sampling(ViewOf(p), now, state == NormalQuiet, EarnsCleanTime(p, now, p.capacity, state))
  {
  }

  lemma InterruptedView(p: Policy, now: nat, always: bool, state: State)
    ensures ViewOf(Entered(InterruptedWork(p, now, always), state)) == Cleared(ViewOf(Entered(p, state)))
  {
  }

  lemma SampledView(p: Policy, now: nat, boundary: Boundary, r: Reading)
    ensures var state := StateAt(p, now, r);
            var v := Sampling(ViewOf(p), now, state == NormalQuiet, EarnsCleanTime(p, now, p.capacity, state));
            ViewOf(Sampled(p, now, p.capacity, boundary, r)) == if EntersPressure(p, state) then Cleared(v) else v
  {
    var state := StateAt(p, now, r);
    MeasuredView(p, now, boundary, r, state);
    InterruptedView(Measured(p, now, p.capacity, boundary, r), now, false, state);
  }

  lemma AlarmedView(p: Policy, capacity: nat, state: State, counters: Option<VmCounters>)
    ensures ViewOf(WithCounters(Alarmed(p, capacity, state), counters)) == ViewOf(p)
  {
  }

  lemma ChangedView(p: Policy, now: nat, newCapacity: nat)
    ensures ViewOf(CapacityChanged(p, now, p.capacity, newCapacity)) == Changing(ViewOf(p), newCapacity)
  {
  }

  lemma ReleasedView(p: Policy, now: nat, always: bool, newCapacity: nat)
    requires newCapacity < p.capacity
    ensures ViewOf(CapacityChanged(InterruptedWork(p, now, always), now, p.capacity, newCapacity)) == Changing(ViewOf(p), newCapacity)
  {
    ChangedView(InterruptedWork(p, now, always), now, newCapacity);
    assert ViewOf(InterruptedWork(p, now, always)) == Cleared(ViewOf(p));
  }

  lemma FailedView(p: Policy, now: nat)
    ensures ViewOf(RecoveryFailed(p, now)) == ViewOf(p)
  {
  }

  lemma ResizedView(p: Policy, now: nat, capacity: nat)
    ensures ViewOf(Resized(p, now, capacity)) == Resizing(ViewOf(p), capacity)
  {
  }

  lemma ClearedView(p: Policy)
    ensures ViewOf(ClearWorkspaceValidation(p)) == Cleared(ViewOf(p))
  {
  }

  lemma PhaseView(p: Policy, capacity: nat, epoch: nat)
    ensures ViewOf(EnterPhase(p, capacity, epoch)) == ViewOf(p).(ordinary := Some(capacity))
    ensures ViewOf(LeavePhase(p)) == ViewOf(p).(ordinary := None)
  {
  }

  // ----- the journal of a run

  /** A due sample and the pressure entry it may bring. */
  function LogPoll(j: Journal, s: System, now: nat, r: Reading): Journal {
    if SampleDue(s.policy, now) then LogSampled(j, s.policy, now, StateAt(s.policy, now, r)) else j
  }

  function LogAction(j: Journal, v: View, action: Action, engineOk: bool): Journal {
    if engineOk && (Releases(action) || action.Recover?) then LogChange(j, v, action.target) else j
  }

  function LogCheck(j: Journal, s: System, now: nat, boundary: Boundary, r: Reading, counters: Option<VmCounters>, engineOk: bool): Journal {
    var polled := Poll(s, now, boundary, r, counters);
    LogAction(LogPoll(j, s, now, r), ViewOf(polled.0), polled.1, engineOk)
  }

  /** A planned change breaks the credit if it meets a pending trial or finds none to keep. */
  predicate Breaks(p: Policy) {
    p.trialCapacity.Some? || NoCredit(ViewOf(p))
  }

  predicate PlannedChanges(p: Policy, now: nat, capacity: nat) {
    SyncPlanned(p, now, capacity).Some? && p.capacity != capacity
  }

  function LogPlanned(j: Journal, s: System, now: nat, capacity: nat): Journal {
    if !PlannedChanges(s.policy, now, capacity) then j else if Breaks(s.policy) then LogBreak(j) else LogKept(j)
  }

  function LogRestore(j: Journal, s: System, now: nat, engineOk: bool): Journal {
    if RestorationAllowed(s.policy, now, s.epoch) && engineOk
    then LogPlanned(j, s, now, s.policy.workspacePhase.value.ordinaryCapacity) else j
  }

  function LogPhaseEnd(j: Journal, s: System, now: nat, engineOk: bool): Journal {
    if s.policy.workspacePhase.None? then j
    else if RestoreOrdinary(s, now, engineOk).policy.capacity != s.policy.workspacePhase.value.ordinaryCapacity
    then LogClear(LogRestore(j, s, now, engineOk)) else LogRestore(j, s, now, engineOk)
  }

  /** What an event does to the evidence. */
  function LogEffect(j: Journal, s: System, e: Event): Journal {
    match e
    case RequestBegins(now) => LogBegin(j)
    case RequestEnds(now, completed) => LogEnd(j, ViewOf(s.policy), CountsTowardValidation(s.policy, now, completed), completed)
    case Checked(now, boundary, r, counters, engineOk) => LogCheck(j, s, now, boundary, r, counters, engineOk)
    case PhaseBegins(target) => j
    case PlannedResize(now, capacity) => LogPlanned(j, s, now, capacity)
    case PhaseEnds(now, engineOk) => LogPhaseEnd(j, s, now, engineOk)
  }

  /** Log an event's effect, and the position of any change of the engine's extent, whatever made it. */
  function LogEvent(j: Journal, s: System, e: Event): Journal {
    LogShift(LogEffect(j, s, e), Step(s, e).engine != s.engine)
  }

  function RunJournal(s: System, events: seq<Event>): Journal {
    if events == [] then EMPTY
    else
      var before := events[..|events| - 1];
      LogEvent(RunJournal(s, before), Run(s, before), events[|events| - 1])
  }

  /** Logging a sample at the policy's own capacity, with any pressure entry it brings. */
  function LogSampled(j: Journal, p: Policy, now: nat, state: State): Journal {
    var sampled := LogSample(j, now, state == NormalQuiet, p.capacity, EarnsCleanTime(p, now, p.capacity, state));
    if EntersPressure(p, state) then LogBreak(sampled) else sampled
  }

  lemma SampledSound(p: Policy, j: Journal, now: nat, boundary: Boundary, r: Reading)
    requires Sound(ViewOf(p), j)
    ensures Sound(ViewOf(Sampled(p, now, p.capacity, boundary, r)), LogSampled(j, p, now, StateAt(p, now, r)))
  {
    var v, state := ViewOf(p), StateAt(p, now, r);
    var quiet, earns := state == NormalQuiet, EarnsCleanTime(p, now, p.capacity, state);
    SampledView(p, now, boundary, r);
    SamplingSound(v, j, now, quiet, earns);
    if EntersPressure(p, state) {
      BrokenSound(Sampling(v, now, quiet, earns), LogSample(j, now, quiet, p.capacity, earns));
    }
  }

  lemma PollSound(s: System, j: Journal, now: nat, boundary: Boundary, r: Reading, counters: Option<VmCounters>)
    requires Bounded(s) && Sound(ViewOf(s.policy), j)
    ensures Sound(ViewOf(Poll(s, now, boundary, r, counters).0), LogPoll(j, s, now, r))
  {
    if SampleDue(s.policy, now) {
      SampledSound(s.policy, j, now, boundary, r);
      AlarmedView(Sampled(s.policy, now, s.engine, boundary, r), s.engine, StateAt(s.policy, now, r), counters);
    }
  }

  lemma PerformView(s: System, now: nat, action: Action, engineOk: bool)
    requires Bounded(s) && ActionInRange(s.policy, now, action)
    ensures ViewOf(Perform(s, now, action, engineOk).policy)
         == if engineOk && (Releases(action) || action.Recover?) then Changing(ViewOf(s.policy), action.target) else ViewOf(s.policy)
  {
    if Releases(action) {
      ReleasedView(s.policy, now, false, action.target);
      ReleasedView(s.policy, now, true, action.target);
      ChangedView(s.policy, now, action.target);
    } else if action.Recover? {
      ChangedView(s.policy, now, action.target);
      FailedView(s.policy, now);
    }
  }

  lemma PerformSound(s: System, j: Journal, now: nat, action: Action, engineOk: bool)
    requires Bounded(s) && ActionInRange(s.policy, now, action) && Sound(ViewOf(s.policy), j)
    ensures Sound(ViewOf(Perform(s, now, action, engineOk).policy), LogAction(j, ViewOf(s.policy), action, engineOk))
  {
    PerformView(s, now, action, engineOk);
    if engineOk && (Releases(action) || action.Recover?) {
      ChangingSound(ViewOf(s.policy), j, action.target);
    }
  }

  lemma CheckSound(s: System, j: Journal, now: nat, boundary: Boundary, r: Reading, counters: Option<VmCounters>, engineOk: bool)
    requires Bounded(s) && Sound(ViewOf(s.policy), j)
    ensures Sound(ViewOf(Check(s, now, boundary, r, counters, engineOk).policy), LogCheck(j, s, now, boundary, r, counters, engineOk))
  {
    PollBounds(s, now, boundary, r, counters);
    PollSound(s, j, now, boundary, r, counters);
    var polled := Poll(s, now, boundary, r, counters);
    PerformSound(s.(policy := polled.0), LogPoll(j, s, now, r), now, polled.1, engineOk);
  }

  lemma PlannedSound(s: System, j: Journal, now: nat, capacity: nat)
    requires Bounded(s) && Sound(ViewOf(s.policy), j)
    ensures Sound(ViewOf(Planned(s, now, capacity).policy), LogPlanned(j, s, now, capacity))
  {
    if PlannedChanges(s.policy, now, capacity) {
      PlannedView(s, now, capacity);
      var v := ViewOf(s.policy);
      if Breaks(s.policy) {
        BrokenSound(v, j);
        ResizingSound(Cleared(v), LogBreak(j), capacity);
      } else {
        RecordingSound(v, j, LogKept(j).kept, j.shifts);
        ResizingSound(v, LogKept(j), capacity);
      }
    }
  }

  /** A planned change clears the credit, or there is none, or it resizes under it. */
  lemma PlannedView(s: System, now: nat, capacity: nat)
    requires PlannedChanges(s.policy, now, capacity)
    ensures var w := ViewOf(Planned(s, now, capacity).policy);
            var v := ViewOf(s.policy);
            w == if Breaks(s.policy) then Resizing(Cleared(v), capacity) else Resizing(v, capacity)
  {
    var p := s.policy;
    ResizedView(p, now, capacity);
    ResizedView(ClearWorkspaceValidation(p), now, capacity);
    ClearedView(p);
  }

  lemma RestoreSound(s: System, j: Journal, now: nat, engineOk: bool)
    requires Bounded(s) && Sound(ViewOf(s.policy), j)
    ensures Sound(ViewOf(RestoreOrdinary(s, now, engineOk).policy), LogRestore(j, s, now, engineOk))
  {
    if RestorationAllowed(s.policy, now, s.epoch) {
      if engineOk {
        PlannedSound(s, j, now, s.policy.workspacePhase.value.ordinaryCapacity);
      } else {
        FailedView(s.policy, now);
      }
    }
  }

  lemma RestoreKeepsPhase(s: System, now: nat, engineOk: bool)
    ensures RestoreOrdinary(s, now, engineOk).policy.workspacePhase == s.policy.workspacePhase
  {
  }

  lemma FinishSound(p: Policy, j: Journal)
    requires PolicyBounds(p) && Sound(ViewOf(p), j) && p.workspacePhase.Some?
    ensures Sound(ViewOf(FinishPhase(p)), if p.capacity != p.workspacePhase.value.ordinaryCapacity then LogClear(j) else j)
  {
    PhaseView(p, 0, 0);
    if p.capacity == p.workspacePhase.value.ordinaryCapacity {
      PhaseSound(ViewOf(p), j, None);
    } else {
      ClearedView(LeavePhase(p));
      ClearedLeaveSound(ViewOf(p), j);
    }
  }

  lemma ClearedLeaveSound(v: View, j: Journal)
    requires Sound(v, j)
    ensures Sound(Cleared(v.(ordinary := None)), LogClear(j))
  {
    NoCreditBacked(Cleared(v.(ordinary := None)), LogClear(j));
    JustifiedStable(v, j, Cleared(v.(ordinary := None)), LogClear(j));
  }

  lemma PhaseEndSound(s: System, j: Journal, now: nat, engineOk: bool)
    requires Bounded(s) && Sound(ViewOf(s.policy), j)
    ensures Sound(ViewOf(EndPhase(s, now, engineOk).policy), LogPhaseEnd(j, s, now, engineOk))
  {
    if s.policy.workspacePhase.Some? {
      RestoreSound(s, j, now, engineOk);
      RestoreBounded(s, now, engineOk);
      RestoreKeepsPhase(s, now, engineOk);
      FinishSound(RestoreOrdinary(s, now, engineOk).policy, LogRestore(j, s, now, engineOk));
    }
  }

  lemma PhaseBeginSound(s: System, j: Journal, target: nat)
    requires Bounded(s) && Sound(ViewOf(s.policy), j)
    ensures Sound(ViewOf(TryBeginPhase(s.policy, s.engine, target, s.epoch).0), j)
  {
    if TryBeginPhase(s.policy, s.engine, target, s.epoch).1 == Some(true) {
      PhaseView(s.policy, s.engine, s.epoch);
      PhaseSound(ViewOf(s.policy), j, Some(s.engine));
    }
  }

  lemma EffectSound(s: System, j: Journal, e: Event)
    requires Bounded(s) && Sound(ViewOf(s.policy), j)
    ensures Sound(ViewOf(Step(s, e).policy), LogEffect(j, s, e))
  {
    match e
    case RequestBegins(now) =>
      BeginView(s.policy, now);
      BeginningSound(ViewOf(s.policy), j);
    case RequestEnds(now, completed) =>
      EndView(s.policy, now, completed);
      EndingSound(ViewOf(s.policy), j, CountsTowardValidation(s.policy, now, completed), completed);
    case Checked(now, boundary, r, counters, engineOk) => CheckSound(s, j, now, boundary, r, counters, engineOk);
    case PhaseBegins(target) => PhaseBeginSound(s, j, target);
    case PlannedResize(now, capacity) => PlannedSound(s, j, now, capacity);
    case PhaseEnds(now, engineOk) => PhaseEndSound(s, j, now, engineOk);
  }

  lemma StepSound(s: System, j: Journal, e: Event)
    requires Bounded(s) && Sound(ViewOf(s.policy), j)
    ensures Sound(ViewOf(Step(s, e).policy), LogEvent(j, s, e))
  {
    EffectSound(s, j, e);
    ShiftSound(ViewOf(Step(s, e).policy), LogEffect(j, s, e), Step(s, e).engine != s.engine);
  }

  lemma StartSound(initialCapacity: nat, maximumCapacity: nat)
    requires ValidLimits(initialCapacity, maximumCapacity)
    ensures Sound(ViewOf(NewPolicy(initialCapacity, maximumCapacity)), EMPTY)
  {
    assert EMPTY.done + EMPTY.pending == [];
  }

  lemma {:induction false} RunSound(initialCapacity: nat, maximumCapacity: nat, events: seq<Event>)
    requires ValidLimits(initialCapacity, maximumCapacity)
    ensures var s := NewSystem(initialCapacity, maximumCapacity);
            Sound(ViewOf(Run(s, events).policy), RunJournal(s, events))
  {
    var s := NewSystem(initialCapacity, maximumCapacity);
    if events == [] {
      StartSound(initialCapacity, maximumCapacity);
    } else {
      var before := events[..|events| - 1];
      RunSound(initialCapacity, maximumCapacity, before);
      RunBounded(initialCapacity, maximumCapacity, before);
      StepSound(Run(s, before), RunJournal(s, before), events[|events| - 1]);
    }
  }

  /** In every run, through growth, release, cancellation and workspace phases, an extent is earned
      only by at least fifteen seconds of clean intervals at exactly that extent, inside completed
      requests, with no adaptive change or pressure entry among them; it never exceeds the maximum. */
  lemma EarnedIsCertified(initialCapacity: nat, maximumCapacity: nat, events: seq<Event>)
    requires ValidLimits(initialCapacity, maximumCapacity)
    ensures var s := NewSystem(initialCapacity, maximumCapacity);
            var earned := Run(s, events).policy.earnedTarget;
            earned.Some? ==>
              earned.value <= maximumCapacity && exists intervals :: Certified(RunJournal(s, events), intervals, earned.value)
  {
    RunSound(initialCapacity, maximumCapacity, events);
    RunBounded(initialCapacity, maximumCapacity, events);
    var s := NewSystem(initialCapacity, maximumCapacity);
    if Run(s, events).policy.earnedTarget.Some? {
      assert Certified(RunJournal(s, events), RunJournal(s, events).earned, Run(s, events).policy.earnedTarget.value);
    }
  }

  // ----- an earned target never falls

  ghost predicate NotBelow(before: Option<nat>, after: Option<nat>) {
    before.Some? ==> after.Some? && after.value >= before.value
  }

  /** No step lowers the earned target, and only the end of a completed request moves it. */
  lemma EarnedNeverFalls(s: System, e: Event)
    requires Bounded(s)
    ensures NotBelow(s.policy.earnedTarget, Step(s, e).policy.earnedTarget)
    ensures Step(s, e).policy.earnedTarget != s.policy.earnedTarget ==> e.RequestEnds? && e.completed
  {
    match e
    case RequestBegins(now) =>
    case RequestEnds(now, completed) => EndView(s.policy, now, completed);
    case Checked(now, boundary, r, counters, engineOk) =>
      CheckEarned(s, now, boundary, r, counters, engineOk);
    case PhaseBegins(target) =>
    case PlannedResize(now, capacity) =>
    case PhaseEnds(now, engineOk) => EndPhaseEarned(s, now, engineOk);
  }

  lemma CheckEarned(s: System, now: nat, boundary: Boundary, r: Reading, counters: Option<VmCounters>, engineOk: bool)
    requires Bounded(s)
    ensures Check(s, now, boundary, r, counters, engineOk).policy.earnedTarget == s.policy.earnedTarget
  {
    PollBounds(s, now, boundary, r, counters);
    var (q, action) := Poll(s, now, boundary, r, counters);
    PerformView(s.(policy := q), now, action, engineOk);
    SampledView(s.policy, now, boundary, r);
    AlarmedView(Sampled(s.policy, now, s.engine, boundary, r), s.engine, StateAt(s.policy, now, r), counters);
    assert ViewOf(q).earned == ViewOf(s.policy).earned;
  }

  lemma RestoreEarned(s: System, now: nat, engineOk: bool)
    ensures RestoreOrdinary(s, now, engineOk).policy.earnedTarget == s.policy.earnedTarget
  {
  }

  lemma FinishEarned(p: Policy)
    ensures FinishPhase(p).earnedTarget == p.earnedTarget
  {
    ClearedView(LeavePhase(p));
    PhaseView(p, 0, 0);
    assert ViewOf(FinishPhase(p)).earned == ViewOf(p).earned;
  }

  lemma EndPhaseEarned(s: System, now: nat, engineOk: bool)
    ensures EndPhase(s, now, engineOk).policy.earnedTarget == s.policy.earnedTarget
  {
    RestoreEarned(s, now, engineOk);
    FinishEarned(RestoreOrdinary(s, now, engineOk).policy);
  }
}
