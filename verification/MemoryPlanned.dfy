/** Where extent changes may fall among the intervals that earn an extent: an adaptive change never
    does; a planned one does only when it meets neither a pending trial nor empty credit. */
module MemoryPlanned {
  import opened Wrappers
  import opened MemoryPolicy
  import opened MemorySystem
  import opened MemoryEvidence
  import opened MemoryRuns

  // ----- every extent change is a break or is kept

  ghost predicate Covered(j: Journal) {
    forall b :: b in j.shifts ==> b in j.breaks || b in j.kept
  }

  /** An effect extends both lists, and marks the present position if it may have moved the extent. */
  ghost predicate Marks(j: Journal, l: Journal, shifted: bool) {
    && l.shifts == j.shifts && j.breaks <= l.breaks && j.kept <= l.kept
    && (shifted ==> |l.samples| in l.breaks || |l.samples| in l.kept)
  }

  lemma ShiftCovered(j: Journal, l: Journal, shifted: bool)
    requires Covered(j) && Marks(j, l, shifted)
    ensures Covered(LogShift(l, shifted))
  {
  }

  lemma PolledMarks(s: System, j: Journal, now: nat, r: Reading)
    ensures Marks(j, LogPoll(j, s, now, r), false) && LogPoll(j, s, now, r).kept == j.kept
  {
  }

  lemma ActedMarks(s: System, j: Journal, now: nat, action: Action, engineOk: bool)
    ensures var l := LogAction(j, ViewOf(s.policy), action, engineOk);
            Marks(j, l, Perform(s, now, action, engineOk).engine != s.engine) && l.kept == j.kept
  {
  }

  lemma CheckMarks(s: System, j: Journal, now: nat, boundary: Boundary, r: Reading, counters: Option<VmCounters>, engineOk: bool)
    ensures var l := LogCheck(j, s, now, boundary, r, counters, engineOk);
            Marks(j, l, Check(s, now, boundary, r, counters, engineOk).engine != s.engine) && l.kept == j.kept
  {
    var polled := Poll(s, now, boundary, r, counters);
    PolledMarks(s, j, now, r);
    ActedMarks(s.(policy := polled.0), LogPoll(j, s, now, r), now, polled.1, engineOk);
  }

  lemma PlannedMarks(s: System, j: Journal, now: nat, capacity: nat)
    requires Bounded(s)
    ensures var l, shifted := LogPlanned(j, s, now, capacity), Planned(s, now, capacity).engine != s.engine;
            && Marks(j, l, shifted) && shifted == PlannedChanges(s.policy, now, capacity)
            && (l.kept == j.kept <==> !(shifted && !Breaks(s.policy)))
  {
  }

  lemma PhaseEndMarks(s: System, j: Journal, now: nat, engineOk: bool)
    requires Bounded(s)
    ensures var l, shifted := LogPhaseEnd(j, s, now, engineOk), EndPhase(s, now, engineOk).engine != s.engine;
            && Marks(j, l, shifted)
            && (l.kept == j.kept <==> !(shifted && !Breaks(s.policy)))
  {
    if s.policy.workspacePhase.Some? {
      PlannedMarks(s, j, now, s.policy.workspacePhase.value.ordinaryCapacity);
      var r := LogRestore(j, s, now, engineOk);
      assert Marks(j, r, EndPhase(s, now, engineOk).engine != s.engine);
    }
  }

  /** A planned change, or the restoration at a phase's end. */
  predicate PlannedShift(s: System, e: Event) {
    (e.PlannedResize? || e.PhaseEnds?) && Step(s, e).engine != s.engine
  }

  /** The event is a planned change that met neither a pending trial nor empty credit. */
  predicate Keeps(s: System, e: Event) {
    PlannedShift(s, e) && !Breaks(s.policy)
  }

  lemma EffectMarks(s: System, j: Journal, e: Event)
    requires Bounded(s)
    ensures var l := LogEffect(j, s, e);
            Marks(j, l, Step(s, e).engine != s.engine) && (l.kept == j.kept <==> !Keeps(s, e))
  {
    match e
    case RequestBegins(now) =>
    case RequestEnds(now, completed) =>
    case Checked(now, boundary, r, counters, engineOk) => CheckMarks(s, j, now, boundary, r, counters, engineOk);
    case PhaseBegins(target) =>
    case PlannedResize(now, capacity) => PlannedMarks(s, j, now, capacity);
    case PhaseEnds(now, engineOk) => PhaseEndMarks(s, j, now, engineOk);
  }

  lemma {:induction false} RunCovered(initialCapacity: nat, maximumCapacity: nat, events: seq<Event>)
    requires ValidLimits(initialCapacity, maximumCapacity)
    ensures Covered(RunJournal(NewSystem(initialCapacity, maximumCapacity), events))
  {
    if events != [] {
      var s0, before, e := NewSystem(initialCapacity, maximumCapacity), events[..|events| - 1], events[|events| - 1];
      var s, j := Run(s0, before), RunJournal(s0, before);
      RunCovered(initialCapacity, maximumCapacity, before);
      RunBounded(initialCapacity, maximumCapacity, before);
      EffectMarks(s, j, e);
      ShiftCovered(j, LogEffect(j, s, e), Step(s, e).engine != s.engine);
    }
  }

  // ----- runs whose planned changes keep no credit

  /** Every planned change and phase-end restoration of the run met a pending trial or no credit. */
  predicate Harmless(s: System, events: seq<Event>) {
    events == [] ||
    var before := events[..|events| - 1];
    Harmless(s, before) && !Keeps(Run(s, before), events[|events| - 1])
  }

  /** The journal keeps a change exactly when some planned change met neither. */
  lemma {:induction false} KeptIff(initialCapacity: nat, maximumCapacity: nat, events: seq<Event>)
    requires ValidLimits(initialCapacity, maximumCapacity)
    ensures var s := NewSystem(initialCapacity, maximumCapacity);
            RunJournal(s, events).kept == [] <==> Harmless(s, events)
  {
    if events != [] {
      var s0, before, e := NewSystem(initialCapacity, maximumCapacity), events[..|events| - 1], events[|events| - 1];
      var s, j := Run(s0, before), RunJournal(s0, before);
      KeptIff(initialCapacity, maximumCapacity, before);
      RunBounded(initialCapacity, maximumCapacity, before);
      EffectMarks(s, j, e);
      assert RunJournal(s0, events).kept == LogEffect(j, s, e).kept;
    }
  }

  ghost predicate Undisturbed(shifts: seq<nat>, intervals: seq<nat>) {
    forall b :: b in shifts ==> Outside(b, intervals)
  }

  /** Any extent change among the intervals was kept. */
  ghost predicate OnlyKeptAmong(j: Journal, intervals: seq<nat>) {
    forall b :: b in j.shifts ==> b in j.kept || Outside(b, intervals)
  }

  /** An earned extent has a certificate with nothing but kept changes among its intervals. */
  ghost predicate EarnedAcrossKept(earned: Option<nat>, j: Journal) {
    earned.Some? ==> exists intervals :: Certified(j, intervals, earned.value) && OnlyKeptAmong(j, intervals)
  }

  /** An earned extent has a certificate with no extent change of any kind among its intervals. */
  ghost predicate EarnedUndisturbed(earned: Option<nat>, j: Journal) {
    earned.Some? ==> exists intervals :: Certified(j, intervals, earned.value) && Undisturbed(j.shifts, intervals)
  }

  lemma EarnedCovered(v: View, j: Journal)
    requires Covered(j) && Sound(v, j)
    ensures EarnedAcrossKept(v.earned, j)
    ensures j.kept == [] ==> EarnedUndisturbed(v.earned, j)
  {
    if v.earned.Some? {
      assert Certified(j, j.earned, v.earned.value) && OnlyKeptAmong(j, j.earned);
      if j.kept == [] {
        assert Undisturbed(j.shifts, j.earned);
      }
    }
  }

  /** In every run an earned extent has a certificate with no extent change among its intervals but
      planned changes that met neither a pending trial nor empty credit. */
  lemma OnlyKeptChangesAmong(initialCapacity: nat, maximumCapacity: nat, events: seq<Event>)
    requires ValidLimits(initialCapacity, maximumCapacity)
    ensures var s := NewSystem(initialCapacity, maximumCapacity);
            EarnedAcrossKept(Run(s, events).policy.earnedTarget, RunJournal(s, events))
  {
    RunSound(initialCapacity, maximumCapacity, events);
    RunCovered(initialCapacity, maximumCapacity, events);
    var s := NewSystem(initialCapacity, maximumCapacity);
    EarnedCovered(ViewOf(Run(s, events).policy), RunJournal(s, events));
  }

  /** In every run whose planned changes and phase-end restorations each met a pending trial or no
      credit, an earned extent has a certificate with no extent change of any kind among its intervals. */
  lemma NoChangeAmong(initialCapacity: nat, maximumCapacity: nat, events: seq<Event>)
    requires ValidLimits(initialCapacity, maximumCapacity)
    requires Harmless(NewSystem(initialCapacity, maximumCapacity), events)
    ensures var s := NewSystem(initialCapacity, maximumCapacity);
            EarnedUndisturbed(Run(s, events).policy.earnedTarget, RunJournal(s, events))
  {
    RunSound(initialCapacity, maximumCapacity, events);
    RunCovered(initialCapacity, maximumCapacity, events);
    KeptIff(initialCapacity, maximumCapacity, events);
    var s := NewSystem(initialCapacity, maximumCapacity);
    EarnedCovered(ViewOf(Run(s, events).policy), RunJournal(s, events));
  }

  /** A planned change leaves credit exactly when it meets neither a pending trial nor empty credit;
      it then leaves all of it. */
  lemma CreditOutlivesIff(s: System, e: Event)
    requires Bounded(s) && PlannedShift(s, e)
    ensures var v, w := ViewOf(s.policy), ViewOf(Step(s, e).policy);
            && (NoCredit(w) <==> Breaks(s.policy))
            && (!Breaks(s.policy) ==> w.clean == v.clean && w.completedClean == v.completedClean && w.validated == v.validated)
  {
    match e
    case PlannedResize(now, capacity) =>
      PlannedMarks(s, EMPTY, now, capacity);
      PlannedView(s, now, capacity);
    case PhaseEnds(now, engineOk) =>
      var ordinary := s.policy.workspacePhase.value.ordinaryCapacity;
      PlannedMarks(s, EMPTY, now, ordinary);
      PlannedView(s, now, ordinary);
      PhaseView(RestoreOrdinary(s, now, engineOk).policy, 0, 0);
  }
}
