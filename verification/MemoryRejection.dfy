/** What it takes to take extent away again: a trial is rolled back only for busy time spent while
    it was pending, and work sheds slots only for repeated churning operations. */
module MemoryRejection {
  import opened Wrappers
  import opened MemoryPolicy
  import opened MemorySystem

  // ----- what a run has seen

  /** Churning operations since the last change the controller made, and busy time since the
      pending trial began. */
  datatype Toll = Toll(churns: nat, busy: nat)

  predicate Samples(s: System, e: Event) {
    e.Checked? && MIN_CAPACITY <= s.engine <= s.policy.maximumCapacity && SampleDue(s.policy, e.now)
  }

  /** A sample at the end of a completed operation of a request, with normal pressure, whose counters
      show churn. */
  predicate ChurningSample(s: System, e: Event) {
    && Samples(s, e) && e.boundary == CompletedOperation && s.policy.requestStarted.Some?
    && e.reading.pressure == Some(Normal) && e.reading.churn == Some(true)
  }

  /** The interval a busy sample closes, if there was no gap. */
  function BusyTime(s: System, e: Event): nat {
    if Samples(s, e) && StateAt(s.policy, e.now, e.reading) == NormalBusy && !Gap(s.policy, e.now)
    then Elapsed(s.policy, e.now).value else 0
  }

  /** The toll with this event's sample, before its action. */
  function Charged(w: Toll, s: System, e: Event): Toll {
    Toll(w.churns + (if ChurningSample(s, e) then 1 else 0), w.busy + BusyTime(s, e))
  }

  function Tolling(w: Toll, s: System, e: Event): Toll {
    var charged, t := Charged(w, s, e), Step(s, e);
    Toll(if e.Checked? && t.engine != s.engine then 0 else charged.churns,
         if t.policy.trialCapacity.None? then 0 else charged.busy)
  }

  function RunToll(s: System, events: seq<Event>): Toll {
    if events == [] then Toll(0, 0)
    else
      var before := events[..|events| - 1];
      Tolling(RunToll(s, before), Run(s, before), events[|events| - 1])
  }

  // ----- the invariant

  /** Recorded time never exceeds what was seen, and without a trial none is recorded against one. */
  ghost predicate Accounted(churn: nat, adverse: nat, trial: bool, w: Toll) {
    churn <= w.churns * SAMPLE_GAP_LIMIT && adverse <= w.busy && (!trial ==> adverse == 0)
  }

  ghost predicate PolicyAccounted(p: Policy, w: Toll) {
    Accounted(p.activeChurn, p.trialAdverseActive, p.trialCapacity.Some?, w)
  }

  /** A transition that records nothing new. */
  ghost predicate NothingNew(p: Policy, q: Policy) {
    && q.activeChurn <= p.activeChurn && q.trialAdverseActive <= p.trialAdverseActive
    && (q.trialCapacity.None? && (p.trialCapacity.None? ==> p.trialAdverseActive == 0) ==> q.trialAdverseActive == 0)
  }

  lemma MeasuredToll(s: System, w: Toll, e: Event)
    requires Samples(s, e) && PolicyAccounted(s.policy, w)
    ensures PolicyAccounted(Measured(s.policy, e.now, s.engine, e.boundary, e.reading), Charged(w, s, e))
  {
  }

  lemma InterruptedNew(p: Policy, now: nat, always: bool)
    ensures NothingNew(p, InterruptedWork(p, now, always))
  {
  }

  lemma ChangedNew(p: Policy, now: nat, oldCapacity: nat, newCapacity: nat)
    requires p.trialCapacity.None? ==> p.trialAdverseActive == 0
    ensures var q := CapacityChanged(p, now, oldCapacity, newCapacity);
            NothingNew(p, q) && q.activeChurn == 0 && (q.trialCapacity.None? ==> q.trialAdverseActive == 0)
  {
  }

  lemma Carried(p: Policy, q: Policy, w: Toll)
    requires PolicyAccounted(p, w) && NothingNew(p, q)
    ensures PolicyAccounted(q, w)
  {
  }

  lemma SampledToll(s: System, w: Toll, e: Event)
    requires Samples(s, e) && PolicyAccounted(s.policy, w)
    ensures PolicyAccounted(Sampled(s.policy, e.now, s.engine, e.boundary, e.reading), Charged(w, s, e))
  {
    MeasuredToll(s, w, e);
    var m := Measured(s.policy, e.now, s.engine, e.boundary, e.reading);
    InterruptedNew(m, e.now, false);
    Carried(m, InterruptedWork(m, e.now, false), Charged(w, s, e));
  }

  /** What a polled action shows: a rollback was paid for in busy time, a churn release in churning
      operations. */
  ghost predicate PaidFor(action: Action, w: Toll) {
    && (action.Rollback? ==> w.busy >= ACTIVE_VALIDATION)
    && (action.ChurnRelease? ==> w.churns >= 3)
  }

  lemma PolledToll(s: System, w: Toll, e: Event)
    requires e.Checked? && Bounded(s) && PolicyAccounted(s.policy, w)
    ensures var (q, action) := Poll(s, e.now, e.boundary, e.reading, e.counters);
            PolicyAccounted(q, Charged(w, s, e)) && PaidFor(action, Charged(w, s, e))
  {
    if SampleDue(s.policy, e.now) {
      SampledToll(s, w, e);
      ActionPaid(Sampled(s.policy, e.now, s.engine, e.boundary, e.reading), e.now, s.engine, StateAt(s.policy, e.now, e.reading), Charged(w, s, e));
      var q := Sampled(s.policy, e.now, s.engine, e.boundary, e.reading);
      var state := StateAt(s.policy, e.now, e.reading);
      assert NothingNew(q, WithCounters(Alarmed(q, s.engine, state), e.counters));
    }
  }

  lemma ActionPaid(p: Policy, now: nat, capacity: nat, state: State, w: Toll)
    requires capacity > 0 && PolicyAccounted(p, w)
    ensures PaidFor(ActionFor(p, now, capacity, state), w)
  {
  }

  lemma PerformedToll(s: System, w: Toll, now: nat, action: Action, engineOk: bool)
    requires PolicyAccounted(s.policy, w)
    ensures var t := Perform(s, now, action, engineOk);
            PolicyAccounted(t.policy, Toll(if t.engine != s.engine then 0 else w.churns, if t.policy.trialCapacity.None? then 0 else w.busy))
  {
    if engineOk && Releases(action) {
      InterruptedNew(s.policy, now, false);
      InterruptedNew(s.policy, now, true);
      var p := match action
        case Rollback(_) => InterruptedWork(s.policy, now, false)
        case ChurnRelease(_) => InterruptedWork(s.policy, now, true)
        case _ => s.policy;
      Carried(s.policy, p, w);
      ChangedNew(p, now, s.engine, action.target);
    } else if engineOk && action.Recover? {
      ChangedNew(s.policy, now, s.engine, action.target);
    } else if action.Recover? {
      assert NothingNew(s.policy, RecoveryFailed(s.policy, now));
    }
  }

  ghost predicate SameToll(p: Policy, q: Policy) {
    q.activeChurn == p.activeChurn && q.trialAdverseActive == p.trialAdverseActive && q.trialCapacity == p.trialCapacity
  }

  lemma OutgrownToll(p: Policy)
    ensures SameToll(p, AcceptOutgrown(p))
  {
  }

  lemma AcceptedNew(p: Policy)
    ensures NothingNew(p, AcceptCurrent(p))
  {
  }

  lemma ClosedToll(p: Policy)
    ensures SameToll(p, CloseRequest(p))
  {
  }

  lemma EndedNew(p: Policy, now: nat, completed: bool)
    ensures NothingNew(p, MemoryPolicy.EndRequest(p, now, completed))
  {
    OutgrownToll(p);
    AcceptedNew(AcceptOutgrown(p));
    ClosedToll(AcceptCurrent(AcceptOutgrown(p)));
    ClosedToll(p);
  }

  lemma ClearedNew(p: Policy)
    ensures NothingNew(p, ClearWorkspaceValidation(p)) && ClearWorkspaceValidation(p).trialCapacity == p.trialCapacity
  {
    assert ClearCapacityValidation(p).trialCapacity == p.trialCapacity && ClearCapacityValidation(p).activeChurn == 0;
  }

  lemma PlannedNew(s: System, now: nat, capacity: nat)
    ensures NothingNew(s.policy, Planned(s, now, capacity).policy)
  {
    ClearedNew(s.policy);
    assert NothingNew(s.policy, Resized(s.policy, now, capacity));
    var c := ClearWorkspaceValidation(s.policy);
    assert NothingNew(c, Resized(c, now, capacity)) && (Resized(c, now, capacity).trialCapacity.Some? <==> c.trialCapacity.Some?);
  }

  lemma PhaseEndNew(s: System, now: nat, engineOk: bool)
    ensures NothingNew(s.policy, EndPhase(s, now, engineOk).policy)
  {
    if s.policy.workspacePhase.Some? {
      PlannedNew(s, now, s.policy.workspacePhase.value.ordinaryCapacity);
      var t := RestoreOrdinary(s, now, engineOk);
      assert NothingNew(s.policy, t.policy) && t.policy.trialCapacity.Some? == s.policy.trialCapacity.Some?;
      FinishNew(t.policy);
    }
  }

  lemma FinishNew(p: Policy)
    ensures NothingNew(p, FinishPhase(p)) && FinishPhase(p).trialCapacity == p.trialCapacity
  {
    var l := LeavePhase(p);
    assert l.activeChurn == p.activeChurn && l.trialAdverseActive == p.trialAdverseActive && l.trialCapacity == p.trialCapacity;
    ClearedNew(l);
  }

  lemma CheckToll(s: System, w: Toll, e: Event)
    requires Bounded(s) && PolicyAccounted(s.policy, w) && e.Checked?
    ensures PolicyAccounted(Step(s, e).policy, Tolling(w, s, e))
  {
    PolledToll(s, w, e);
    var (q, action) := Poll(s, e.now, e.boundary, e.reading, e.counters);
    PerformedToll(s.(policy := q), Charged(w, s, e), e.now, action, e.engineOk);
  }

  lemma StepToll(s: System, w: Toll, e: Event)
    requires Bounded(s) && PolicyAccounted(s.policy, w)
    ensures PolicyAccounted(Step(s, e).policy, Tolling(w, s, e))
  {
    match e
    case RequestBegins(now) =>
    case RequestEnds(now, completed) => EndedNew(s.policy, now, completed);
    case Checked(_, _, _, _, _) => CheckToll(s, w, e);
    case PhaseBegins(target) => assert NothingNew(s.policy, Step(s, e).policy);
    case PlannedResize(now, capacity) => PlannedNew(s, now, capacity);
    case PhaseEnds(now, engineOk) => PhaseEndNew(s, now, engineOk);
  }

  lemma {:induction false} RunAccounted(initialCapacity: nat, maximumCapacity: nat, events: seq<Event>)
    requires ValidLimits(initialCapacity, maximumCapacity)
    ensures var s := NewSystem(initialCapacity, maximumCapacity);
            PolicyAccounted(Run(s, events).policy, RunToll(s, events))
  {
    if events != [] {
      var s, before := NewSystem(initialCapacity, maximumCapacity), events[..|events| - 1];
      RunAccounted(initialCapacity, maximumCapacity, before);
      RunBounded(initialCapacity, maximumCapacity, before);
      StepToll(Run(s, before), RunToll(s, before), events[|events| - 1]);
    }
  }

  /** In every run a trial is rolled back only after at least fifteen seconds of busy sampled
      intervals while it was pending, and churn takes slots away only after at least three churning
      operations of requests since the controller last changed the extent. */
  lemma RejectionIsPaidFor(initialCapacity: nat, maximumCapacity: nat, events: seq<Event>, e: Event)
    requires ValidLimits(initialCapacity, maximumCapacity) && e.Checked?
    ensures var s0 := NewSystem(initialCapacity, maximumCapacity);
            var s := Run(s0, events);
            PaidFor(Poll(s, e.now, e.boundary, e.reading, e.counters).1, Charged(RunToll(s0, events), s, e))
  {
    var s0 := NewSystem(initialCapacity, maximumCapacity);
    RunAccounted(initialCapacity, maximumCapacity, events);
    RunBounded(initialCapacity, maximumCapacity, events);
    PolledToll(Run(s0, events), RunToll(s0, events), e);
  }

  // ----- counter verdicts

  lemma QuotientReaches(a: real, t: real, limit: real)
    requires t > 0.0
    ensures a / t >= limit <==> a >= limit * t
  {
    var q := a / t;
    assert q * t == a;
    if q >= limit {
      assert (q - limit) * t >= 0.0;
    } else {
      assert (limit - q) * t > 0.0;
    }
  }

  /** The cross-multiplied comparison is the rate comparison: bytes per second against 16 MiB. */
  lemma VetoIsRate(bytes: nat, elapsed: nat)
    requires elapsed > 0
    ensures ReachesVeto(bytes, elapsed) <==> bytes as real / (elapsed as real / 1000000000.0) >= 16777216.0
  {
    var t := elapsed as real / 1000000000.0;
    QuotientReaches(bytes as real, t, 16777216.0);
    assert (bytes * SECOND) as real == bytes as real * 1000000000.0;
    assert (COMPRESSION_VETO_BYTES_PER_SECOND * elapsed) as real == 16777216.0 * elapsed as real;
  }

  /** A verdict exists exactly when all four counters moved forward in whole representable byte
      counts between readings of one page size; churn is never reported with quiet. */
  lemma VerdictsAgree(after: VmCounters, before: VmCounters, elapsed: nat)
    ensures ChurningSince(after, before, elapsed).Some? <==> QuietSince(after, before, elapsed).Some?
    ensures QuietSince(after, before, elapsed).Some? ==>
              && elapsed > 0 && after.pageBytes == before.pageBytes > 0
              && after.compressions >= before.compressions && after.decompressions >= before.decompressions
              && after.swapins >= before.swapins && after.swapouts >= before.swapouts
    ensures QuietSince(after, before, elapsed) == Some(true) ==>
              after.swapouts == before.swapouts && ChurningSince(after, before, elapsed) == Some(false)
  {
    if after.swapouts > before.swapouts && after.pageBytes > 0 {
      assert (after.swapouts - before.swapouts) * after.pageBytes > 0;
    }
  }

  /** Two readings can be compared: time has passed, the page size is the same, and every counter moved
      forward by a number of bytes that fits 64 bits. */
  predicate Comparable(after: VmCounters, before: VmCounters, elapsed: nat) {
    && elapsed > 0 && after.pageBytes == before.pageBytes > 0
    && before.compressions <= after.compressions && (after.compressions - before.compressions) * after.pageBytes <= U64_MAX
    && before.decompressions <= after.decompressions && (after.decompressions - before.decompressions) * after.pageBytes <= U64_MAX
    && before.swapins <= after.swapins && (after.swapins - before.swapins) * after.pageBytes <= U64_MAX
    && before.swapouts <= after.swapouts && (after.swapouts - before.swapouts) * after.pageBytes <= U64_MAX
  }

  /** A machine is quiet when it swapped nothing out and compressed less than 16 MiB a second. */
  lemma QuietMeans(after: VmCounters, before: VmCounters, elapsed: nat)
    ensures QuietSince(after, before, elapsed).Some? <==> Comparable(after, before, elapsed)
    ensures Comparable(after, before, elapsed) ==>
              (QuietSince(after, before, elapsed) == Some(true) <==>
                 after.swapouts == before.swapouts && !ReachesVeto((after.compressions - before.compressions) * after.pageBytes, elapsed))
  {
    if Comparable(after, before, elapsed) && after.swapouts > before.swapouts {
      PositiveProduct(after.swapouts - before.swapouts, after.pageBytes);
    }
  }

  lemma PositiveProduct(a: nat, b: nat)
    requires a > 0 && b > 0
    ensures a * b > 0
  {
  }

  /** It churns when it is not quiet and swapped something out or decompressed 16 MiB a second or more. */
  lemma ChurnMeans(after: VmCounters, before: VmCounters, elapsed: nat)
    requires Comparable(after, before, elapsed)
    ensures ChurningSince(after, before, elapsed) == Some(true) <==>
              && QuietSince(after, before, elapsed) == Some(false)
              && (after.swapouts > before.swapouts
                  || ReachesVeto((after.decompressions - before.decompressions) * after.pageBytes, elapsed))
  {
    QuietMeans(after, before, elapsed);
  }
}
