/** A growth the engine refuses backs off like an interruption: nothing grows until the doubled
    delay has passed, unless a trial has been accepted since. */
module MemoryRefusal {
  import opened Wrappers
  import opened MemoryPolicy
  import opened MemorySystem
  import opened MemoryPacing

  /** The controller decided to grow and the engine refused: at a check, or at a phase's end. */
  predicate RefusesGrowth(s: System, e: Event) {
    match e
    case Checked(now, boundary, r, counters, engineOk) =>
      MIN_CAPACITY <= s.engine <= s.policy.maximumCapacity && Poll(s, now, boundary, r, counters).1.Recover? && !engineOk
    case PhaseEnds(now, engineOk) => RestorationAllowed(s.policy, now, s.epoch) && !engineOk
    case _ => false
  }

  /** A request ends and its trial is accepted, which forgets every backoff. */
  predicate Accepts(s: System, e: Event) {
    match e
    case RequestEnds(now, completed) => CountsTowardValidation(s.policy, now, completed) && AcceptsTrial(AcceptOutgrown(s.policy))
    case _ => false
  }

  // ----- how each event moves the backoff

  /** The backoff stays as it is or is renewed, for twice the delay, from this moment. */
  ghost predicate Renews(c: Pace, d: Pace, now: nat) {
    || (d.retry == c.retry && d.delay == c.delay)
    || (d.retry == Some(now + Doubled(c.delay)) && d.delay == Doubled(c.delay))
  }

  /** What an event does to the backoff, and what growth it makes has waited for. */
  ghost predicate Moves(s: System, e: Event) {
    var c, d := PaceOf(s.policy), PaceOf(Step(s, e).policy);
    && (TimeOf(e).None? ==> d.retry == c.retry && d.delay == c.delay)
    && (TimeOf(e).Some? && !Accepts(s, e) ==> Renews(c, d, TimeOf(e).value))
    && (RefusesGrowth(s, e) ==> d.retry == Some(TimeOf(e).value + Doubled(c.delay)) && d.delay == Doubled(c.delay))
    && (Grows(s, e) ==> Waited(c, TimeOf(e).value))
  }

  lemma CheckMoves(s: System, e: Event)
    requires Bounded(s) && e.Checked?
    ensures Moves(s, e)
  {
    var now, boundary, r, counters, engineOk := e.now, e.boundary, e.reading, e.counters, e.engineOk;
    PolledPace(s, now, boundary, r, counters);
    PollBounds(s, now, boundary, r, counters);
    var polled := Poll(s, now, boundary, r, counters);
    PerformedPace(s.(policy := polled.0), now, polled.1, engineOk);
    if SampleDue(s.policy, now) && EntersPressure(s.policy, StateAt(s.policy, now, r)) {
      PressureNeverGrows(s, now, boundary, r, counters);
    }
  }

  lemma EndedMoves(p: Policy, now: nat, completed: bool)
    requires !(CountsTowardValidation(p, now, completed) && AcceptsTrial(AcceptOutgrown(p)))
    ensures PaceOf(EndRequest(p, now, completed)).retry == PaceOf(p).retry && PaceOf(EndRequest(p, now, completed)).delay == PaceOf(p).delay
  {
  }

  lemma PhaseEndMoves(s: System, e: Event)
    requires Bounded(s) && e.PhaseEnds?
    ensures Moves(s, e)
  {
    RestoredPace(s, e.now, e.engineOk);
    FinishedPace(RestoreOrdinary(s, e.now, e.engineOk).policy);
  }

  lemma StepMoves(s: System, e: Event)
    requires Bounded(s)
    ensures Moves(s, e)
  {
    match e
    case RequestBegins(now) =>
    case RequestEnds(now, completed) => if !Accepts(s, e) { EndedMoves(s.policy, now, completed); }
    case Checked(_, _, _, _, _) => CheckMoves(s, e);
    case PhaseBegins(target) =>
    case PlannedResize(now, capacity) => PlannedPace(s, now, capacity);
    case PhaseEnds(now, engineOk) => PhaseEndMoves(s, e);
  }

  /** Accepting a trial is what forgets a backoff: none is owed, and the delay starts over. */
  lemma AcceptanceForgets(s: System, e: Event)
    requires Accepts(s, e)
    ensures var c := PaceOf(Step(s, e).policy);
            c.retry.None? && c.delay == RECOVERY_COOLDOWN && !c.trial
  {
    assert AcceptCurrent(AcceptOutgrown(s.policy)).retryNotBefore.None?;
  }

  // ----- every run

  /** At least until `until` the policy refuses to grow, and any renewal would end no earlier. */
  ghost predicate Owes(c: Pace, until: nat, latest: nat) {
    c.retry.Some? && c.retry.value >= until && until <= latest + c.delay
  }

  lemma StillOwes(s: System, e: Event, until: nat, latest: nat)
    requires Bounded(s) && Owes(PaceOf(s.policy), until, latest) && !Accepts(s, e)
    requires TimeOf(e).Some? ==> TimeOf(e).value >= latest
    ensures Owes(PaceOf(Step(s, e).policy), until, if TimeOf(e).Some? then TimeOf(e).value else latest)
    ensures Grows(s, e) ==> TimeOf(e).value >= until
  {
    StepMoves(s, e);
  }

  lemma RefusalOwes(s: System, e: Event)
    requires Bounded(s) && RefusesGrowth(s, e)
    ensures Owes(PaceOf(Step(s, e).policy), TimeOf(e).value + Doubled(s.policy.retryDelay), TimeOf(e).value)
  {
    StepMoves(s, e);
  }

  /** No trial is accepted by any event from position i on. */
  ghost predicate NoAcceptance(s: System, events: seq<Event>, i: nat) {
    forall k :: i <= k < |events| ==> !Accepts(Run(s, events[..k]), events[k])
  }

  lemma {:induction false} RunOwes(initialCapacity: nat, maximumCapacity: nat, events: seq<Event>, i: nat) returns (latest: nat)
    requires ValidLimits(initialCapacity, maximumCapacity) && Timed(events) && i < |events|
    requires RefusesGrowth(Run(NewSystem(initialCapacity, maximumCapacity), events[..i]), events[i])
    requires NoAcceptance(NewSystem(initialCapacity, maximumCapacity), events, i + 1)
    ensures var s := NewSystem(initialCapacity, maximumCapacity);
            Owes(PaceOf(Run(s, events).policy), TimeOf(events[i]).value + Doubled(Run(s, events[..i]).policy.retryDelay), latest)
    ensures exists k :: i <= k < |events| && TimeOf(events[k]) == Some(latest)
  {
    var s, before, last := NewSystem(initialCapacity, maximumCapacity), events[..|events| - 1], events[|events| - 1];
    RunBounded(initialCapacity, maximumCapacity, before);
    if i == |events| - 1 {
      RefusalOwes(Run(s, before), last);
      latest := TimeOf(last).value;
    } else {
      PrefixKeeps(s, events, i);
      var earlier := RunOwes(initialCapacity, maximumCapacity, before, i);
      var at :| i <= at < |before| && TimeOf(before[at]) == Some(earlier);
      assert before == events[..|before|] && TimeOf(events[at]) == Some(earlier);
      StillOwes(Run(s, before), last, TimeOf(events[i]).value + Doubled(Run(s, events[..i]).policy.retryDelay), earlier);
      latest := if TimeOf(last).Some? then TimeOf(last).value else earlier;
    }
  }

  lemma PrefixKeeps(s: System, events: seq<Event>, i: nat)
    requires i < |events| - 1 && Timed(events) && NoAcceptance(s, events, i + 1)
    ensures var before := events[..|events| - 1];
            Timed(before) && before[..i] == events[..i] && before[i] == events[i] && NoAcceptance(s, before, i + 1)
  {
    var before := events[..|events| - 1];
    forall k | i + 1 <= k < |before| ensures !Accepts(Run(s, before[..k]), before[k]) {
      assert before[..k] == events[..k];
    }
  }

  /** In every run with a monotone clock, after a growth refused at some time the controller grows
      nothing until the doubled delay has passed, unless a trial has been accepted in between. */
  lemma RefusalBacksOff(initialCapacity: nat, maximumCapacity: nat, events: seq<Event>, i: nat, e: Event)
    requires ValidLimits(initialCapacity, maximumCapacity) && Timed(events + [e]) && i < |events|
    requires RefusesGrowth(Run(NewSystem(initialCapacity, maximumCapacity), events[..i]), events[i])
    requires NoAcceptance(NewSystem(initialCapacity, maximumCapacity), events, i + 1)
    ensures var s := NewSystem(initialCapacity, maximumCapacity);
            Grows(Run(s, events), e) ==>
              TimeOf(e).value >= TimeOf(events[i]).value + Doubled(Run(s, events[..i]).policy.retryDelay)
  {
    var s := NewSystem(initialCapacity, maximumCapacity);
    assert forall k :: 0 <= k < |events| ==> (events + [e])[k] == events[k];
    assert (events + [e])[|events|] == e;
    var latest := RunOwes(initialCapacity, maximumCapacity, events, i);
    var at :| i <= at < |events| && TimeOf(events[at]) == Some(latest);
    RunBounded(initialCapacity, maximumCapacity, events);
    if Grows(Run(s, events), e) {
      StillOwes(Run(s, events), e, TimeOf(events[i]).value + Doubled(Run(s, events[..i]).policy.retryDelay), latest);
    }
  }

  /** The backoff ends within the delay in force, and no capacity change lies ahead. */
  ghost predicate WaitsWithin(c: Pace, w: Watch) {
    && c.changed == w.changed && (w.changed.Some? ==> w.changed.value <= w.latest)
    && (c.retry.Some? ==> c.retry.value <= w.latest + c.delay) && c.delay <= MAX_RETRY_DELAY
  }

  lemma StepWaits(s: System, w: Watch, e: Event)
    requires Ready(s, w, e) && WaitsWithin(PaceOf(s.policy), w)
    ensures WaitsWithin(PaceOf(Step(s, e).policy), Watching(w, s, e))
  {
    StepMoves(s, e);
    StepPaced(s, w, e);
    StepBounded(s, e);
    if Accepts(s, e) {
      AcceptanceForgets(s, e);
    }
  }

  /** In every run with a monotone clock no wait is longer than the delay in force, which is at most
      120 seconds, from the latest event. */
  lemma {:induction false} WaitIsBounded(initialCapacity: nat, maximumCapacity: nat, events: seq<Event>)
    requires ValidLimits(initialCapacity, maximumCapacity) && Timed(events)
    ensures var s := NewSystem(initialCapacity, maximumCapacity);
            WaitsWithin(PaceOf(Run(s, events).policy), RunWatch(s, events))
  {
    if events != [] {
      var s, before, last := NewSystem(initialCapacity, maximumCapacity), events[..|events| - 1], events[|events| - 1];
      WaitIsBounded(initialCapacity, maximumCapacity, before);
      RunPaced(initialCapacity, maximumCapacity, before);
      RunBounded(initialCapacity, maximumCapacity, before);
      assert before + [last] == events;
      WatchLatest(s, before, last);
      StepWaits(Run(s, before), RunWatch(s, before), last);
    }
  }
}
