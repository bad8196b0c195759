/** One run that earns an extent across planned resizes: fifteen clean seconds at 128 slots, ten
    before and five after a workspace phase that steps down to 64 and back. */
module MemoryExample {
  import opened Wrappers
  import opened MemoryPolicy
  import opened MemorySystem
  import opened MemoryEvidence
  import opened MemoryRuns
  import opened MemoryPlanned

  /** Counters of a machine that compresses and swaps nothing, the same at every sample. */
  const IDLE: VmCounters := VmCounters(0, 0, 0, 0, 16384)

  /** What such counters say: nothing at the first sample, then quiet without churn. */
  function CalmReading(first: bool): Reading {
    if first then Reading(Some(Normal), None, None) else Reading(Some(Normal), Some(true), Some(false))
  }

  function Start(): System { NewSystem(128, 128) }

  function Calm(seconds: nat, first: bool): Event {
    Checked(seconds * SECOND, Observe, CalmReading(first), Some(IDLE), true)
  }

  // ----- what the run's states look like

  /** The few values that vary along the run. */
  datatype Scene = Scene(
    last: Option<nat>, quiet: bool, started: Option<nat>, active: bool, clean: nat, done: nat,
    inPhase: bool, capacity: nat, earned: Option<nat>, samples: seq<Sample>, requests: nat, shifts: seq<nat>)

  ghost predicate PolicyShows(p: Policy, k: Scene) {
    && p.capacity == k.capacity && p.maximumCapacity == 128
    && p.lastSample == k.last && (k.quiet ==> p.state == Some(NormalQuiet)) && (k.last.Some? && !k.quiet ==> p.state == Some(Unknown))
    && (k.last.None? ==> p.state == None)
    && p.requestStarted == k.started && p.lastSampleActive == k.active
    && p.requestCleanActive == k.clean && p.completedCleanActive == k.done && p.earnedTarget == k.earned
    && p.workspacePhase == (if k.inPhase then Some(WorkspacePhase(128, 0)) else None)
    && p.trialCapacity.None? && p.trialBase.None? && p.validatedInRequest.None?
    && !p.stopLatched && p.activeChurn == 0 && p.previousCounters == (if k.last.Some? then Some(IDLE) else None)
  }

  ghost predicate Shows(s: System, j: Journal, k: Scene) {
    && s.engine == k.capacity && s.epoch == 0 && PolicyShows(s.policy, k)
    && j.samples == k.samples && j.shifts == k.shifts
    && j.nextRequest == k.requests && j.request == (if k.started.Some? && k.requests > 0 then Some(k.requests - 1) else None)
  }

  // ----- one event at a time

  /** An event of the run's kind, in a scene where it does what the run needs. */
  predicate Plays(k: Scene, e: Event) {
    match e
    case RequestBegins(now) => true
    case RequestEnds(now, completed) => completed && k.started.Some? && k.quiet && k.last == Some(now) && !k.inPhase && k.capacity == 128
    case Checked(now, boundary, r, counters, engineOk) =>
      && !k.inPhase && k.capacity == 128 && boundary == Observe && r == CalmReading(k.last.None?) && counters == Some(IDLE) && engineOk
      && (k.last.Some? ==> k.last.value + SAMPLE_INTERVAL <= now <= k.last.value + SAMPLE_GAP_LIMIT)
    case PhaseBegins(target) => !k.inPhase && k.capacity == 128 && k.quiet && target == 64
    case PlannedResize(now, capacity) => k.inPhase && MIN_CAPACITY <= capacity <= 128 && capacity != k.capacity && k.done > 0
    case PhaseEnds(now, engineOk) => k.inPhase && k.capacity == 128
  }

  predicate Earns(k: Scene) {
    k.last.Some? && k.quiet && k.active && k.started.Some? && k.started.value <= k.last.value
  }

  function Next(k: Scene, e: Event): Scene
    requires Plays(k, e)
  {
    match e
    case RequestBegins(now) => k.(started := Some(now), clean := 0, active := false, requests := k.requests + 1)
    case RequestEnds(now, completed) =>
      k.(started := None, clean := 0, active := false, done := Min(k.done + k.clean, ACTIVE_VALIDATION),
         earned := if k.done + k.clean >= ACTIVE_VALIDATION then Some(MaxOpt(k.earned, 128)) else k.earned)
    case Checked(now, boundary, r, counters, engineOk) =>
      k.(last := Some(now), quiet := k.last.Some?, active := k.last.Some? && k.started.Some?,
         clean := if Earns(k) then Min(k.clean + (now - k.last.value), ACTIVE_VALIDATION) else k.clean,
         samples := k.samples + [Sample(now, k.last.Some?, 128, if k.started.Some? && k.requests > 0 then Some(k.requests - 1) else None)])
    case PhaseBegins(target) => k.(inPhase := true)
    case PlannedResize(now, capacity) => k.(capacity := capacity, active := false, shifts := k.shifts + [|k.samples|])
    case PhaseEnds(now, engineOk) => k.(inPhase := false)
  }

  lemma CheckedShows(s: System, j: Journal, k: Scene, e: Event)
    requires e.Checked? && Plays(k, e) && Shows(s, j, k)
    ensures Shows(Step(s, e), LogEvent(j, s, e), Next(k, e))
  {
    SampleShows(s.policy, k, e);
    var polled := Poll(s, e.now, e.boundary, e.reading, e.counters);
    assert SampleDue(s.policy, e.now);
    assert polled.1 == Hold;
  }

  lemma SampleShows(p: Policy, k: Scene, e: Event)
    requires e.Checked? && Plays(k, e) && PolicyShows(p, k)
    ensures var state := StateAt(p, e.now, e.reading);
            var q := Sampled(p, e.now, k.capacity, e.boundary, e.reading);
            && state == (if k.last.Some? then NormalQuiet else Unknown)
            && PolicyShows(WithCounters(Alarmed(q, k.capacity, state), e.counters), Next(k, e))
            && ActionFor(q, e.now, k.capacity, state) == Hold
            && EarnsCleanTime(p, e.now, k.capacity, state) == Earns(k)
  {
  }

  lemma EndedShows(s: System, j: Journal, k: Scene, e: Event)
    requires e.RequestEnds? && Plays(k, e) && Shows(s, j, k)
    ensures Shows(Step(s, e), LogEvent(j, s, e), Next(k, e))
  {
    assert CountsTowardValidation(s.policy, e.now, e.completed);
    assert AcceptOutgrown(s.policy) == s.policy;
    assert !AcceptsTrial(s.policy);
    AcceptShows(s.policy, k);
  }

  lemma AcceptShows(p: Policy, k: Scene)
    requires PolicyShows(p, k)
    ensures PolicyShows(AcceptCurrent(p), k.(done := Min(k.done + k.clean, ACTIVE_VALIDATION),
              earned := if k.done + k.clean >= ACTIVE_VALIDATION then Some(MaxOpt(k.earned, k.capacity)) else k.earned))
  {
  }

  lemma StepShows(s: System, j: Journal, k: Scene, e: Event)
    requires Plays(k, e) && Shows(s, j, k)
    ensures Shows(Step(s, e), LogEvent(j, s, e), Next(k, e))
  {
    match e
    case RequestBegins(now) =>
    case RequestEnds(now, completed) => EndedShows(s, j, k, e);
    case Checked(_, _, _, _, _) => CheckedShows(s, j, k, e);
    case PhaseBegins(target) =>
    case PlannedResize(now, capacity) => assert PlannedChanges(s.policy, now, capacity) && !Breaks(s.policy);
    case PhaseEnds(now, engineOk) => assert !RestorationAllowed(s.policy, now, s.epoch);
  }

  /** The readings of the run are those its counters give. */
  lemma CalmIsObserved(s: System, j: Journal, k: Scene, e: Event)
    requires Plays(k, e) && Shows(s, j, k)
    ensures FromObservation(s, e)
  {
    if e.Checked? && k.last.Some? {
      var elapsed := e.now - k.last.value;
      assert Elapsed(s.policy, e.now) == Some(elapsed);
      IdleIsCalm(elapsed);
    }
  }

  lemma IdleIsCalm(elapsed: nat)
    requires elapsed > 0
    ensures QuietSince(IDLE, IDLE, elapsed) == Some(true) && ChurningSince(IDLE, IDLE, elapsed) == Some(false)
  {
    assert MovedBytes(0, 0, 16384) == Some(0);
    assert !ReachesVeto(0, elapsed);
  }

  // ----- the whole run

  const OPENING := Scene(None, false, None, false, 0, 0, false, 128, None, [], 0, [])

  /** The events play, one after another, from the opening to a scene. */
  ghost predicate PlaysTo(events: seq<Event>, k: Scene) {
    if events == [] then k == OPENING
    else
      var front, e := events[..|events| - 1], events[|events| - 1];
      exists before :: PlaysTo(front, before) && Plays(before, e) && k == Next(before, e)
  }

  lemma PlayOne(events: seq<Event>, k: Scene, e: Event)
    requires PlaysTo(events, k) && Plays(k, e)
    ensures PlaysTo(events + [e], Next(k, e))
  {
    assert (events + [e])[..|events|] == events;
  }

  lemma {:induction false} RunShows(events: seq<Event>, k: Scene)
    requires PlaysTo(events, k)
    ensures Shows(Run(Start(), events), RunJournal(Start(), events), k) && Observed(Start(), events)
  {
    if events != [] {
      var front, e := events[..|events| - 1], events[|events| - 1];
      var before :| PlaysTo(front, before) && Plays(before, e) && k == Next(before, e);
      RunShows(front, before);
      StepShows(Run(Start(), front), RunJournal(Start(), front), before, e);
      CalmIsObserved(Run(Start(), front), RunJournal(Start(), front), before, e);
    }
  }

  function Sampled128(seconds: nat, quiet: bool, request: nat): Sample {
    Sample(seconds * SECOND, quiet, 128, Some(request))
  }

  /** A request with its first three samples: five clean seconds. */
  lemma Warmed() returns (events: seq<Event>, k: Scene)
    ensures PlaysTo(events, k)
    ensures k == Scene(Some(7 * SECOND), true, Some(0), true, 5 * SECOND, 0, false, 128, None,
                       [Sampled128(1, false, 0), Sampled128(2, true, 0), Sampled128(7, true, 0)], 1, [])
  {
    events, k := [], OPENING;
    events, k := PlayedOne(events, k, RequestBegins(0));
    events, k := PlayedOne(events, k, Calm(1, true));
    events, k := PlayedOne(events, k, Calm(2, false));
    events, k := PlayedOne(events, k, Calm(7, false));
  }

  /** Ten clean seconds in a first request. */
  lemma FirstRequest() returns (events: seq<Event>, k: Scene)
    ensures PlaysTo(events, k)
    ensures k == Scene(Some(12 * SECOND), true, None, false, 0, 10 * SECOND, false, 128, None,
                       [Sampled128(1, false, 0), Sampled128(2, true, 0), Sampled128(7, true, 0), Sampled128(12, true, 0)], 1, [])
  {
    events, k := Warmed();
    events, k := PlayedOne(events, k, Calm(12, false));
    events, k := PlayedOne(events, k, RequestEnds(12 * SECOND, true));
  }

  lemma PlayedOne(events: seq<Event>, k: Scene, e: Event) returns (more: seq<Event>, next: Scene)
    requires PlaysTo(events, k) && Plays(k, e)
    ensures PlaysTo(more, next) && next == Next(k, e) && more == events + [e]
  {
    PlayOne(events, k, e);
    more, next := events + [e], Next(k, e);
  }

  /** Then a workspace phase, down to 64 slots and back. */
  lemma ThroughPhase() returns (events: seq<Event>, k: Scene)
    ensures PlaysTo(events, k)
    ensures k == Scene(Some(12 * SECOND), true, None, false, 0, 10 * SECOND, false, 128, None,
                       [Sampled128(1, false, 0), Sampled128(2, true, 0), Sampled128(7, true, 0), Sampled128(12, true, 0)], 1, [4, 4])
  {
    events, k := FirstRequest();
    events, k := PlayedOne(events, k, PhaseBegins(64));
    events, k := PlayedOne(events, k, PlannedResize(12 * SECOND, 64));
    events, k := PlayedOne(events, k, PlannedResize(12 * SECOND, 128));
    events, k := PlayedOne(events, k, PhaseEnds(12 * SECOND, true));
  }

  /** Then five clean seconds in a second request, which earn 128 slots. */
  lemma SecondRequest() returns (events: seq<Event>, k: Scene)
    ensures PlaysTo(events, k)
    ensures k.earned == Some(128) && k.shifts == [4, 4]
    ensures k.samples == [Sampled128(1, false, 0), Sampled128(2, true, 0), Sampled128(7, true, 0), Sampled128(12, true, 0),
                          Sampled128(13, true, 1), Sampled128(18, true, 1)]
  {
    events, k := ThroughPhase();
    events, k := PlayedOne(events, k, RequestBegins(12 * SECOND));
    events, k := PlayedOne(events, k, Calm(13, false));
    events, k := PlayedOne(events, k, Calm(18, false));
    events, k := PlayedOne(events, k, RequestEnds(18 * SECOND, true));
  }

  // ----- no certificate avoids the phase

  lemma {:induction false} SpanLimit(samples: seq<Sample>, intervals: seq<nat>, c: nat)
    requires forall k :: 0 <= k < |intervals| ==> CleanInterval(samples, intervals[k], c)
    ensures Span(samples, intervals) <= |intervals| * SAMPLE_GAP_LIMIT
  {
    if intervals != [] {
      SpanLimit(samples, intervals[..|intervals| - 1], c);
      assert CleanInterval(samples, intervals[|intervals| - 1], c);
    }
  }

  /** In the run's samples only the second, third and fifth intervals are clean, so fifteen seconds
      need all three, and those have the phase's changes among them. */
  lemma AlwaysDisturbed(j: Journal, intervals: seq<nat>)
    requires j.samples == [Sampled128(1, false, 0), Sampled128(2, true, 0), Sampled128(7, true, 0), Sampled128(12, true, 0),
                           Sampled128(13, true, 1), Sampled128(18, true, 1)]
    requires 4 in j.shifts && Certified(j, intervals, 128)
    ensures !Undisturbed(j.shifts, intervals)
  {
    SpanLimit(j.samples, intervals, 128);
    forall k | 0 <= k < |intervals| ensures intervals[k] in [2, 3, 5] {
      assert CleanInterval(j.samples, intervals[k], 128);
    }
    assert |intervals| >= 3;
    assert intervals[0] < intervals[1] < intervals[2];
    assert intervals[0] == 2 && intervals[1] == 3 && intervals[2] == 5;
    assert intervals[|intervals| - 1] >= 5;
    assert !Outside(4, intervals);
  }

  /** A run from construction, with readings the code can make, that earns 128 slots, although every certificate for them has a change
      of extent among its intervals. */
  lemma EarnedAcrossPlannedResizes() returns (events: seq<Event>)
    ensures Run(NewSystem(128, 128), events).policy.earnedTarget == Some(128)
    ensures var j := RunJournal(NewSystem(128, 128), events);
            forall intervals :: Certified(j, intervals, 128) ==> !Undisturbed(j.shifts, intervals)
    ensures !Harmless(NewSystem(128, 128), events) && Observed(NewSystem(128, 128), events)
  {
    var k;
    events, k := SecondRequest();
    RunShows(events, k);
    var j := RunJournal(Start(), events);
    forall intervals | Certified(j, intervals, 128) ensures !Undisturbed(j.shifts, intervals) {
      AlwaysDisturbed(j, intervals);
    }
    if Harmless(Start(), events) {
      NoChangeAmong(128, 128, events);
      assert false;
    }
  }
}
