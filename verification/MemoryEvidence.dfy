/** What earns an expert extent: a journal of samples, kept beside the policy, that certifies every
    earned target by clean intervals inside completed requests. */
module MemoryEvidence {
  import opened Wrappers
  import opened MemoryPolicy

  // ----- the part of a policy that earning depends on

  datatype View = View(
    lastSample: Option<nat>, quiet: bool, inRequest: bool,
    capacity: nat, ordinary: Option<nat>, active: bool,
    clean: nat, completedClean: nat, validated: Option<nat>, earned: Option<nat>)

  function ViewOf(p: Policy): View {
    View(p.lastSample, p.state == Some(NormalQuiet), p.requestStarted.Some?,
         p.capacity, if p.workspacePhase.Some? then Some(p.workspacePhase.value.ordinaryCapacity) else None, p.lastSampleActive,
         p.requestCleanActive, p.completedCleanActive, p.validatedInRequest, p.earnedTarget)
  }

  /** The extent under validation: the ordinary one during a workspace phase. */
  function Extent(v: View): nat {
    if v.ordinary.Some? then v.ordinary.value else v.capacity
  }

  predicate AtExtent(v: View) {
    Extent(v) == v.capacity
  }

  function Cleared(v: View): View {
    v.(active := false, clean := 0, completedClean := 0, validated := None)
  }

  function Sampling(v: View, now: nat, quiet: bool, earns: bool): View {
    v.(lastSample := Some(now), quiet := quiet, active := quiet && v.inRequest && AtExtent(v),
       clean := if earns && v.lastSample.Some? && now >= v.lastSample.value
                then Min(v.clean + (now - v.lastSample.value), ACTIVE_VALIDATION) else v.clean)
  }

  function OutgrownExtent(v: View): Option<nat> {
    if v.inRequest && AtExtent(v) && v.completedClean + v.clean >= ACTIVE_VALIDATION then Some(MaxOpt(v.validated, v.capacity)) else v.validated
  }

  function Changing(v: View, newCapacity: nat): View {
    v.(capacity := newCapacity, active := false, clean := 0, completedClean := 0,
       validated := if newCapacity > v.capacity then OutgrownExtent(v) else None)
  }

  function Resizing(v: View, newCapacity: nat): View {
    v.(capacity := newCapacity, active := false)
  }

  function Beginning(v: View): View {
    v.(inRequest := true, active := false, clean := 0, validated := None)
  }

  function Credited(v: View): nat {
    Min(v.completedClean + v.clean, ACTIVE_VALIDATION)
  }

  /** What a counted request accepts: first any outgrown extent, then the current one. */
  function EarnedAfter(v: View): Option<nat> {
    var outgrown := if v.validated.Some? && v.validated.value < v.capacity then Some(MaxOpt(v.earned, v.validated.value)) else v.earned;
    if Credited(v) >= ACTIVE_VALIDATION then Some(MaxOpt(outgrown, v.capacity)) else outgrown
  }

  function Ending(v: View, counts: bool): View {
    v.(inRequest := false, active := false, clean := 0, validated := None,
       completedClean := if counts then Credited(v) else v.completedClean,
       earned := if counts then EarnedAfter(v) else v.earned)
  }

  // ----- the journal

  datatype Sample = Sample(time: nat, quiet: bool, capacity: nat, request: Option<nat>)

  /** Samples in order; the positions between them of every engine extent change (`shifts`), of the
      events no credit outlives (`breaks`) and of the planned changes that credit does outlive
      (`kept`); request identities; and the intervals behind each amount of credit. */
  datatype Journal = Journal(
    samples: seq<Sample>, breaks: seq<nat>, kept: seq<nat>, shifts: seq<nat>,
    request: Option<nat>, nextRequest: nat, completed: set<nat>,
    pending: seq<nat>, done: seq<nat>, validated: seq<nat>, earned: seq<nat>)

  const EMPTY: Journal := Journal([], [], [], [], None, 0, {}, [], [], [], [])

  /** Interval i, between samples i-1 and i, was quiet at both ends, inside one request, at
      capacity c throughout its ends, with no sampling gap. */
  ghost predicate CleanInterval(samples: seq<Sample>, i: nat, c: nat) {
    && 1 <= i < |samples|
    && samples[i - 1].quiet && samples[i].quiet
    && samples[i - 1].capacity == c == samples[i].capacity
    && samples[i].request.Some? && samples[i - 1].request == samples[i].request
    && samples[i - 1].time <= samples[i].time <= samples[i - 1].time + SAMPLE_GAP_LIMIT
  }

  function Length(samples: seq<Sample>, i: nat): nat {
    if 1 <= i < |samples| && samples[i - 1].time <= samples[i].time then samples[i].time - samples[i - 1].time else 0
  }

  function Span(samples: seq<Sample>, intervals: seq<nat>): nat {
    if intervals == [] then 0
    else Span(samples, intervals[..|intervals| - 1]) + Length(samples, intervals[|intervals| - 1])
  }

  ghost predicate Increasing(intervals: seq<nat>) {
    forall i, j :: 0 <= i < j < |intervals| ==> intervals[i] < intervals[j]
  }

  /** A position falls before the first interval or after the last. */
  predicate Outside(b: nat, intervals: seq<nat>) {
    intervals == [] || b < intervals[0] || b > intervals[|intervals| - 1]
  }

  /** Distinct clean intervals at c, within allowed requests, with no break among them. */
  ghost predicate Evidence(j: Journal, intervals: seq<nat>, c: nat, allowed: set<nat>) {
    && Increasing(intervals)
    && (forall k :: 0 <= k < |intervals| ==> CleanInterval(j.samples, intervals[k], c) && j.samples[intervals[k]].request.value in allowed)
    && (forall b :: b in j.breaks ==> Outside(b, intervals))
  }

  ghost predicate Below(intervals: seq<nat>, n: nat) {
    forall k :: 0 <= k < |intervals| ==> intervals[k] < n
  }

  /** At least fifteen seconds of clean intervals at c, all inside completed requests. */
  ghost predicate Certified(j: Journal, intervals: seq<nat>, c: nat) {
    Evidence(j, intervals, c, j.completed) && Span(j.samples, intervals) >= ACTIVE_VALIDATION
  }

  function CurrentRequest(j: Journal): set<nat> {
    if j.request.Some? then {j.request.value} else {}
  }

  // ----- journal updates

  function LogSample(j: Journal, now: nat, quiet: bool, capacity: nat, earns: bool): Journal {
    j.(samples := j.samples + [Sample(now, quiet, capacity, j.request)],
       pending := if earns then j.pending + [|j.samples|] else j.pending)
  }

  function LogClear(j: Journal): Journal {
    j.(pending := [], done := [], validated := [])
  }

  function LogBreak(j: Journal): Journal {
    j.(breaks := j.breaks + [|j.samples|], pending := [], done := [], validated := [])
  }

  /** A planned change that credit outlives. */
  function LogKept(j: Journal): Journal {
    j.(kept := j.kept + [|j.samples|])
  }

  /** Record where the engine's extent changed, whatever changed it. */
  function LogShift(j: Journal, shifted: bool): Journal {
    if shifted then j.(shifts := j.shifts + [|j.samples|]) else j
  }

  /** An adaptive capacity change; growth keeps the evidence for the extent it outgrows. */
  function LogChange(j: Journal, v: View, newCapacity: nat): Journal {
    j.(breaks := j.breaks + [|j.samples|], pending := [], done := [],
       validated := if newCapacity > v.capacity && OutgrownExtent(v) != v.validated then j.done + j.pending else j.validated)
  }

  function LogBegin(j: Journal): Journal {
    j.(request := Some(j.nextRequest), nextRequest := j.nextRequest + 1, pending := [], validated := [])
  }

  function LogEnd(j: Journal, v: View, counts: bool, completed: bool): Journal {
    j.(request := None,
       completed := if completed then j.completed + CurrentRequest(j) else j.completed,
       pending := [], validated := [],
       done := if counts then j.done + j.pending else j.done,
       earned := if !counts || EarnedAfter(v) == v.earned then j.earned
                 else if Credited(v) >= ACTIVE_VALIDATION && EarnedAfter(v) == Some(v.capacity) then j.done + j.pending
                 else j.validated)
  }

  // ----- the invariant tying the policy's totals to the journal

  ghost predicate Synced(v: View, j: Journal) {
    && v.lastSample == (if j.samples == [] then None else Some(j.samples[|j.samples| - 1].time))
    && (j.samples != [] ==> v.quiet == j.samples[|j.samples| - 1].quiet)
    && (v.inRequest <==> j.request.Some?)
    && (forall b :: b in j.breaks ==> b <= |j.samples|)
    && (v.active ==>
          && j.samples != [] && v.quiet && v.inRequest && AtExtent(v)
          && j.samples[|j.samples| - 1].request == j.request
          && j.samples[|j.samples| - 1].capacity == v.capacity
          && forall b :: b in j.breaks ==> b < |j.samples|)
  }

  ghost predicate AfterBreaks(breaks: seq<nat>, intervals: seq<nat>) {
    forall k, b :: 0 <= k < |intervals| && b in breaks ==> b < intervals[k]
  }

  /** Credit is backed by intervals at the extent under validation, since the last break. */
  ghost predicate Backed(v: View, j: Journal) {
    && Evidence(j, j.done + j.pending, Extent(v), j.completed + CurrentRequest(j))
    && Evidence(j, j.done, Extent(v), j.completed)
    && AfterBreaks(j.breaks, j.done + j.pending)
    && v.clean <= Span(j.samples, j.pending)
    && v.completedClean <= Span(j.samples, j.done)
    && (j.pending != [] ==> v.inRequest)
  }

  ghost predicate Justified(v: View, j: Journal) {
    && (v.validated.Some? ==>
          && v.inRequest
          && Evidence(j, j.validated, v.validated.value, j.completed + CurrentRequest(j))
          && Span(j.samples, j.validated) >= ACTIVE_VALIDATION)
    && (v.earned.Some? ==> Certified(j, j.earned, v.earned.value))
  }

  ghost predicate Sound(v: View, j: Journal) {
    Synced(v, j) && Backed(v, j) && Justified(v, j)
  }

  // ----- evidence is stable

  lemma {:induction false} SpanStable(samples: seq<Sample>, more: seq<Sample>, intervals: seq<nat>)
    requires forall k :: 0 <= k < |intervals| ==> intervals[k] < |samples|
    ensures Span(samples + more, intervals) == Span(samples, intervals)
  {
    if intervals != [] {
      SpanStable(samples, more, intervals[..|intervals| - 1]);
    }
  }

  lemma {:induction false} SpanConcat(samples: seq<Sample>, a: seq<nat>, b: seq<nat>)
    ensures Span(samples, a + b) == Span(samples, a) + Span(samples, b)
  {
    if b == [] {
      assert a + b == a;
    } else {
      assert (a + b)[..|a + b| - 1] == a + b[..|b| - 1];
      SpanConcat(samples, a, b[..|b| - 1]);
    }
  }

  /** Evidence survives further samples, breaks after it, and more allowed requests. */
  lemma EvidenceStable(j: Journal, l: Journal, intervals: seq<nat>, c: nat, allowed: set<nat>, more: set<nat>)
    requires Evidence(j, intervals, c, allowed) && allowed <= more
    requires j.samples <= l.samples
    requires forall b :: b in l.breaks ==> b in j.breaks || b >= |j.samples|
    ensures Evidence(l, intervals, c, more)
    ensures Span(l.samples, intervals) == Span(j.samples, intervals)
  {
    assert l.samples == j.samples + l.samples[|j.samples|..];
    SpanStable(j.samples, l.samples[|j.samples|..], intervals);
  }

  lemma JustifiedStable(v: View, j: Journal, w: View, l: Journal)
    requires Justified(v, j) && j.samples <= l.samples && j.completed <= l.completed
    requires forall b :: b in l.breaks ==> b in j.breaks || b >= |j.samples|
    requires w.earned == v.earned && l.earned == j.earned
    requires w.validated.Some? ==> w.validated == v.validated && l.validated == j.validated && w.inRequest && l.request == j.request
    ensures Justified(w, l)
  {
    if v.earned.Some? {
      EvidenceStable(j, l, j.earned, v.earned.value, j.completed, l.completed);
    }
    if w.validated.Some? {
      EvidenceStable(j, l, j.validated, v.validated.value, j.completed + CurrentRequest(j), l.completed + CurrentRequest(l));
    }
  }

  // ----- each update keeps the invariant

  lemma EvidencePush(j: Journal, intervals: seq<nat>, n: nat, c: nat, allowed: set<nat>)
    requires Evidence(j, intervals, c, allowed)
    requires Below(intervals, n)
    requires CleanInterval(j.samples, n, c) && j.samples[n].request.value in allowed
    requires forall b :: b in j.breaks ==> b < n
    requires AfterBreaks(j.breaks, intervals)
    ensures Evidence(j, intervals + [n], c, allowed) && AfterBreaks(j.breaks, intervals + [n])
    ensures Span(j.samples, intervals + [n]) == Span(j.samples, intervals) + Length(j.samples, n)
  {
    var all := intervals + [n];
    SpanPush(j.samples, intervals, n);
    forall k | 0 <= k < |all| ensures CleanInterval(j.samples, all[k], c) && j.samples[all[k]].request.value in allowed {
      if k < |intervals| {
        assert all[k] == intervals[k];
      }
    }
    PushOrder(j.breaks, intervals, n);
  }

  lemma PushOrder(breaks: seq<nat>, intervals: seq<nat>, n: nat)
    requires Increasing(intervals) && Below(intervals, n) && AfterBreaks(breaks, intervals)
    requires forall b :: b in breaks ==> b < n
    ensures Increasing(intervals + [n]) && AfterBreaks(breaks, intervals + [n])
    ensures forall b :: b in breaks ==> Outside(b, intervals + [n])
  {
    var all := intervals + [n];
    forall k, b | 0 <= k < |all| && b in breaks ensures b < all[k] {
      if k < |intervals| {
        assert all[k] == intervals[k];
      }
    }
    assert forall b :: b in breaks ==> b < all[0];
  }

  lemma Suffix(all: seq<nat>, done: seq<nat>, pending: seq<nat>, n: nat)
    requires all == done + pending && Below(all, n)
    ensures Below(pending, n)
  {
    forall k | 0 <= k < |pending| ensures pending[k] < n {
      assert pending[k] == all[|done| + k];
    }
  }

  lemma PrefixAfterBreaks(breaks: seq<nat>, done: seq<nat>, pending: seq<nat>)
    requires AfterBreaks(breaks, done + pending)
    ensures AfterBreaks(breaks, done)
  {
    forall k, b | 0 <= k < |done| && b in breaks ensures b < done[k] {
      assert (done + pending)[k] == done[k];
    }
  }

  /** Credit survives further samples. */
  lemma BackedStable(v: View, j: Journal, w: View, l: Journal)
    requires Backed(v, j) && j.samples <= l.samples && l.breaks == j.breaks && l.done == j.done && l.pending == j.pending
    requires j.completed == l.completed && j.request == l.request && Extent(w) == Extent(v) && w.inRequest == v.inRequest
    requires w.clean == v.clean && w.completedClean == v.completedClean
    ensures Backed(w, l)
  {
    EvidenceStable(j, l, j.done, Extent(v), j.completed, l.completed);
    EvidenceStable(j, l, j.done + j.pending, Extent(v), j.completed + CurrentRequest(j), l.completed + CurrentRequest(l));
    PendingStable(v, j, l);
  }

  lemma PendingStable(v: View, j: Journal, l: Journal)
    requires Backed(v, j) && j.samples <= l.samples
    ensures Span(l.samples, j.pending) == Span(j.samples, j.pending)
  {
    Suffix(j.done + j.pending, j.done, j.pending, |j.samples|);
    assert l.samples == j.samples + l.samples[|j.samples|..];
    SpanStable(j.samples, l.samples[|j.samples|..], j.pending);
  }

  /** A logged sample that earns nothing leaves the credit as it was. */
  lemma QuietLogBacked(v: View, j: Journal, now: nat, quiet: bool)
    requires Backed(v, j)
    ensures Backed(Sampling(v, now, quiet, false), LogSample(j, now, quiet, v.capacity, false))
  {
    BackedStable(v, j, Sampling(v, now, quiet, false), LogSample(j, now, quiet, v.capacity, false));
  }

  lemma SampledInterval(v: View, j: Journal, now: nat)
    requires Synced(v, j) && v.active && v.lastSample.Some? && v.lastSample.value <= now <= v.lastSample.value + SAMPLE_GAP_LIMIT
    ensures var l := LogSample(j, now, true, v.capacity, true);
            && CleanInterval(l.samples, |j.samples|, Extent(v))
            && l.samples[|j.samples|].request.value in CurrentRequest(j)
            && Length(l.samples, |j.samples|) == now - v.lastSample.value
  {
  }

  /** An earning sample adds its interval to the request's credit. */
  lemma EarningBacked(v: View, j: Journal, now: nat)
    requires Synced(v, j) && Backed(v, j) && v.active
    requires v.lastSample.Some? && v.lastSample.value <= now <= v.lastSample.value + SAMPLE_GAP_LIMIT
    ensures Backed(Sampling(v, now, true, true), LogSample(j, now, true, v.capacity, true))
  {
    var n, m := |j.samples|, LogSample(j, now, true, v.capacity, false);
    QuietLogBacked(v, j, now, true);
    SampledInterval(v, j, now);
    PushBacked(Sampling(v, now, true, false), m, n, now - v.lastSample.value);
  }

  lemma PushBacked(v: View, j: Journal, n: nat, length: nat)
    requires Backed(v, j) && v.inRequest && CleanInterval(j.samples, n, Extent(v)) && Length(j.samples, n) == length
    requires j.samples[n].request.value in CurrentRequest(j)
    requires Below(j.done + j.pending, n)
    requires forall b :: b in j.breaks ==> b < n
    ensures Backed(v.(clean := Min(v.clean + length, ACTIVE_VALIDATION)), j.(pending := j.pending + [n]))
  {
    SpanPush(j.samples, j.pending, n);
    PendingPush(j, Extent(v), n);
    PushedBacked(v, j, j.(pending := j.pending + [n]), Min(v.clean + length, ACTIVE_VALIDATION));
  }

  lemma PendingPush(j: Journal, c: nat, n: nat)
    requires var all := j.done + j.pending;
             Evidence(j, all, c, j.completed + CurrentRequest(j)) && AfterBreaks(j.breaks, all) && Below(all, n)
    requires CleanInterval(j.samples, n, c) && j.samples[n].request.value in CurrentRequest(j)
    requires forall b :: b in j.breaks ==> b < n
    ensures var all := j.done + (j.pending + [n]);
            Evidence(j, all, c, j.completed + CurrentRequest(j)) && AfterBreaks(j.breaks, all)
  {
    EvidencePush(j, j.done + j.pending, n, c, j.completed + CurrentRequest(j));
    AppendAssociates(j.done, j.pending, n);
  }

  lemma AppendAssociates(a: seq<nat>, b: seq<nat>, n: nat)
    ensures a + (b + [n]) == (a + b) + [n]
  {
  }

  lemma SpanPush(samples: seq<Sample>, intervals: seq<nat>, n: nat)
    ensures Span(samples, intervals + [n]) == Span(samples, intervals) + Length(samples, n)
  {
    assert (intervals + [n])[..|intervals + [n]| - 1] == intervals;
  }

  lemma PushedBacked(v: View, j: Journal, l: Journal, clean: nat)
    requires Backed(v, j) && v.inRequest
    requires l == j.(pending := l.pending)
    requires Evidence(j, l.done + l.pending, Extent(v), j.completed + CurrentRequest(j))
    requires AfterBreaks(j.breaks, l.done + l.pending) && clean <= Span(j.samples, l.pending)
    ensures Backed(v.(clean := clean), l)
  {
    EvidenceStable(j, l, l.done + l.pending, Extent(v), j.completed + CurrentRequest(j), l.completed + CurrentRequest(l));
    EvidenceStable(j, l, j.done, Extent(v), j.completed, j.completed);
  }

  lemma SamplingSound(v: View, j: Journal, now: nat, quiet: bool, earns: bool)
    requires Sound(v, j)
    requires earns ==> quiet && v.active && v.lastSample.Some? && v.lastSample.value <= now <= v.lastSample.value + SAMPLE_GAP_LIMIT
    ensures Sound(Sampling(v, now, quiet, earns), LogSample(j, now, quiet, v.capacity, earns))
  {
    var w, l := Sampling(v, now, quiet, earns), LogSample(j, now, quiet, v.capacity, earns);
    JustifiedStable(v, j, w, l);
    if earns {
      EarningBacked(v, j, now);
    } else {
      QuietLogBacked(v, j, now, quiet);
    }
  }

  /** No credit needs no evidence. */
  lemma NoCreditBacked(w: View, l: Journal)
    requires l.done == [] && l.pending == [] && w.clean == 0 && w.completedClean == 0
    ensures Backed(w, l)
  {
    assert l.done + l.pending == [];
  }

  lemma BrokenSound(v: View, j: Journal)
    requires Sound(v, j)
    ensures Sound(Cleared(v), LogBreak(j))
  {
    NoCreditBacked(Cleared(v), LogBreak(j));
    JustifiedStable(v, j, Cleared(v), LogBreak(j));
  }

  /** Soundness does not depend on which changes were kept or recorded. */
  lemma RecordingSound(v: View, j: Journal, kept: seq<nat>, shifts: seq<nat>)
    requires Sound(v, j)
    ensures Sound(v, j.(kept := kept, shifts := shifts))
  {
    var l := j.(kept := kept, shifts := shifts);
    BackedStable(v, j, v, l);
    JustifiedStable(v, j, v, l);
  }

  lemma ShiftSound(v: View, j: Journal, shifted: bool)
    requires Sound(v, j)
    ensures Sound(v, LogShift(j, shifted))
  {
    RecordingSound(v, j, j.kept, LogShift(j, shifted).shifts);
  }

  predicate NoCredit(v: View) {
    v.clean == 0 && v.completedClean == 0 && v.validated.None?
  }

  lemma OutgrowingJustified(v: View, j: Journal, newCapacity: nat)
    requires Sound(v, j) && newCapacity > v.capacity && OutgrownExtent(v) != v.validated
    ensures Justified(Changing(v, newCapacity), LogChange(j, v, newCapacity))
  {
    var l := LogChange(j, v, newCapacity);
    var all := j.done + j.pending;
    assert OutgrownExtent(v) == Some(v.capacity);
    EvidenceStable(j, l, all, v.capacity, j.completed + CurrentRequest(j), l.completed + CurrentRequest(l));
    SpanConcat(j.samples, j.done, j.pending);
    if v.earned.Some? {
      EvidenceStable(j, l, j.earned, v.earned.value, j.completed, l.completed);
    }
  }

  /** An adaptive change starts afresh; what growth outgrows stays evidenced within the request. */
  lemma ChangingSound(v: View, j: Journal, newCapacity: nat)
    requires Sound(v, j)
    ensures Sound(Changing(v, newCapacity), LogChange(j, v, newCapacity))
  {
    NoCreditBacked(Changing(v, newCapacity), LogChange(j, v, newCapacity));
    if newCapacity > v.capacity && OutgrownExtent(v) != v.validated {
      OutgrowingJustified(v, j, newCapacity);
    } else {
      JustifiedStable(v, j, Changing(v, newCapacity), LogChange(j, v, newCapacity));
    }
  }

  /** Without pending intervals, credit needs only the completed ones. */
  lemma OnlyDoneBacked(w: View, l: Journal)
    requires l.pending == [] && w.clean == 0
    requires Evidence(l, l.done, Extent(w), l.completed) && AfterBreaks(l.breaks, l.done)
    requires w.completedClean <= Span(l.samples, l.done)
    ensures Backed(w, l)
  {
    assert l.done + l.pending == l.done;
    EvidenceStable(l, l, l.done, Extent(w), l.completed, l.completed + CurrentRequest(l));
  }

  lemma BeginningSound(v: View, j: Journal)
    requires Sound(v, j)
    ensures Sound(Beginning(v), LogBegin(j))
  {
    var w, l := Beginning(v), LogBegin(j);
    JustifiedStable(v, j, w, l);
    EvidenceStable(j, l, j.done, Extent(v), j.completed, l.completed);
    PrefixAfterBreaks(j.breaks, j.done, j.pending);
    OnlyDoneBacked(w, l);
  }

  /** A planned resize outside any trial keeps the credit of the extent still under validation. */
  lemma ResizingSound(v: View, j: Journal, newCapacity: nat)
    requires Sound(v, j) && v.ordinary.Some?
    ensures Sound(Resizing(v, newCapacity), j)
  {
    JustifiedStable(v, j, Resizing(v, newCapacity), j);
  }

  /** A phase validates the same extent, from entry at it to exit at it. */
  lemma PhaseSound(v: View, j: Journal, ordinary: Option<nat>)
    requires Sound(v, j) && AtExtent(v) && (ordinary.Some? ==> ordinary.value == v.capacity)
    ensures Sound(v.(ordinary := ordinary), j)
  {
    JustifiedStable(v, j, v.(ordinary := ordinary), j);
  }

  lemma EndingBacked(v: View, j: Journal, counts: bool, completed: bool)
    requires Sound(v, j) && (counts ==> completed)
    ensures Backed(Ending(v, counts), LogEnd(j, v, counts, completed))
  {
    var w, l := Ending(v, counts), LogEnd(j, v, counts, completed);
    if counts {
      SpanConcat(j.samples, j.done, j.pending);
      SettledBacked(v, j, w, l, j.completed + CurrentRequest(j));
    } else {
      PrefixAfterBreaks(j.breaks, j.done, j.pending);
      SettledBacked(v, j, w, l, j.completed);
    }
  }

  /** Credit whose evidence is settled stays backed when its request has ended. */
  lemma SettledBacked(v: View, j: Journal, w: View, l: Journal, allowed: set<nat>)
    requires Evidence(j, l.done, Extent(v), allowed) && AfterBreaks(j.breaks, l.done) && allowed <= l.completed
    requires l.samples == j.samples && l.breaks == j.breaks && l.pending == [] && w.clean == 0
    requires Extent(w) == Extent(v) && w.completedClean <= Span(j.samples, l.done)
    ensures Backed(w, l)
  {
    EvidenceStable(j, l, l.done, Extent(v), allowed, l.completed);
    OnlyDoneBacked(w, l);
  }

  /** Enough credit at the current extent is a certificate for it once its request completes. */
  lemma CreditCertifies(v: View, j: Journal, l: Journal)
    requires Backed(v, j) && AtExtent(v) && Credited(v) >= ACTIVE_VALIDATION
    requires l.samples == j.samples && l.breaks == j.breaks && j.completed + CurrentRequest(j) <= l.completed
    ensures Certified(l, j.done + j.pending, v.capacity)
  {
    EvidenceStable(j, l, j.done + j.pending, v.capacity, j.completed + CurrentRequest(j), l.completed);
    SpanConcat(j.samples, j.done, j.pending);
  }

  lemma OutgrownCertifies(v: View, j: Journal, l: Journal)
    requires Justified(v, j) && v.validated.Some?
    requires l.samples == j.samples && l.breaks == j.breaks && j.completed + CurrentRequest(j) <= l.completed
    ensures Certified(l, j.validated, v.validated.value)
  {
    EvidenceStable(j, l, j.validated, v.validated.value, j.completed + CurrentRequest(j), l.completed);
  }

  lemma EarnedCertifies(v: View, j: Journal, l: Journal)
    requires Justified(v, j) && v.earned.Some?
    requires l.samples == j.samples && l.breaks == j.breaks && j.completed <= l.completed
    ensures Certified(l, j.earned, v.earned.value)
  {
    EvidenceStable(j, l, j.earned, v.earned.value, j.completed, l.completed);
  }

  lemma EndingJustified(v: View, j: Journal, counts: bool, completed: bool)
    requires Backed(v, j) && Justified(v, j) && (counts ==> completed && AtExtent(v))
    ensures Justified(Ending(v, counts), LogEnd(j, v, counts, completed))
  {
    var l := LogEnd(j, v, counts, completed);
    if !counts || EarnedAfter(v) == v.earned {
      if v.earned.Some? {
        EarnedCertifies(v, j, l);
      }
    } else {
      AcceptedCertified(v, j, l);
    }
  }

  /** Whatever a counted request newly accepts is certified by the intervals behind it. */
  lemma AcceptedCertified(v: View, j: Journal, l: Journal)
    requires Backed(v, j) && Justified(v, j) && AtExtent(v) && EarnedAfter(v) != v.earned
    requires l.samples == j.samples && l.breaks == j.breaks && j.completed + CurrentRequest(j) <= l.completed
    ensures EarnedAfter(v).Some?
    ensures Certified(l, if Credited(v) >= ACTIVE_VALIDATION && EarnedAfter(v) == Some(v.capacity) then j.done + j.pending else j.validated,
                      EarnedAfter(v).value)
  {
    if Credited(v) >= ACTIVE_VALIDATION && EarnedAfter(v) == Some(v.capacity) {
      CreditCertifies(v, j, l);
    } else {
      OutgrownCertifies(v, j, l);
    }
  }

  /** A counted request turns its credit into a certificate for whatever it accepts. */
  lemma EndingSound(v: View, j: Journal, counts: bool, completed: bool)
    requires Sound(v, j) && (counts ==> completed && v.inRequest && AtExtent(v))
    ensures Sound(Ending(v, counts), LogEnd(j, v, counts, completed))
  {
    EndingBacked(v, j, counts, completed);
    EndingJustified(v, j, counts, completed);
  }
}
