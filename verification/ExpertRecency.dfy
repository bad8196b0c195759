/** What the stamps and counts of a pool stand for: the order in which sources were last used, and
    how often, with old uses fading. Both are read off the sequence of sources served. */
module ExpertRecency {
  import opened Wrappers
  import opened ExpertPool
  import opened ExpertDemand
  import opened ExpertDecay
  import opened ExpertOps
  import opened ExpertHotlist

  // ----- a history of sources served

  /** When a source was last served, counting from one; zero if it never was. */
  function LastTouch(log: seq<nat>, source: nat): (at: nat)
    ensures at <= |log| && (at > 0 ==> log[at - 1] == source)
    ensures forall k :: at <= k < |log| ==> log[k] != source
  {
    if log == [] then 0
    else if log[|log| - 1] == source then |log|
    else LastTouch(log[..|log| - 1], source)
  }

  /** A source's uses: what it had before the history's position `from`, and one for each time it was
      served since, all halved at every 128th serving. */
  function Remembered(prior: map<nat, nat>, log: seq<nat>, from: nat, source: nat): nat
    requires from <= |log|
  {
    if |log| == from then (if source in prior then prior[source] else 0) else
    var uses := Remembered(prior, log[..|log| - 1], from, source) + (if log[|log| - 1] == source then 1 else 0);
    if |log| % DECAY_PERIOD == 0 then uses / 2 else uses
  }

  /** The clock counts the servings, and every resident source's slot carries its last one. */
  ghost predicate Recalls(p: Pool, log: seq<nat>) {
    && |log| == p.clock && |p.lastUse| == p.capacity
    && forall s :: s in p.slotOf ==> p.slotOf[s] < |p.lastUse| && p.lastUse[p.slotOf[s]] == LastTouch(log, s) > 0
  }

  ghost predicate Counts(p: Pool, prior: map<nat, nat>, log: seq<nat>, from: nat)
    requires from <= |log|
  {
    forall s: nat :: Uses(p, s) == Remembered(prior, log, from, s)
  }

  lemma TouchedLast(log: seq<nat>, source: nat, other: nat)
    ensures LastTouch(log + [source], other) == if other == source then |log| + 1 else LastTouch(log, other)
  {
    assert (log + [source])[..|log|] == log;
  }

  lemma RememberedNext(prior: map<nat, nat>, log: seq<nat>, from: nat, source: nat, other: nat)
    requires from <= |log|
    ensures var uses := Remembered(prior, log, from, other) + (if other == source then 1 else 0);
            Remembered(prior, log + [source], from, other) == if (|log| + 1) % DECAY_PERIOD == 0 then uses / 2 else uses
  {
    assert (log + [source])[..|log|] == log;
  }

  // ----- serving

  lemma TouchRecalls(p: Pool, log: seq<nat>, source: nat, slot: nat)
    requires Consistent(p) && slot < p.capacity && p.expertAt[slot] == Some(source)
    requires |log| == p.clock && Touch(p, source, slot).1.None?
    requires forall s :: s in p.slotOf && s != source ==> p.lastUse[p.slotOf[s]] == LastTouch(log, s) > 0
    ensures Recalls(Touch(p, source, slot).0, log + [source])
  {
    var q := Touch(p, source, slot).0;
    forall s | s in q.slotOf
      ensures q.slotOf[s] < |q.lastUse| && q.lastUse[q.slotOf[s]] == LastTouch(log + [source], s) > 0
    {
      TouchedLast(log, source, s);
      assert s != source ==> q.slotOf[s] != slot;
    }
  }

  lemma TouchCounts(p: Pool, prior: map<nat, nat>, log: seq<nat>, from: nat, source: nat, slot: nat)
    requires from <= |log| == p.clock && Counts(p, prior, log, from) && slot < |p.lastUse| && Touch(p, source, slot).1.None?
    ensures Counts(Touch(p, source, slot).0, prior, log + [source], from)
  {
    var q := Touch(p, source, slot).0;
    forall s: nat ensures Uses(q, s) == Remembered(prior, log + [source], from, s) {
      RememberedNext(prior, log, from, source, s);
      assert Uses(p, s) == Remembered(prior, log, from, s);
    }
  }

  lemma PublishRecalls(p: Pool, log: seq<nat>, source: nat, slot: nat, written: bool)
    requires Consistent(p) && Recalls(p, log) && slot < p.capacity && source !in p.slotOf
    ensures var q := Publish(p, source, slot, written);
            && |log| == q.clock && |q.lastUse| == q.capacity
            && (forall s :: s in q.slotOf && s != source ==> q.slotOf[s] < |q.lastUse| && q.lastUse[q.slotOf[s]] == LastTouch(log, s) > 0)
            && (!written ==> Recalls(q, log))
  {
    PublishConsistent(p, source, slot, written);
  }

  /** Serving a source adds it to the history; failing to, short of a counter running out, adds nothing. */
  lemma ServeRecalls(p: Pool, log: seq<nat>, source: nat, protected: set<nat>, load: Load)
    requires Consistent(p) && Recalls(p, log)
    ensures var (q, error) := Serve(p, source, protected, load);
            && (error.None? ==> Recalls(q, log + [source]))
            && (error.Some? && !error.value.RecencyOverflow? && !error.value.FrequencyOverflow? ==> Recalls(q, log))
  {
    if source in p.slotOf {
      if Touch(p, source, p.slotOf[source]).1.None? {
        TouchRecalls(p, log, source, p.slotOf[source]);
      }
    } else if !load.Unavailable? && ChooseSlot(p, protected).Some? {
      var slot := ChooseSlot(p, protected).value;
      PublishConsistent(p, source, slot, load.Loaded?);
      PublishRecalls(p, log, source, slot, load.Loaded?);
      var q := Publish(p, source, slot, load.Loaded?);
      if load.Loaded? && Touch(q, source, slot).1.None? {
        TouchRecalls(q, log, source, slot);
      }
    }
  }

  lemma ServeCounts(p: Pool, prior: map<nat, nat>, log: seq<nat>, from: nat, source: nat, protected: set<nat>, load: Load)
    requires Consistent(p) && from <= |log| == p.clock && Counts(p, prior, log, from)
    ensures var (q, error) := Serve(p, source, protected, load);
            && (error.None? ==> Counts(q, prior, log + [source], from) && q.clock == |log| + 1)
            && (error.Some? ==> Counts(q, prior, log, from))
  {
    if source in p.slotOf {
      if Touch(p, source, p.slotOf[source]).1.None? {
        TouchCounts(p, prior, log, from, source, p.slotOf[source]);
      } else {
        UsesAlone(p, Touch(p, source, p.slotOf[source]).0, prior, log, from);
      }
    } else if !load.Unavailable? && ChooseSlot(p, protected).Some? {
      var slot := ChooseSlot(p, protected).value;
      PublishConsistent(p, source, slot, load.Loaded?);
      var q := Publish(p, source, slot, load.Loaded?);
      UsesAlone(p, q, prior, log, from);
      if load.Loaded? {
        if Touch(q, source, slot).1.None? {
          TouchCounts(q, prior, log, from, source, slot);
        } else {
          UsesAlone(q, Touch(q, source, slot).0, prior, log, from);
        }
      }
    }
  }

  lemma UsesAlone(p: Pool, q: Pool, prior: map<nat, nat>, log: seq<nat>, from: nat)
    requires from <= |log| && Counts(p, prior, log, from) && q.frequency == p.frequency
    ensures Counts(q, prior, log, from)
  {
    forall s: nat ensures Uses(q, s) == Remembered(prior, log, from, s) {
      assert Uses(p, s) == Remembered(prior, log, from, s);
    }
  }

  // ----- groups

  lemma {:induction false} DemandRecalls(p: Pool, log: seq<nat>, sources: seq<nat>, protected: set<nat>, loads: nat -> Load)
    requires Consistent(p) && Recalls(p, log) && Demand(p, sources, protected, loads).error.None?
    ensures Recalls(Demand(p, sources, protected, loads).pool, log + sources)
    decreases |sources|, 0
  {
    if sources == [] {
      assert log + sources == log;
    } else {
      var init, last := sources[..|sources| - 1], sources[|sources| - 1];
      assert sources == init + [last];
      DemandRecallsNext(p, log, init, last, protected, loads);
    }
  }

  lemma {:induction false} DemandRecallsNext(p: Pool, log: seq<nat>, init: seq<nat>, last: nat, protected: set<nat>, loads: nat -> Load)
    requires Consistent(p) && Recalls(p, log) && Demand(p, init + [last], protected, loads).error.None?
    ensures Recalls(Demand(p, init + [last], protected, loads).pool, log + (init + [last]))
    decreases |init|, 1
  {
    MoreServed(p, init, last, protected, loads);
    DemandRecalls(p, log, init, protected, loads);
    ServeRecalls(Demand(p, init, protected, loads).pool, log + init, last, protected, loads(last));
    assert log + (init + [last]) == (log + init) + [last];
  }

  /** A group that is served whole serves all but its last source, and then that one. */
  lemma MoreServed(p: Pool, init: seq<nat>, last: nat, protected: set<nat>, loads: nat -> Load)
    requires Consistent(p) && Demand(p, init + [last], protected, loads).error.None?
    ensures var d := Demand(p, init, protected, loads);
            && d.error.None? && Serve(d.pool, last, protected, loads(last)).1.None?
            && Demand(p, init + [last], protected, loads).pool == Serve(d.pool, last, protected, loads(last)).0
  {
    assert (init + [last])[..|init|] == init;
  }

  lemma {:induction false} DemandCounts(p: Pool, prior: map<nat, nat>, log: seq<nat>, from: nat, sources: seq<nat>, protected: set<nat>, loads: nat -> Load)
    requires Consistent(p) && from <= |log| == p.clock && Counts(p, prior, log, from) && Demand(p, sources, protected, loads).error.None?
    ensures Counts(Demand(p, sources, protected, loads).pool, prior, log + sources, from)
    ensures Demand(p, sources, protected, loads).pool.clock == |log + sources|
    decreases |sources|, 0
  {
    if sources == [] {
      assert log + sources == log;
    } else {
      var init, last := sources[..|sources| - 1], sources[|sources| - 1];
      assert sources == init + [last];
      DemandCountsNext(p, prior, log, from, init, last, protected, loads);
    }
  }

  lemma {:induction false} DemandCountsNext(p: Pool, prior: map<nat, nat>, log: seq<nat>, from: nat, init: seq<nat>, last: nat, protected: set<nat>, loads: nat -> Load)
    requires Consistent(p) && from <= |log| == p.clock && Counts(p, prior, log, from) && Demand(p, init + [last], protected, loads).error.None?
    ensures Counts(Demand(p, init + [last], protected, loads).pool, prior, log + (init + [last]), from)
    ensures Demand(p, init + [last], protected, loads).pool.clock == |log + (init + [last])|
    decreases |init|, 1
  {
    MoreServed(p, init, last, protected, loads);
    DemandCounts(p, prior, log, from, init, protected, loads);
    ServeCounts(Demand(p, init, protected, loads).pool, prior, log + init, from, last, protected, loads(last));
    assert log + (init + [last]) == (log + init) + [last];
  }

  /** A group, failing or not, adds to the history the sources it served before any failure. */
  lemma GroupRecalls(p: Pool, log: seq<nat>, sources: seq<nat>, protected: set<nat>, loads: nat -> Load)
    requires Consistent(p) && CountsBounded(p) && Recalls(p, log)
    requires Demand(p, sources, protected, loads).pool.clock < U64_MAX
    ensures Recalls(Demand(p, sources, protected, loads).pool, log + sources[..ServedCount(p, sources, protected, loads)])
  {
    DemandBounded(p, sources, protected, loads);
    if Demand(p, sources, protected, loads).error.None? {
      ServedCountStops(p, sources, protected, loads);
      assert sources[..|sources|] == sources;
      DemandRecalls(p, log, sources, protected, loads);
    } else {
      var n := ServedCount(p, sources, protected, loads);
      var d := StopsWith(p, sources, protected, loads, n);
      DemandRecalls(p, log, sources[..n], protected, loads);
      ServeRecalls(d.pool, log + sources[..n], sources[n], protected, loads(sources[n]));
    }
  }

  lemma GroupCounts(p: Pool, prior: map<nat, nat>, log: seq<nat>, from: nat, sources: seq<nat>, protected: set<nat>, loads: nat -> Load)
    requires Consistent(p) && from <= |log| == p.clock && Counts(p, prior, log, from)
    ensures Counts(Demand(p, sources, protected, loads).pool, prior, log + sources[..ServedCount(p, sources, protected, loads)], from)
  {
    if Demand(p, sources, protected, loads).error.None? {
      ServedCountStops(p, sources, protected, loads);
      assert sources[..|sources|] == sources;
      DemandCounts(p, prior, log, from, sources, protected, loads);
    } else {
      var n := ServedCount(p, sources, protected, loads);
      var d := StopsWith(p, sources, protected, loads, n);
      DemandCounts(p, prior, log, from, sources[..n], protected, loads);
      ServeCounts(d.pool, prior, log + sources[..n], from, sources[n], protected, loads(sources[n]));
    }
  }

  // ----- runs

  /** The sources an operation serves, in order. */
  function ServedBy(p: Pool, op: Op): seq<nat>
    requires Consistent(p)
  {
    match op
    case GroupOp(active, protect, loads) =>
      if ValidGroup(p, active, protect) then ServedFirst(p, Ascending(active, p.experts), active + protect, loads) else []
    case SeedOp(sources, loads) =>
      if ValidSeed(p, sources) then ServedFirst(p, Ascending(sources, p.experts), sources, loads) else []
    case HotlistOp(counts, loads) =>
      if ValidHotlist(p, counts) then ServedFirst(p.(frequency := counts), HotSources(p, counts), Members(HotSources(p, counts)), loads) else []
    case _ => []
  }

  function ServedFirst(p: Pool, sources: seq<nat>, protected: set<nat>, loads: nat -> Load): seq<nat>
    requires Consistent(p)
  {
    sources[..ServedCount(p, sources, protected, loads)]
  }

  /** Every source a run serves, in order. */
  function History(p: Pool, ops: seq<Op>): seq<nat>
    requires Consistent(p)
    decreases |ops|
  {
    if ops == [] then [] else
    ApplyConsistent(p, ops[0]);
    ServedBy(p, ops[0]) + History(Apply(p, ops[0]), ops[1..])
  }

  lemma KeptRecalls(p: Pool, q: Pool, log: seq<nat>)
    requires Consistent(q) && Recalls(p, log) && q.clock == p.clock
    requires forall s :: s in q.slotOf ==> s in p.slotOf && q.slotOf[s] == p.slotOf[s] && q.lastUse[q.slotOf[s]] == p.lastUse[p.slotOf[s]]
    ensures Recalls(q, log)
  {
  }

  lemma ApplyRecalls(p: Pool, log: seq<nat>, op: Op)
    requires Consistent(p) && CountsBounded(p) && Recalls(p, log) && Apply(p, op).clock < U64_MAX
    requires op.HotlistOp? && ValidHotlist(p, op.counts) ==> SeedHotlist(p, op.counts, op.loads).error.None?
    ensures Recalls(Apply(p, op), log + ServedBy(p, op))
  {
    assert log + [] == log;
    match op
    case GroupOp(active, protect, loads) =>
      if ValidGroup(p, active, protect) { GroupRecalls(p, log, Ascending(active, p.experts), active + protect, loads); }
    case SeedOp(sources, loads) =>
      if ValidSeed(p, sources) { GroupRecalls(p, log, Ascending(sources, p.experts), sources, loads); }
    case HotlistOp(counts, loads) =>
      if ValidHotlist(p, counts) { HotlistRecalls(p, log, counts, loads); }
    case ReleaseOp(target) => if TOP_K <= target < p.capacity { ReleaseKeeps(p, target); KeptRecalls(p, Apply(p, op), log); }
    case GrowOp(target) => if p.capacity < target < 512 { GrowthKeeps(p, target); KeptRecalls(p, Apply(p, op), log); }
  }

  lemma HotlistRecalls(p: Pool, log: seq<nat>, counts: map<nat, nat>, loads: nat -> Load)
    requires Consistent(p) && Recalls(p, log) && ValidHotlist(p, counts) && SeedHotlist(p, counts, loads).error.None?
    ensures Recalls(SeedHotlist(p, counts, loads).pool, log + ServedBy(p, HotlistOp(counts, loads)))
  {
    var hot, primed := HotSources(p, counts), p.(frequency := counts);
    ServedCountStops(primed, hot, Members(hot), loads);
    assert hot[..|hot|] == hot;
    DemandRecalls(primed, log, hot, Members(hot), loads);
  }

  /** In every run whose hotlists load, until the 64-bit clock runs out, each resident source's slot
      carries the place of its last use in the run's history. */
  lemma {:induction false} RunRecalls(p: Pool, log: seq<nat>, ops: seq<Op>)
    requires Consistent(p) && CountsBounded(p) && HotlistsLoad(p, ops) && Recalls(p, log) && Run(p, ops).clock < U64_MAX
    ensures Recalls(Run(p, ops), log + History(p, ops))
    decreases |ops|
  {
    if ops == [] {
      assert log + [] == log;
    } else {
      var q, served := RunStarts(p, ops);
      ApplyRecalls(p, log, ops[0]);
      RunRecalls(q, log + served, ops[1..]);
      Rejoin(log, served, History(q, ops[1..]));
    }
  }

  lemma Rejoin(a: seq<nat>, b: seq<nat>, c: seq<nat>)
    ensures a + (b + c) == (a + b) + c
  {
  }

  /** A run's first operation, and the run after it. */
  lemma RunStarts(p: Pool, ops: seq<Op>) returns (q: Pool, served: seq<nat>)
    requires Consistent(p) && CountsBounded(p) && HotlistsLoad(p, ops) && ops != []
    ensures q == Apply(p, ops[0]) && served == ServedBy(p, ops[0]) && Consistent(q) && CountsBounded(q) && HotlistsLoad(q, ops[1..])
    ensures Run(q, ops[1..]) == Run(p, ops) && q.clock <= Run(p, ops).clock && History(p, ops) == served + History(q, ops[1..])
    ensures ops[0].HotlistOp? && ValidHotlist(p, ops[0].counts) ==> SeedHotlist(p, ops[0].counts, ops[0].loads).error.None?
  {
    ApplyConsistent(p, ops[0]);
    ApplySeeded(p, ops[0]);
    q, served := Apply(p, ops[0]), ServedBy(p, ops[0]);
    RunSeeded(q, ops[1..]);
  }

  lemma ApplyCounts(p: Pool, prior: map<nat, nat>, log: seq<nat>, from: nat, op: Op)
    requires Consistent(p) && from <= |log| == p.clock && Counts(p, prior, log, from) && !op.HotlistOp?
    ensures Counts(Apply(p, op), prior, log + ServedBy(p, op), from)
  {
    assert log + [] == log;
    match op
    case GroupOp(active, protect, loads) =>
      if ValidGroup(p, active, protect) { GroupCounts(p, prior, log, from, Ascending(active, p.experts), active + protect, loads); }
    case SeedOp(sources, loads) =>
      if ValidSeed(p, sources) { GroupCounts(p, prior, log, from, Ascending(sources, p.experts), sources, loads); }
    case ReleaseOp(target) => UsesAlone(p, Apply(p, op), prior, log, from);
    case GrowOp(target) => UsesAlone(p, Apply(p, op), prior, log, from);
  }

  /** In every run without a hotlist the counts are the prior counts and the uses since, fading. */
  lemma {:induction false} RunCounts(p: Pool, prior: map<nat, nat>, log: seq<nat>, from: nat, ops: seq<Op>)
    requires Consistent(p) && CountsBounded(p) && Recalls(p, log) && from <= |log| && Counts(p, prior, log, from)
    requires (forall i :: 0 <= i < |ops| ==> !ops[i].HotlistOp?) && Run(p, ops).clock < U64_MAX
    ensures Counts(Run(p, ops), prior, log + History(p, ops), from)
    decreases |ops|
  {
    if ops == [] {
      assert log + [] == log;
    } else {
      NoHotlists(p, ops);
      var q, served := RunStarts(p, ops);
      ApplyRecalls(p, log, ops[0]);
      ApplyCounts(p, prior, log, from, ops[0]);
      RunCounts(q, prior, log + served, from, ops[1..]);
      Rejoin(log, served, History(q, ops[1..]));
    }
  }

  lemma {:induction false} NoHotlists(p: Pool, ops: seq<Op>)
    requires Consistent(p) && forall i :: 0 <= i < |ops| ==> !ops[i].HotlistOp?
    ensures HotlistsLoad(p, ops)
    decreases |ops|
  {
    if ops != [] {
      ApplyConsistent(p, ops[0]);
      NoHotlists(Apply(p, ops[0]), ops[1..]);
    }
  }

  // ----- eviction

  /** One source goes before another: it was used less, or as often and longer ago. */
  predicate LessUsed(p: Pool, log: seq<nat>, a: nat, b: nat) {
    Uses(p, a) < Uses(p, b) || (Uses(p, a) == Uses(p, b) && LastTouch(log, a) < LastTouch(log, b))
  }

  lemma VictimLessUsed(p: Pool, log: seq<nat>, protected: set<nat>, other: nat)
    requires Consistent(p) && Recalls(p, log) && |p.slotOf| == p.capacity
    requires other in p.slotOf && other !in protected
    ensures var v := ChooseSlot(p, protected);
            v.Some? && v.value < p.capacity && p.expertAt[v.value].Some?
            && (p.expertAt[v.value].value == other || LessUsed(p, log, p.expertAt[v.value].value, other))
  {
    FullIffNoEmpty(p);
    var v := LeastFrequentSlot(p, protected, p.capacity);
    assert Evictable(p, protected, p.slotOf[other]);
    var victim := p.expertAt[v.value].value;
    assert !Before(p, p.slotOf[other], v.value);
    OneAtATime(log, victim, other);
  }

  lemma OneAtATime(log: seq<nat>, a: nat, b: nat)
    requires LastTouch(log, a) > 0 && LastTouch(log, b) > 0
    ensures LastTouch(log, a) == LastTouch(log, b) <==> a == b
  {
  }

  /** In every run of a new pool whose hotlists load: what a full pool evicts, of all it may, is a
      source with the fewest uses, and of those the one whose last use is oldest. */
  lemma EvictsOldest(experts: nat, capacity: nat, ops: seq<Op>, protected: set<nat>, other: nat)
    requires HotlistsLoad(NewPool(experts, capacity), ops)
    requires var q := Run(NewPool(experts, capacity), ops);
             q.clock < U64_MAX && |q.slotOf| == q.capacity && other in q.slotOf && other !in protected
    ensures var q, log := Run(NewPool(experts, capacity), ops), History(NewPool(experts, capacity), ops);
            var v := ChooseSlot(q, protected);
            v.Some? && v.value < q.capacity && q.expertAt[v.value].Some?
            && (q.expertAt[v.value].value == other || LessUsed(q, log, q.expertAt[v.value].value, other))
  {
    var p, log := NewPool(experts, capacity), History(NewPool(experts, capacity), ops);
    RunRecalls(p, [], ops);
    assert [] + log == log;
    VictimLessUsed(Run(p, ops), log, protected, other);
  }

  /** From a new pool without a hotlist those uses are the servings of the history, fading. */
  lemma UsesFade(experts: nat, capacity: nat, ops: seq<Op>, source: nat)
    requires (forall i :: 0 <= i < |ops| ==> !ops[i].HotlistOp?) && Run(NewPool(experts, capacity), ops).clock < U64_MAX
    ensures Uses(Run(NewPool(experts, capacity), ops), source) == Remembered(map[], History(NewPool(experts, capacity), ops), 0, source)
  {
    var p, log := NewPool(experts, capacity), History(NewPool(experts, capacity), ops);
    RunCounts(p, map[], [], 0, ops);
    assert [] + log == log;
    assert Counts(Run(p, ops), map[], log, 0);
  }
}
