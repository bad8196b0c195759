/** The rounds of a prefill: retire the group before last, load the next while the last still runs,
    submit it. What a round needs to succeed, and that rounds which have it never stall. */
module PrefillRounds {
  import opened Wrappers
  import opened ExpertPool
  import opened ExpertDemand
  import opened ExpertDecay
  import opened ExpertOps
  import opened Experts
  import opened PrefillScope

  // ----- when a load goes ahead

  /** A group fits a pool beside the sources that running readers use. */
  ghost predicate FitsBeside(p: Pool, active: set<nat>, reading: set<nat>) {
    && active != {} && |active| <= p.capacity && |active + reading| <= p.capacity
    && forall s :: s in active + reading ==> s < p.experts
  }

  ghost predicate RowsLoad(p: Pool, active: set<nat>, loads: nat -> Load) {
    forall s :: s in active && s !in p.slotOf ==> loads(s).Loaded?
  }

  lemma GroupLoadsIff(p: Pool, active: set<nat>, reading: set<nat>, loads: nat -> Load)
    requires Consistent(p) && CountsBounded(p) && p.clock + |active| <= U64_MAX && FitsBeside(p, active, reading)
    ensures Group(p, active, reading, loads).error.None? <==> RowsLoad(p, active, loads)
  {
    var order := Ascending(active, p.experts);
    AscendingSize(active, p.experts);
    DemandSucceedsIff(p, order, active + reading, loads);
    AllOrNone(p, order, active, loads);
  }

  lemma AllOrNone(p: Pool, order: seq<nat>, active: set<nat>, loads: nat -> Load)
    requires (forall s :: s in active ==> s in order) && forall i :: 0 <= i < |order| ==> order[i] in active
    ensures (forall i :: 0 <= i < |order| && order[i] !in p.slotOf ==> loads(order[i]).Loaded?) <==> RowsLoad(p, active, loads)
  {
    if RowsLoad(p, active, loads) {
      forall i | 0 <= i < |order| && order[i] !in p.slotOf ensures loads(order[i]).Loaded? {
        assert order[i] in active;
      }
    }
  }

  /** A group is loaded exactly when it fits beside what is being read, every row it lacks loads, and
      a reader that is needed for two or more rows starts. */
  lemma LoadedIff(p: Pool, active: set<nat>, reading: set<nat>, start: ReaderStart, loads: nat -> Load)
    requires Consistent(p) && CountsBounded(p) && p.clock + |active| <= U64_MAX
    ensures LoadedPool(p, active, reading, start, loads).1 <==>
              && FitsBeside(p, active, reading) && RowsLoad(p, active, loads)
              && (|Absent(p, active)| >= 2 ==> !start.Failed?)
  {
    FitsIsValid(p, active, reading);
    if FitsBeside(p, active, reading) {
      AbsentSize(p, active);
      GroupLoadsIff(p, active, reading, loads);
    }
  }

  lemma FitsIsValid(p: Pool, active: set<nat>, reading: set<nat>)
    ensures ValidGroup(p, active, reading) <==> FitsBeside(p, active, reading)
  {
    if FitsBeside(p, active, reading) {
      forall s | s in active ensures s < p.experts {
        assert s in active + reading;
      }
    }
  }

  /** What a scope needs to load a group: at most one group, submitted, and room and rows beside it. */
  ghost predicate CanLoad(s: Scope, active: set<nat>, start: ReaderStart, loads: nat -> Load) {
    && |s.groups| <= 1 && (forall g :: g in s.groups ==> g.submitted)
    && FitsBeside(s.pool, active, Sources(s.groups)) && RowsLoad(s.pool, active, loads)
    && (|Absent(s.pool, active)| >= 2 ==> !start.Failed?)
    && s.pool.experts == PREFILL_SOURCES
  }

  /** A load that goes ahead: one more group, of exactly the sources asked for, captured at the slots
      it was given and not yet submitted. */
  ghost predicate Loads(s: Scope, t: Scope, active: set<nat>) {
    && !t.failed && t.finished == s.finished && t.inFlight == s.inFlight
    && |t.groups| == |s.groups| + 1 && t.groups[..|s.groups|] == s.groups
    && var g := t.groups[|s.groups|];
       g.sources == active && !g.submitted && Held(t.pool, g)
  }

  lemma CapturedLoads(s: Scope, q: Pool, active: set<nat>)
    requires !s.failed && Consistent(q) && active != {} && active <= q.slotOf.Keys && q.experts == PREFILL_SOURCES
    ensures Loads(s, AfterLoad(s.(pool := q), active, true), active)
  {
    CaptureHeld(q, active);
  }

  lemma ServedLoads(s: Scope, active: set<nat>, start: ReaderStart, loads: nat -> Load)
    requires Safe(s) && !s.failed && !s.finished && |s.groups| <= 1 && AllSubmitted(s.groups)
    requires LoadedPool(s.pool, active, Sources(s.groups), start, loads).1 && s.pool.experts == PREFILL_SOURCES
    ensures var t := Step(s, LoadGroup(active, start, loads));
            Loads(s, t, active) && t.pool == LoadedPool(s.pool, active, Sources(s.groups), start, loads).0
  {
    var q := LoadedPool(s.pool, active, Sources(s.groups), start, loads).0;
    LoadKeepsGroups(s, active, start, loads);
    ServedGroupResident(s.pool, active, Sources(s.groups), start, loads);
    CapturedLoads(s, q, active);
    LoadIsAfter(s, active, start, loads);
    AfterKeepsPool(s.(pool := q), active, true);
  }

  lemma LoadIsAfter(s: Scope, active: set<nat>, start: ReaderStart, loads: nat -> Load)
    requires Consistent(s.pool) && !s.failed && !s.finished && |s.groups| <= 1 && AllSubmitted(s.groups)
    ensures var (q, served) := LoadedPool(s.pool, active, Sources(s.groups), start, loads);
            Step(s, LoadGroup(active, start, loads)) == AfterLoad(s.(pool := q), active, served)
  {
  }

  lemma AfterKeepsPool(s: Scope, active: set<nat>, served: bool)
    ensures AfterLoad(s, active, served).pool == s.pool
  {
  }

  lemma RefusedLoads(s: Scope, active: set<nat>, start: ReaderStart, loads: nat -> Load)
    requires Safe(s) && !s.failed && !s.finished
    requires |s.groups| > 1 || !AllSubmitted(s.groups) || s.pool.experts != PREFILL_SOURCES
             || !LoadedPool(s.pool, active, Sources(s.groups), start, loads).1
    ensures Step(s, LoadGroup(active, start, loads)).failed
  {
    if |s.groups| < 2 && AllSubmitted(s.groups) {
      LoadKeepsGroups(s, active, start, loads);
    }
  }

  /** A scope loads a group exactly when it has at most one group, submitted, and the group can be
      loaded beside it. */
  lemma LoadGoesAhead(s: Scope, active: set<nat>, start: ReaderStart, loads: nat -> Load)
    requires Safe(s) && !s.failed && !s.finished && CountsBounded(s.pool) && s.pool.clock + |active| <= U64_MAX
    ensures var t := Step(s, LoadGroup(active, start, loads));
            && (!t.failed <==> CanLoad(s, active, start, loads))
            && (!t.failed ==> Loads(s, t, active) && t.pool == LoadedPool(s.pool, active, Sources(s.groups), start, loads).0)
  {
    LoadedIff(s.pool, active, Sources(s.groups), start, loads);
    if CanLoad(s, active, start, loads) {
      ServedLoads(s, active, start, loads);
    } else {
      RefusedLoads(s, active, start, loads);
    }
  }

  /** A batch may still be running until it is waited for: only a retirement that waits for it, or a
      failure that drains every command, takes one out, and only a submission that encodes and flushes
      adds one. */
  lemma BatchesInFlight(s: Scope, event: Event)
    requires Safe(s) && !s.failed && !s.finished
    ensures var t := Step(s, event);
            !t.failed ==>
              t.inFlight == match event
                case Retire(waited) => if |s.groups| == 2 then s.inFlight[1..] else s.inFlight
                case Submit(_, _) => s.inFlight + [s.groups[|s.groups| - 1].slotMap]
                case _ => s.inFlight
    ensures !event.LoadGroup? ==>
              (Step(s, event).failed <==>
              match event
              case Retire(waited) => |s.groups| == 2 && !waited
              case Submit(encoded, flushed) => s.groups == [] || s.groups[|s.groups| - 1].submitted || !encoded || !flushed
              case _ => exists g :: g in s.groups && !g.submitted)
  {
    match event
    case Retire(waited) => RetireSafe(s, waited);
    case LoadGroup(active, start, loads) =>
    case Submit(encoded, flushed) =>
    case Finish =>
  }

  // ----- rounds

  /** One group to prefill, and how its rows turn out. */
  datatype Chunk = Chunk(active: set<nat>, start: ReaderStart, loads: nat -> Load)

  /** The three events of a round. */
  function Round(c: Chunk): seq<Event> {
    [Retire(true), LoadGroup(c.active, c.start, c.loads), Submit(true, true)]
  }

  function Rounds(chunks: seq<Chunk>): seq<Event> {
    if chunks == [] then [] else Round(chunks[0]) + Rounds(chunks[1..])
  }

  /** A scope between rounds: every group is submitted, and at most two are kept. */
  ghost predicate Between(s: Scope) {
    && Safe(s) && !s.failed && !s.finished && |s.groups| <= 2 && AllSubmitted(s.groups)
    && CountsBounded(s.pool) && s.pool.experts == PREFILL_SOURCES
  }

  /** The sources of the newest group. */
  function Newest(s: Scope): set<nat> {
    if s.groups == [] then {} else s.groups[|s.groups| - 1].sources
  }

  lemma RetireGoes(s: Scope) returns (t: Scope)
    requires Between(s)
    ensures t == Step(s, Retire(true)) && Between(t) && |t.groups| <= 1 && Sources(t.groups) == Newest(s) && t.pool == s.pool
  {
    RetireSafe(s, true);
    t := Step(s, Retire(true));
    assert t.groups == if s.groups == [] then [] else [s.groups[|s.groups| - 1]];
  }

  lemma SubmitGoes(s: Scope) returns (t: Scope)
    requires Fresh(s, Newest(s))
    ensures t == Step(s, Submit(true, true)) && Between(t) && Newest(t) == Newest(s) && t.groups != [] && t.pool == s.pool
  {
    SubmitSafe(s, true, true);
    t := Step(s, Submit(true, true));
    forall g | g in t.groups ensures g.submitted {
      var i :| 0 <= i < |t.groups| && t.groups[i] == g;
      assert i < |s.inFlight| || i == |s.groups| - 1;
    }
  }

  /** A round succeeds if its group fits beside the newest one, which may still be running, and its
      rows load; then its group is resident and submitted. */
  lemma RoundGoes(s: Scope, c: Chunk) returns (t: Scope)
    requires Between(s) && FitsBeside(s.pool, c.active, Newest(s)) && s.pool.clock + |c.active| <= U64_MAX
    requires (forall x :: x in c.active ==> c.loads(x).Loaded?) && !c.start.Failed?
    ensures t == PrefillScope.Run(s, Round(c)) && Between(t) && Newest(t) == c.active <= t.pool.slotOf.Keys
    ensures t.pool.capacity == s.pool.capacity && t.pool.clock <= s.pool.clock + |c.active|
  {
    var a, b := RetireThenLoad(s, c);
    t := SubmitGoes(b);
    RunRound(s, c, a, b);
  }

  lemma RetireThenLoad(s: Scope, c: Chunk) returns (a: Scope, b: Scope)
    requires Between(s) && FitsBeside(s.pool, c.active, Newest(s)) && s.pool.clock + |c.active| <= U64_MAX
    requires (forall x :: x in c.active ==> c.loads(x).Loaded?) && !c.start.Failed?
    ensures a == Step(s, Retire(true)) && Safe(a) && b == Step(a, LoadGroup(c.active, c.start, c.loads)) && Fresh(b, c.active)
    ensures b.pool.capacity == s.pool.capacity && b.pool.clock <= s.pool.clock + |c.active| && c.active <= b.pool.slotOf.Keys
  {
    a := RetireGoes(s);
    b := LoadRound(a, c);
  }

  /** A scope that has just loaded its newest group. */
  ghost predicate Fresh(s: Scope, active: set<nat>) {
    && Safe(s) && !s.failed && !s.finished && s.groups != [] && !s.groups[|s.groups| - 1].submitted && Newest(s) == active
    && CountsBounded(s.pool) && s.pool.experts == PREFILL_SOURCES
  }

  lemma LoadRound(a: Scope, c: Chunk) returns (b: Scope)
    requires Between(a) && |a.groups| <= 1 && FitsBeside(a.pool, c.active, Sources(a.groups)) && a.pool.clock + |c.active| <= U64_MAX
    requires (forall x :: x in c.active ==> c.loads(x).Loaded?) && !c.start.Failed?
    ensures b == Step(a, LoadGroup(c.active, c.start, c.loads)) && Fresh(b, c.active)
    ensures b.pool.clock <= a.pool.clock + |c.active| && b.pool.capacity == a.pool.capacity && c.active <= b.pool.slotOf.Keys
  {
    b := Step(a, LoadGroup(c.active, c.start, c.loads));
    LoadGoesAhead(a, c.active, c.start, c.loads);
    StepSafe(a, LoadGroup(c.active, c.start, c.loads));
    LoadedIff(a.pool, c.active, Sources(a.groups), c.start, c.loads);
    LoadedBounds(a.pool, c.active, Sources(a.groups), c.start, c.loads);
  }

  lemma LoadedBounds(p: Pool, active: set<nat>, reading: set<nat>, start: ReaderStart, loads: nat -> Load)
    requires Consistent(p) && CountsBounded(p) && LoadedPool(p, active, reading, start, loads).1
    ensures var q := LoadedPool(p, active, reading, start, loads).0;
            CountsBounded(q) && q.clock <= p.clock + |active| && q.capacity == p.capacity && q.experts == p.experts
            && active <= q.slotOf.Keys
  {
    AscendingSize(active, p.experts);
    DemandBounded(p, Ascending(active, p.experts), active + reading, loads);
    ServedGroupResident(p, active, reading, start, loads);
  }

  lemma RunOne(s: Scope, e: Event, rest: seq<Event>)
    requires Safe(s)
    ensures Safe(Step(s, e)) && PrefillScope.Run(s, [e] + rest) == PrefillScope.Run(Step(s, e), rest)
  {
    StepSafe(s, e);
    assert ([e] + rest)[1..] == rest;
  }

  lemma RunRound(s: Scope, c: Chunk, a: Scope, b: Scope)
    requires Safe(s) && a == Step(s, Retire(true)) && Safe(a) && b == Step(a, LoadGroup(c.active, c.start, c.loads))
    ensures Safe(b) && PrefillScope.Run(s, Round(c)) == Step(b, Submit(true, true))
  {
    var load, submit := LoadGroup(c.active, c.start, c.loads), Submit(true, true);
    RunOne(s, Retire(true), [load, submit]);
    RunOne(a, load, [submit]);
    RunOne(b, submit, []);
    assert Round(c) == [Retire(true)] + [load, submit] && [load, submit] == [load] + [submit] && [submit] == [submit] + [];
  }

  /** Every chunk fits the pool beside the one before it, and its rows load. */
  ghost predicate Feasible(experts: nat, capacity: nat, reading: set<nat>, chunks: seq<Chunk>)
    decreases |chunks|
  {
    chunks == [] ||
    var c := chunks[0];
    && c.active != {} && |c.active + reading| <= capacity && |c.active| <= capacity
    && (forall s :: s in c.active + reading ==> s < experts)
    && (forall x :: x in c.active ==> c.loads(x).Loaded?) && !c.start.Failed?
    && Feasible(experts, capacity, c.active, chunks[1..])
  }

  function Work(chunks: seq<Chunk>): nat {
    if chunks == [] then 0 else |chunks[0].active| + Work(chunks[1..])
  }

  lemma {:induction false} RunSplits(s: Scope, a: seq<Event>, b: seq<Event>)
    requires Safe(s)
    ensures PrefillScope.Run(s, a + b) == PrefillScope.Run(PrefillScope.Run(s, a), b)
    decreases |a|
  {
    if a == [] {
      assert a + b == b;
    } else {
      StepSafe(s, a[0]);
      assert (a + b)[1..] == a[1..] + b;
      RunSplits(Step(s, a[0]), a[1..], b);
    }
  }

  lemma {:induction false} RoundsRun(s: Scope, chunks: seq<Chunk>) returns (t: Scope)
    requires Between(s) && Feasible(PREFILL_SOURCES, s.pool.capacity, Newest(s), chunks)
    requires s.pool.clock + Work(chunks) <= U64_MAX
    ensures t == PrefillScope.Run(s, Rounds(chunks)) && Between(t) && Newest(t) == LastLoaded(Newest(s), chunks)
    ensures Newest(s) <= s.pool.slotOf.Keys || chunks != [] ==> Newest(t) <= t.pool.slotOf.Keys
    decreases |chunks|
  {
    if chunks == [] {
      t := s;
    } else {
      var u := FirstRound(s, chunks);
      t := RoundsRun(u, chunks[1..]);
    }
  }

  /** The sources of the last chunk, or what was loaded before. */
  function LastLoaded(before: set<nat>, chunks: seq<Chunk>): set<nat>
    decreases |chunks|
  {
    if chunks == [] then before else LastLoaded(chunks[0].active, chunks[1..])
  }

  lemma {:induction false} LastLoadedIs(before: set<nat>, chunks: seq<Chunk>)
    requires chunks != []
    ensures LastLoaded(before, chunks) == chunks[|chunks| - 1].active
    decreases |chunks|
  {
    if |chunks| > 1 {
      LastLoadedIs(chunks[0].active, chunks[1..]);
    }
  }

  lemma FinishGoes(s: Scope)
    requires Between(s)
    ensures !Step(s, Finish).failed && Step(s, Finish).finished
  {
  }

  /** However many chunks, rounds never stall: as long as each fits beside the one before it, every
      group is loaded while the one before it may still be running, and the scope can finish. */
  lemma RoundsNeverStall(s: Scope, chunks: seq<Chunk>)
    requires Between(s) && Feasible(PREFILL_SOURCES, s.pool.capacity, Newest(s), chunks)
    requires s.pool.clock + Work(chunks) <= U64_MAX
    ensures var t := PrefillScope.Run(s, Rounds(chunks));
            && Between(t) && (chunks != [] ==> Newest(t) == chunks[|chunks| - 1].active <= t.pool.slotOf.Keys)
            && !Step(t, Finish).failed && Step(t, Finish).finished
  {
    var t := RoundsRun(s, chunks);
    FinishGoes(t);
    if chunks != [] {
      LastLoadedIs(Newest(s), chunks);
    }
  }

  lemma FirstRound(s: Scope, chunks: seq<Chunk>) returns (t: Scope)
    requires chunks != [] && Between(s) && Feasible(PREFILL_SOURCES, s.pool.capacity, Newest(s), chunks)
    requires s.pool.clock + Work(chunks) <= U64_MAX
    ensures Between(t) && PrefillScope.Run(s, Rounds(chunks)) == PrefillScope.Run(t, Rounds(chunks[1..]))
    ensures Feasible(PREFILL_SOURCES, t.pool.capacity, Newest(t), chunks[1..]) && t.pool.clock + Work(chunks[1..]) <= U64_MAX
    ensures Newest(t) == chunks[0].active <= t.pool.slotOf.Keys
  {
    t := RoundGoes(s, chunks[0]);
    RunSplits(s, Round(chunks[0]), Rounds(chunks[1..]));
  }
}
