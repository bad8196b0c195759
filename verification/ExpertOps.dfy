/** Whole-pool operations and runs of them: validated groups, seeding, suffix release and growth. */
module ExpertOps {
  import opened Wrappers
  import opened ExpertPool
  import opened ExpertDemand
  import opened ExpertDecay

  const TOP_K: nat := 10
  const HOT_CEILING: nat := 8

  // ----- ordered sets of sources

  /** The members of a set below n, ascending: the order in which a group is served. */
  function Ascending(s: set<nat>, n: nat): (r: seq<nat>)
    ensures forall i :: 0 <= i < |r| ==> r[i] < n && r[i] in s
    ensures forall i, j :: 0 <= i < j < |r| ==> r[i] < r[j]
    ensures forall x: nat :: x < n && x in s ==> x in r
  {
    if n == 0 then [] else Ascending(s, n - 1) + if n - 1 in s then [n - 1] else []
  }

  // ----- validated groups

  predicate ValidGroup(p: Pool, active: set<nat>, protect: set<nat>) {
    && active != {} && |active| <= p.capacity
    && (forall s :: s in active ==> s < p.experts)
    && |active + protect| <= p.capacity
    && (forall s :: s in active + protect ==> s < p.experts)
  }

  /** Serve a validated group in ascending order. */
  function Group(p: Pool, active: set<nat>, protect: set<nat>, loads: nat -> Load): Served
    requires Consistent(p)
  {
    Demand(p, Ascending(active, p.experts), active + protect, loads)
  }

  /** A validated group always finds victims; a resident protected source keeps its slot; on
      success the whole group is resident and evictions are exactly the overflow. */
  lemma GroupServes(p: Pool, active: set<nat>, protect: set<nat>, loads: nat -> Load)
    requires Consistent(p) && ValidGroup(p, active, protect)
    ensures var r := Group(p, active, protect, loads);
            && r.error != Some(NoEvictableSlot)
            && KeepsProtected(p, r.pool, active + protect)
            && (r.error.None? ==>
                  && active <= r.pool.slotOf.Keys
                  && r.hits + r.misses == |active|
                  && r.evictions == (if |p.slotOf| + r.misses > p.capacity then |p.slotOf| + r.misses - p.capacity else 0)
                  && |r.pool.slotOf| + r.evictions == |p.slotOf| + r.misses)
  {
    var order := Ascending(active, p.experts);
    AscendingSize(active, p.experts);
    DemandKeeps(p, order, active + protect, loads);
    var r := Demand(p, order, active + protect, loads);
    if r.error.None? {
      DemandCounts(p, order, active + protect, loads);
      AllResident(order, active, r.pool.slotOf);
    }
  }

  lemma AllResident(order: seq<nat>, active: set<nat>, slotOf: map<nat, nat>)
    requires (forall s :: s in active ==> s in order) && forall i :: 0 <= i < |order| ==> order[i] in slotOf
    ensures active <= slotOf.Keys
  {
  }

  function Members(s: seq<nat>): set<nat> {
    set x | x in s
  }

  lemma {:induction false} DistinctSize(r: seq<nat>)
    requires Distinct(r)
    ensures |Members(r)| == |r|
  {
    if r != [] {
      DistinctSize(r[1..]);
      assert Members(r) == Members(r[1..]) + {r[0]};
    }
  }

  lemma AscendingSize(s: set<nat>, n: nat)
    requires forall x :: x in s ==> x < n
    ensures |Ascending(s, n)| == |s| && Distinct(Ascending(s, n))
  {
    DistinctSize(Ascending(s, n));
    assert Members(Ascending(s, n)) == s;
  }

  // ----- suffix resizing

  function Retained(slotOf: map<nat, nat>, target: nat): map<nat, nat> {
    map s | s in slotOf && slotOf[s] < target :: slotOf[s]
  }

  /** The sources a release to `target` slots evicts. */
  function Beyond(slotOf: map<nat, nat>, target: nat): set<nat> {
    set s | s in slotOf && slotOf[s] >= target
  }

  lemma DisjointSizes(a: set<nat>, b: set<nat>, c: set<nat>)
    requires a !! b && c == a + b
    ensures |c| == |a| + |b|
  {
  }

  /** A release loses exactly the sources beyond the target. */
  lemma EvictedAccounted(slotOf: map<nat, nat>, target: nat)
    ensures |Retained(slotOf, target)| + |Beyond(slotOf, target)| == |slotOf|
  {
    var kept := Retained(slotOf, target);
    forall s ensures s in slotOf.Keys <==> s in kept.Keys + Beyond(slotOf, target) {
    }
    assert |kept| == |kept.Keys| && |slotOf| == |slotOf.Keys|;
    DisjointSizes(kept.Keys, Beyond(slotOf, target), slotOf.Keys);
  }

  /** Keep the first `target` slots; sources beyond them are no longer resident. */
  function ReleaseSuffix(p: Pool, target: nat): Pool
    requires |p.expertAt| == |p.stored| == |p.lastUse| == p.capacity && target <= p.capacity
  {
    p.(capacity := target,
       slotOf := Retained(p.slotOf, target),
       expertAt := p.expertAt[..target], stored := p.stored[..target], lastUse := p.lastUse[..target])
  }

  /** Append empty, never-used slots. */
  function GrowSuffix(p: Pool, target: nat): Pool
    requires |p.expertAt| == |p.stored| == |p.lastUse| == p.capacity && p.capacity <= target
  {
    var added := target - p.capacity;
    p.(capacity := target,
       expertAt := p.expertAt + seq(added, _ => None), stored := p.stored + seq(added, _ => None),
       lastUse := p.lastUse + seq(added, _ => 0))
  }

  /** A release keeps the maps inverse and moves no surviving source. */
  lemma ReleaseKeeps(p: Pool, target: nat)
    requires Consistent(p) && target <= p.capacity
    ensures var q := ReleaseSuffix(p, target);
            && Consistent(q)
            && (forall s :: s in q.slotOf <==> s in p.slotOf && p.slotOf[s] < target)
            && (forall s :: s in q.slotOf ==> q.slotOf[s] == p.slotOf[s])
            && (Stamped(p) ==> Stamped(q)) && (CountsBounded(p) ==> CountsBounded(q)) && (TotalBounded(p) ==> TotalBounded(q))
  {
  }

  /** Growth keeps every published source where it was. */
  lemma GrowthKeeps(p: Pool, target: nat)
    requires Consistent(p) && p.capacity <= target
    ensures var q := GrowSuffix(p, target);
            && Consistent(q) && q.slotOf == p.slotOf
            && (Stamped(p) ==> Stamped(q)) && (CountsBounded(p) ==> CountsBounded(q)) && (TotalBounded(p) ==> TotalBounded(q))
  {
  }

  /** Growing and then releasing to the old capacity gives back the same pool. */
  lemma GrowThenRelease(p: Pool, target: nat)
    requires Consistent(p) && p.capacity <= target
    ensures ReleaseSuffix(GrowSuffix(p, target), p.capacity) == p
  {
    var q := ReleaseSuffix(GrowSuffix(p, target), p.capacity);
    assert q.slotOf == p.slotOf && q.expertAt == p.expertAt && q.stored == p.stored && q.lastUse == p.lastUse;
  }

  // ----- seeding

  /** Insert a source after every ranked source with at least its count. */
  function InsertRanked(counts: map<nat, nat>, ranked: seq<nat>, source: nat): seq<nat>
    requires source in counts && forall i :: 0 <= i < |ranked| ==> ranked[i] in counts
  {
    if ranked == [] then [source]
    else if counts[ranked[0]] >= counts[source] then [ranked[0]] + InsertRanked(counts, ranked[1..], source)
    else [source] + ranked
  }

  /** Sources by descending count, then ascending id. */
  function Ranked(counts: map<nat, nat>, n: nat): (r: seq<nat>)
    ensures forall i :: 0 <= i < |r| ==> r[i] in counts && r[i] < n
  {
    if n == 0 then [] else
    var r := Ranked(counts, n - 1);
    if n - 1 in counts then InsertKeepsKeys(counts, r, n - 1); InsertRanked(counts, r, n - 1) else r
  }

  lemma {:induction false} InsertKeepsKeys(counts: map<nat, nat>, ranked: seq<nat>, source: nat)
    requires source in counts && forall i :: 0 <= i < |ranked| ==> ranked[i] in counts
    ensures var r := InsertRanked(counts, ranked, source);
            && |r| == |ranked| + 1
            && (forall i :: 0 <= i < |r| ==> r[i] == source || r[i] in ranked)
            && (forall x :: x == source || x in ranked ==> x in r)
  {
    if ranked != [] && counts[ranked[0]] >= counts[source] {
      InsertKeepsKeys(counts, ranked[1..], source);
      var r := InsertRanked(counts, ranked, source);
      assert r[0] == ranked[0] && r[1..] == InsertRanked(counts, ranked[1..], source);
    }
  }

  ghost predicate RankOrdered(counts: map<nat, nat>, r: seq<nat>) {
    && (forall i :: 0 <= i < |r| ==> r[i] in counts)
    && (forall i, j :: 0 <= i < j < |r| ==> counts[r[i]] > counts[r[j]] || (counts[r[i]] == counts[r[j]] && r[i] < r[j]))
  }

  lemma {:induction false} InsertOrders(counts: map<nat, nat>, ranked: seq<nat>, source: nat)
    requires RankOrdered(counts, ranked) && source in counts && forall i :: 0 <= i < |ranked| ==> ranked[i] < source
    ensures RankOrdered(counts, InsertRanked(counts, ranked, source))
  {
    InsertKeepsKeys(counts, ranked, source);
    if ranked != [] && counts[ranked[0]] >= counts[source] {
      InsertOrders(counts, ranked[1..], source);
      InsertKeepsKeys(counts, ranked[1..], source);
      var tail := InsertRanked(counts, ranked[1..], source);
      assert forall j :: 0 <= j < |tail| ==> tail[j] == source || tail[j] in ranked[1..];
    }
  }

  /** The ranking is by count, most used first, lower ids first on ties. */
  lemma {:induction false} RankingIsSorted(counts: map<nat, nat>, n: nat)
    ensures RankOrdered(counts, Ranked(counts, n))
  {
    if n > 0 {
      RankingIsSorted(counts, n - 1);
      if n - 1 in counts {
        InsertOrders(counts, Ranked(counts, n - 1), n - 1);
      }
    }
  }

  /** The ranking leaves no counted source out. */
  lemma {:induction false} RankingIsComplete(counts: map<nat, nat>, n: nat, x: nat)
    requires x < n && x in counts
    ensures x in Ranked(counts, n)
  {
    if n - 1 in counts {
      InsertKeepsKeys(counts, Ranked(counts, n - 1), n - 1);
    }
    if x < n - 1 {
      RankingIsComplete(counts, n - 1, x);
    }
  }

  function RoundRatio(num: nat, den: nat): nat
    requires den > 0
  {
    var q, r := num / den, num % den;
    if 2 * r < den then q else if 2 * r > den then q + 1 else if q % 2 == 0 then q else q + 1
  }

  function TopCount(frequency: map<nat, nat>, n: nat): (top: nat)
    ensures forall s :: s in frequency && s < n ==> frequency[s] <= top
  {
    if n == 0 then 0 else
    var top := TopCount(frequency, n - 1);
    if n - 1 in frequency && frequency[n - 1] > top then frequency[n - 1] else top
  }

  /** Rescale prior counts so that the largest becomes 8 and none becomes 0. */
  function Rescaled(frequency: map<nat, nat>, top: nat): map<nat, nat> {
    if top <= HOT_CEILING then frequency
    else map s | s in frequency :: var c := RoundRatio(frequency[s] * HOT_CEILING, top); if c < 1 then 1 else c
  }

  predicate ValidSeed(p: Pool, sources: set<nat>) {
    p.slotOf == map[] && |sources| <= p.capacity && forall s :: s in sources ==> s < p.experts
  }

  predicate ValidHotlist(p: Pool, counts: map<nat, nat>) {
    p.slotOf == map[] && p.frequency == map[] && forall s :: s in counts ==> s < p.experts
  }

  function HotSources(p: Pool, counts: map<nat, nat>): seq<nat> {
    var ranked := Ranked(counts, p.experts);
    if |ranked| <= p.capacity then ranked else ranked[..p.capacity]
  }

  function SeedHotlist(p: Pool, counts: map<nat, nat>, loads: nat -> Load): Served
    requires Consistent(p)
  {
    var hot := HotSources(p, counts);
    var primed := p.(frequency := counts);
    assert Consistent(primed);
    var r := Demand(primed, hot, Members(hot), loads);
    if r.error.Some? then r
    else r.(pool := r.pool.(frequency := Rescaled(r.pool.frequency, TopCount(r.pool.frequency, p.experts))))
  }

  lemma ProductsOrdered(den: nat, q: nat)
    requires q > HOT_CEILING
    ensures den * q >= den * HOT_CEILING + den
  {
    assert den * q == den * HOT_CEILING + den + den * (q - HOT_CEILING - 1);
  }

  lemma RatioBounded(num: nat, den: nat)
    requires den > 0 && num <= HOT_CEILING * den
    ensures RoundRatio(num, den) <= HOT_CEILING
  {
    var q, r := num / den, num % den;
    assert num == den * q + r;
    if q > HOT_CEILING {
      ProductsOrdered(den, q);
    }
  }

  lemma RescaledBounded(frequency: map<nat, nat>, top: nat, s: nat)
    requires s in frequency && frequency[s] <= top
    ensures Rescaled(frequency, top)[s] <= HOT_CEILING
  {
    if top > HOT_CEILING {
      RatioBounded(frequency[s] * HOT_CEILING, top);
    }
  }

  lemma {:induction false} DemandCountsKnown(p: Pool, sources: seq<nat>, protected: set<nat>, loads: nat -> Load)
    requires Consistent(p) && (forall s :: s in p.frequency ==> s < p.experts)
    requires forall i :: 0 <= i < |sources| ==> sources[i] < p.experts
    ensures forall s :: s in Demand(p, sources, protected, loads).pool.frequency ==> s < p.experts
  {
    if sources != [] {
      var init, last := sources[..|sources| - 1], sources[|sources| - 1];
      DemandCountsKnown(p, init, protected, loads);
      ServeCountsKnown(Demand(p, init, protected, loads).pool, last, protected, loads(last));
    }
  }

  lemma ServeCountsKnown(p: Pool, source: nat, protected: set<nat>, load: Load)
    requires Consistent(p) && source < p.experts && forall s :: s in p.frequency ==> s < p.experts
    ensures forall s :: s in Serve(p, source, protected, load).0.frequency ==> s < p.experts
  {
  }

  lemma {:induction false} DemandClock(p: Pool, sources: seq<nat>, protected: set<nat>, loads: nat -> Load)
    requires Consistent(p)
    ensures p.clock <= Demand(p, sources, protected, loads).pool.clock
  {
    if sources != [] {
      var init, last := sources[..|sources| - 1], sources[|sources| - 1];
      DemandClock(p, init, protected, loads);
      ServeMoreClock(Demand(p, init, protected, loads), last, protected, loads(last));
    }
  }

  lemma ServeMoreClock(d: Served, source: nat, protected: set<nat>, load: Load)
    requires Consistent(d.pool)
    ensures d.pool.clock <= ServeMore(d, source, protected, load).pool.clock
  {
  }

  lemma {:induction false} DemandStamped(p: Pool, sources: seq<nat>, protected: set<nat>, loads: nat -> Load)
    requires Consistent(p) && Stamped(p)
    requires Demand(p, sources, protected, loads).error.None?
    ensures Stamped(Demand(p, sources, protected, loads).pool)
  {
    if sources != [] {
      var init, last := sources[..|sources| - 1], sources[|sources| - 1];
      DemandStamped(p, init, protected, loads);
      ServeStamped(Demand(p, init, protected, loads).pool, last, protected, loads(last));
    }
  }

  /** However large the prior counts, a hotlist that loads leaves a consistent pool whose counts
      obey the runtime bound. */
  lemma HotlistBounded(p: Pool, counts: map<nat, nat>, loads: nat -> Load)
    requires Consistent(p) && ValidHotlist(p, counts)
    requires SeedHotlist(p, counts, loads).error.None?
    ensures var q := SeedHotlist(p, counts, loads).pool;
            Consistent(q) && CountsBounded(q) && p.clock <= q.clock && (Stamped(p) ==> Stamped(q))
            && forall s :: s in q.frequency ==> q.frequency[s] <= HOT_CEILING
  {
    var hot := HotSources(p, counts);
    var primed := p.(frequency := counts);
    var r := Demand(primed, hot, Members(hot), loads);
    DemandCountsKnown(primed, hot, Members(hot), loads);
    DemandClock(primed, hot, Members(hot), loads);
    if Stamped(p) {
      DemandStamped(primed, hot, Members(hot), loads);
    }
    forall s | s in r.pool.frequency
      ensures Rescaled(r.pool.frequency, TopCount(r.pool.frequency, p.experts))[s] <= HOT_CEILING
    {
      RescaledBounded(r.pool.frequency, TopCount(r.pool.frequency, p.experts), s);
    }
  }

  // ----- runs

  datatype Op =
    | GroupOp(active: set<nat>, protect: set<nat>, loads: nat -> Load)
    | SeedOp(sources: set<nat>, loads: nat -> Load)
    | HotlistOp(counts: map<nat, nat>, loads: nat -> Load)
    | ReleaseOp(target: nat)
    | GrowOp(target: nat)

  /** A rejected operation changes nothing. */
  function Apply(p: Pool, op: Op): Pool
    requires Consistent(p)
  {
    match op
    case GroupOp(active, protect, loads) => if ValidGroup(p, active, protect) then Group(p, active, protect, loads).pool else p
    case SeedOp(sources, loads) => if ValidSeed(p, sources) then Demand(p, Ascending(sources, p.experts), sources, loads).pool else p
    case HotlistOp(counts, loads) => if ValidHotlist(p, counts) then SeedHotlist(p, counts, loads).pool else p
    case ReleaseOp(target) => if TOP_K <= target < p.capacity then ReleaseSuffix(p, target) else p
    case GrowOp(target) => if p.capacity < target < 512 then GrowSuffix(p, target) else p
  }

  lemma ApplyConsistent(p: Pool, op: Op)
    requires Consistent(p)
    ensures Consistent(Apply(p, op)) && Apply(p, op).experts == p.experts
  {
    match op
    case GroupOp(active, protect, loads) =>
    case SeedOp(sources, loads) =>
    case HotlistOp(counts, loads) =>
    case ReleaseOp(target) => if target <= p.capacity { ReleaseKeeps(p, target); }
    case GrowOp(target) => if p.capacity <= target { GrowthKeeps(p, target); }
  }

  function Run(p: Pool, ops: seq<Op>): (q: Pool)
    requires Consistent(p)
    ensures Consistent(q) && q.experts == p.experts
    decreases |ops|
  {
    if ops == [] then p else
    ApplyConsistent(p, ops[0]);
    Run(Apply(p, ops[0]), ops[1..])
  }

  function NewPool(experts: nat, capacity: nat): (p: Pool)
    ensures Consistent(p) && CountsBounded(p) && TotalBounded(p) && Stamped(p)
  {
    Untouched(experts);
    Pool(experts, capacity, map[], seq(capacity, _ => None), seq(capacity, _ => None), seq(capacity, _ => 0), map[], 0)
  }

  lemma {:induction false} Untouched(n: nat)
    ensures TotalUses(map[], n) == 0
  {
    if n > 0 {
      Untouched(n - 1);
    }
  }

  lemma ApplyBounded(p: Pool, op: Op)
    requires Consistent(p) && CountsBounded(p) && TotalBounded(p) && !op.HotlistOp?
    ensures var q := Apply(p, op);
            && CountsBounded(q) && TotalBounded(q) && p.clock <= q.clock
            && (Stamped(p) && q.clock < U64_MAX ==> Stamped(q))
  {
    match op
    case GroupOp(active, protect, loads) =>
      DemandBounded(p, Ascending(active, p.experts), active + protect, loads);
      DemandTotal(p, Ascending(active, p.experts), active + protect, loads);
    case SeedOp(sources, loads) =>
      DemandBounded(p, Ascending(sources, p.experts), sources, loads);
      DemandTotal(p, Ascending(sources, p.experts), sources, loads);
    case ReleaseOp(target) => if target <= p.capacity { ReleaseKeeps(p, target); }
    case GrowOp(target) => if p.capacity <= target { GrowthKeeps(p, target); }
  }

  /** In every run without a hotlist, the maps stay inverse, every count and the sum of all counts
      stay within 128 plus the touches since the last halving, and stamps stay distinct. */
  lemma {:induction false} RunBounded(p: Pool, ops: seq<Op>)
    requires Consistent(p) && CountsBounded(p) && TotalBounded(p) && Stamped(p)
    requires forall i :: 0 <= i < |ops| ==> !ops[i].HotlistOp?
    ensures var q := Run(p, ops);
            && CountsBounded(q) && TotalBounded(q) && p.clock <= q.clock
            && (q.clock < U64_MAX ==> Stamped(q))
    decreases |ops|
  {
    if ops != [] {
      ApplyConsistent(p, ops[0]);
      ApplyBounded(p, ops[0]);
      var q := Apply(p, ops[0]);
      if Stamped(q) {
        RunBounded(q, ops[1..]);
      } else {
        RunClockFull(q, ops[1..]);
      }
    }
  }

  lemma {:induction false} RunClockFull(p: Pool, ops: seq<Op>)
    requires Consistent(p) && CountsBounded(p) && TotalBounded(p) && p.clock >= U64_MAX
    requires forall i :: 0 <= i < |ops| ==> !ops[i].HotlistOp?
    ensures var q := Run(p, ops);
            CountsBounded(q) && TotalBounded(q) && q.clock >= p.clock
    decreases |ops|
  {
    if ops != [] {
      ApplyConsistent(p, ops[0]);
      ApplyBounded(p, ops[0]);
      RunClockFull(Apply(p, ops[0]), ops[1..]);
    }
  }
}
