/** Pools seeded from a hotlist: what holds of every run once it has loaded, and what a hotlist that
    fails part-way leaves behind. */
module ExpertHotlist {
  import opened Wrappers
  import opened ExpertPool
  import opened ExpertDemand
  import opened ExpertDecay
  import opened ExpertOps

  // ----- hotlists that load

  /** Every hotlist the run installs loads completely. */
  ghost predicate HotlistsLoad(p: Pool, ops: seq<Op>)
    requires Consistent(p)
    decreases |ops|
  {
    ops == [] ||
    (ApplyConsistent(p, ops[0]);
     && (ops[0].HotlistOp? && ValidHotlist(p, ops[0].counts) ==> SeedHotlist(p, ops[0].counts, ops[0].loads).error.None?)
     && HotlistsLoad(Apply(p, ops[0]), ops[1..]))
  }

  lemma ApplySeeded(p: Pool, op: Op)
    requires Consistent(p) && CountsBounded(p)
    requires op.HotlistOp? && ValidHotlist(p, op.counts) ==> SeedHotlist(p, op.counts, op.loads).error.None?
    ensures var q := Apply(p, op);
            CountsBounded(q) && p.clock <= q.clock && (Stamped(p) && q.clock < U64_MAX ==> Stamped(q))
  {
    match op
    case GroupOp(active, protect, loads) => DemandBounded(p, Ascending(active, p.experts), active + protect, loads);
    case SeedOp(sources, loads) => DemandBounded(p, Ascending(sources, p.experts), sources, loads);
    case HotlistOp(counts, loads) => if ValidHotlist(p, counts) { HotlistBounded(p, counts, loads); }
    case ReleaseOp(target) => if target <= p.capacity { ReleaseKeeps(p, target); }
    case GrowOp(target) => if p.capacity <= target { GrowthKeeps(p, target); }
  }

  /** From any bounded pool, in every run whose hotlists load, counts stay bounded, and stamps stay
      distinct until the 64-bit clock runs out. */
  lemma {:induction false} RunSeeded(p: Pool, ops: seq<Op>)
    requires Consistent(p) && CountsBounded(p) && HotlistsLoad(p, ops)
    ensures var q := Run(p, ops);
            CountsBounded(q) && p.clock <= q.clock && (Stamped(p) && q.clock < U64_MAX ==> Stamped(q))
    decreases |ops|
  {
    if ops != [] {
      ApplyConsistent(p, ops[0]);
      ApplySeeded(p, ops[0]);
      RunSeeded(Apply(p, ops[0]), ops[1..]);
    }
  }

  /** Whichever way a new pool is seeded and whatever follows, as long as its hotlists load: counts
      stay bounded, no two slots share a stamp, and the eviction victim is unique. */
  lemma SeededRunBounded(experts: nat, capacity: nat, ops: seq<Op>, protected: set<nat>, other: nat)
    requires HotlistsLoad(NewPool(experts, capacity), ops)
    requires Run(NewPool(experts, capacity), ops).clock < U64_MAX
    ensures var q := Run(NewPool(experts, capacity), ops);
            && CountsBounded(q) && Stamped(q)
            && (Evictable(q, protected, other) ==>
                  var v := LeastFrequentSlot(q, protected, |q.expertAt|);
                  v.Some? && (v.value == other || Before(q, v.value, other)))
  {
    RunSeeded(NewPool(experts, capacity), ops);
    var q := Run(NewPool(experts, capacity), ops);
    if Evictable(q, protected, other) {
      VictimIsUnique(q, protected, other);
    }
  }

  // ----- counts part-way through a hotlist

  function Halvings(c: nat, h: nat): nat {
    if h == 0 then c else Halvings(c, h - 1) / 2
  }

  /** A count after n touches from a new clock, when its own source is the i-th touched, or none of
      them if i is not below n: halved at every 128th touch. */
  function Settled(c: nat, i: nat, n: nat): nat {
    if i < n then Halvings(Halvings(c, i / DECAY_PERIOD) + 1, n / DECAY_PERIOD - i / DECAY_PERIOD)
    else Halvings(c, n / DECAY_PERIOD)
  }

  function Position(hot: seq<nat>, s: nat): (i: nat)
    ensures i <= |hot| && (i < |hot| ==> hot[i] == s) && (s in hot ==> i < |hot|)
  {
    if hot == [] || hot[0] == s then 0 else 1 + Position(hot[1..], s)
  }

  /** The next touch halves every count exactly when it completes a period. */
  lemma NextPeriod(n: nat)
    ensures (n + 1) / DECAY_PERIOD == n / DECAY_PERIOD + (if (n + 1) % DECAY_PERIOD == 0 then 1 else 0)
  {
  }

  lemma SettledNext(c: nat, i: nat, n: nat)
    ensures var touched := if i == n then Settled(c, i, n) + 1 else Settled(c, i, n);
            Settled(c, i, n + 1) == if (n + 1) % DECAY_PERIOD == 0 then touched / 2 else touched
  {
    NextPeriod(n);
    var now, next := n / DECAY_PERIOD, (n + 1) / DECAY_PERIOD;
    if i < n {
      PeriodsOrdered(i, n);
      HalvedAgain(Halvings(c, i / DECAY_PERIOD) + 1, now - i / DECAY_PERIOD, next - i / DECAY_PERIOD);
    } else if i == n {
      HalvedAgain(Halvings(c, now) + 1, 0, next - now);
    } else {
      HalvedAgain(c, now, next);
    }
  }

  lemma HalvedAgain(c: nat, h: nat, k: nat)
    requires h <= k <= h + 1
    ensures Halvings(c, k) == if k == h + 1 then Halvings(c, h) / 2 else Halvings(c, h)
  {
  }

  lemma PeriodsOrdered(i: nat, n: nat)
    requires i <= n
    ensures i / DECAY_PERIOD <= n / DECAY_PERIOD
  {
  }

  /** Counts as they stand once the first n of the hot sources have been touched. */
  ghost predicate CountsAfter(p: Pool, counts: map<nat, nat>, hot: seq<nat>, n: nat) {
    && p.clock == n && p.frequency.Keys == counts.Keys
    && forall s :: s in counts ==> p.frequency[s] == Settled(counts[s], Position(hot, s), n)
  }

  lemma TouchedNext(p: Pool, counts: map<nat, nat>, hot: seq<nat>, n: nat, slot: nat)
    requires CountsAfter(p, counts, hot, n) && n < |hot| && hot[n] in counts && slot < |p.lastUse|
    requires Distinct(hot) && Touch(p, hot[n], slot).1.None?
    ensures CountsAfter(Touch(p, hot[n], slot).0, counts, hot, n + 1)
  {
    var q := Touch(p, hot[n], slot).0;
    assert Position(hot, hot[n]) == n;
    forall s | s in counts ensures q.frequency[s] == Settled(counts[s], Position(hot, s), n + 1) {
      SettledNext(counts[s], Position(hot, s), n);
      if Position(hot, s) == n { assert s == hot[n]; }
    }
  }

  lemma ServedNext(p: Pool, counts: map<nat, nat>, hot: seq<nat>, n: nat, protected: set<nat>, load: Load)
    requires Consistent(p) && CountsAfter(p, counts, hot, n) && n < |hot| && hot[n] in counts && Distinct(hot)
    requires n < U64_MAX
    ensures var (q, error) := Serve(p, hot[n], protected, load);
            && (error.None? ==> CountsAfter(q, counts, hot, n + 1))
            && (error.Some? && error != Some(FrequencyOverflow) ==> q.clock == n && q.frequency == p.frequency)
            && (error == Some(FrequencyOverflow) ==> q.clock == n + 1 && q.frequency == p.frequency && p.frequency[hot[n]] >= U64_MAX)
  {
    if hot[n] in p.slotOf {
      if Touch(p, hot[n], p.slotOf[hot[n]]).1.None? { TouchedNext(p, counts, hot, n, p.slotOf[hot[n]]); }
    } else if load.Loaded? && ChooseSlot(p, protected).Some? {
      var slot := ChooseSlot(p, protected).value;
      PublishConsistent(p, hot[n], slot, true);
      var q := Publish(p, hot[n], slot, true);
      if Touch(q, hot[n], slot).1.None? { TouchedNext(q, counts, hot, n, slot); }
    }
  }

  lemma {:induction false} ServedCounts(p: Pool, counts: map<nat, nat>, hot: seq<nat>, n: nat, loads: nat -> Load)
    requires Consistent(p) && CountsAfter(p, counts, hot, 0) && n <= |hot| < U64_MAX && Distinct(hot)
    requires forall i :: 0 <= i < |hot| ==> hot[i] in counts
    requires Demand(p, hot[..n], Members(hot), loads).error.None?
    ensures CountsAfter(Demand(p, hot[..n], Members(hot), loads).pool, counts, hot, n)
  {
    if n > 0 {
      DemandNext(p, hot, Members(hot), loads, n - 1);
      var d := Demand(p, hot[..n - 1], Members(hot), loads);
      assert d.error.None?;
      ServedCounts(p, counts, hot, n - 1, loads);
      ServedNext(d.pool, counts, hot, n - 1, Members(hot), loads(hot[n - 1]));
    }
  }

  // ----- hotlists that fail

  function Hot(experts: nat, capacity: nat, counts: map<nat, nat>): seq<nat> {
    HotSources(NewPool(experts, capacity), counts)
  }

  /** How many hot rows a seeding serves before it fails. */
  function ServedRows(experts: nat, capacity: nat, counts: map<nat, nat>, loads: nat -> Load): nat {
    var hot := Hot(experts, capacity, counts);
    ServedCount(NewPool(experts, capacity).(frequency := counts), hot, Members(hot), loads)
  }

  lemma HotIsDistinct(experts: nat, capacity: nat, counts: map<nat, nat>)
    ensures var hot := Hot(experts, capacity, counts);
            Distinct(hot) && |hot| <= capacity && forall i :: 0 <= i < |hot| ==> hot[i] in counts
  {
    RankingIsSorted(counts, experts);
  }

  lemma PrimedCounts(experts: nat, capacity: nat, counts: map<nat, nat>)
    ensures CountsAfter(NewPool(experts, capacity).(frequency := counts), counts, Hot(experts, capacity, counts), 0)
  {
  }

  /** What is left when the row after the first n fails, for whatever reason. */
  ghost predicate StoppedAt(r: Served, counts: map<nat, nat>, hot: seq<nat>, n: nat) {
    && n < |hot| && r.pool.frequency.Keys == counts.Keys
    && (forall s :: s in counts ==> r.pool.frequency[s] == Settled(counts[s], Position(hot, s), n))
    && (if r.error == Some(FrequencyOverflow) then r.pool.clock == n + 1 && hot[n] in counts && r.pool.frequency[hot[n]] >= U64_MAX
        else r.pool.clock == n)
  }

  lemma FailedNext(d: Served, counts: map<nat, nat>, hot: seq<nat>, n: nat, protected: set<nat>, load: Load)
    requires Consistent(d.pool) && d.error.None? && CountsAfter(d.pool, counts, hot, n) && n < |hot| < U64_MAX && Distinct(hot)
    requires hot[n] in counts && ServeMore(d, hot[n], protected, load).error.Some?
    ensures StoppedAt(ServeMore(d, hot[n], protected, load), counts, hot, n)
  {
    ServedNext(d.pool, counts, hot, n, protected, load);
  }

  lemma FailedDemandCounts(p: Pool, counts: map<nat, nat>, hot: seq<nat>, loads: nat -> Load)
    requires Consistent(p) && CountsAfter(p, counts, hot, 0) && |hot| < U64_MAX && Distinct(hot)
    requires forall i :: 0 <= i < |hot| ==> hot[i] in counts
    requires Demand(p, hot, Members(hot), loads).error.Some?
    ensures StoppedAt(Demand(p, hot, Members(hot), loads), counts, hot, ServedCount(p, hot, Members(hot), loads))
  {
    var n := ServedCount(p, hot, Members(hot), loads);
    var d := StopsWith(p, hot, Members(hot), loads, n);
    ServedCounts(p, counts, hot, n, loads);
    FailedNext(d, counts, hot, n, Members(hot), loads(hot[n]));
  }

  /** A failing demand is its served prefix extended by the row that fails. */
  lemma StopsWith(p: Pool, sources: seq<nat>, protected: set<nat>, loads: nat -> Load, n: nat) returns (d: Served)
    requires Consistent(p) && Demand(p, sources, protected, loads).error.Some? && n == ServedCount(p, sources, protected, loads)
    ensures n < |sources| && d == Demand(p, sources[..n], protected, loads) && d.error.None?
    ensures Demand(p, sources, protected, loads) == ServeMore(d, sources[n], protected, loads(sources[n]))
  {
    ServedCountStops(p, sources, protected, loads);
    DemandNext(p, sources, protected, loads, n);
    d := Demand(p, sources[..n], protected, loads);
  }

  /** A failed seeding leaves the counts of the rows served so far, whatever stopped it. */
  lemma FailedCounts(experts: nat, capacity: nat, counts: map<nat, nat>, loads: nat -> Load)
    requires capacity < U64_MAX && SeedHotlist(NewPool(experts, capacity), counts, loads).error.Some?
    ensures StoppedAt(SeedHotlist(NewPool(experts, capacity), counts, loads), counts, Hot(experts, capacity, counts),
                      ServedRows(experts, capacity, counts, loads))
  {
    HotIsDistinct(experts, capacity, counts);
    PrimedCounts(experts, capacity, counts);
    FailedDemandCounts(NewPool(experts, capacity).(frequency := counts), counts, Hot(experts, capacity, counts), loads);
  }

  /** After a failed seeding the runtime bound holds exactly when every prior count, with the touches
      and halvings of the rows served, already obeys it. */
  lemma FailedHotlistBound(experts: nat, capacity: nat, counts: map<nat, nat>, loads: nat -> Load)
    requires capacity < U64_MAX && SeedHotlist(NewPool(experts, capacity), counts, loads).error.Some?
    ensures var n, hot := ServedRows(experts, capacity, counts, loads), Hot(experts, capacity, counts);
            CountsBounded(SeedHotlist(NewPool(experts, capacity), counts, loads).pool) <==>
              forall s :: s in counts ==> Settled(counts[s], Position(hot, s), n) <= DECAY_PERIOD + n % DECAY_PERIOD
  {
    FailedCounts(experts, capacity, counts, loads);
    var r, n, hot := SeedHotlist(NewPool(experts, capacity), counts, loads), ServedRows(experts, capacity, counts, loads), Hot(experts, capacity, counts);
    if r.error == Some(FrequencyOverflow) {
      HotIsDistinct(experts, capacity, counts);
      assert hot[n] in counts && Settled(counts[hot[n]], Position(hot, hot[n]), n) >= U64_MAX;
    }
  }

  /** Before the first halving: each prior count, plus one if its row was served, is at most 128 plus
      the rows served. */
  lemma FailedHotlistBoundEarly(experts: nat, capacity: nat, counts: map<nat, nat>, loads: nat -> Load)
    requires capacity < U64_MAX && SeedHotlist(NewPool(experts, capacity), counts, loads).error.Some?
    requires ServedRows(experts, capacity, counts, loads) < DECAY_PERIOD
    ensures var n, hot := ServedRows(experts, capacity, counts, loads), Hot(experts, capacity, counts);
            n < |hot| &&
            (CountsBounded(SeedHotlist(NewPool(experts, capacity), counts, loads).pool) <==>
              forall s :: s in counts ==> counts[s] + (if s in hot[..n] then 1 else 0) <= DECAY_PERIOD + n)
  {
    FailedHotlistBound(experts, capacity, counts, loads);
    FailedCounts(experts, capacity, counts, loads);
    HotIsDistinct(experts, capacity, counts);
    var n, hot := ServedRows(experts, capacity, counts, loads), Hot(experts, capacity, counts);
    forall s | s in counts ensures Settled(counts[s], Position(hot, s), n) == counts[s] + (if s in hot[..n] then 1 else 0) {
      EarlyCount(hot, n, s, counts[s]);
    }
  }

  lemma EarlyCount(hot: seq<nat>, n: nat, s: nat, c: nat)
    requires Distinct(hot) && n < |hot| && n < DECAY_PERIOD
    ensures Settled(c, Position(hot, s), n) == c + (if s in hot[..n] then 1 else 0)
  {
    var i := Position(hot, s);
    if i < n {
      assert hot[..n][i] == s;
    }
    if s in hot[..n] {
      var k :| 0 <= k < n && hot[..n][k] == s;
      assert hot[k] == hot[i] == s;
      assert i == k;
    }
  }

  /** For instance a pool of ten slots with one prior count of 129 and no readable row is left over
      the bound. */
  lemma FailedHotlistCanExceed()
    ensures var counts := map[0 := 129];
            var r := SeedHotlist(NewPool(10, 10), counts, _ => Unavailable);
            r.error.Some? && !CountsBounded(r.pool)
  {
    var counts: map<nat, nat>, loads: nat -> Load := map[0 := 129], _ => Unavailable;
    RankingIsComplete(counts, 10, 0);
    var hot := Hot(10, 10, counts);
    assert hot != [];
    var p := NewPool(10, 10).(frequency := counts);
    FirstRowMissing(p, hot, Members(hot), loads);
  }

  lemma {:induction false} FirstRowMissing(p: Pool, sources: seq<nat>, protected: set<nat>, loads: nat -> Load)
    requires Consistent(p) && p.slotOf == map[] && sources != [] && loads(sources[0]).Unavailable?
    ensures var r := Demand(p, sources, protected, loads); r.pool == p && r.error.Some?
  {
    var init := sources[..|sources| - 1];
    if init != [] {
      FirstRowMissing(p, init, protected, loads);
    }
  }

  // ----- which rows are preloaded, and what their counts become

  /** One source ranks above another: it has more prior uses, or as many and the lower id. */
  predicate Outranks(counts: map<nat, nat>, a: nat, b: nat)
    requires a in counts && b in counts
  {
    counts[a] > counts[b] || (counts[a] == counts[b] && a < b)
  }

  /** A hotlist preloads as many sources as it counts, or as the pool holds, and every one of them
      outranks every one it leaves out. */
  lemma HotAreHighest(p: Pool, counts: map<nat, nat>)
    requires forall s :: s in counts ==> s < p.experts
    ensures var hot := HotSources(p, counts);
            && |hot| == (if |counts| < p.capacity then |counts| else p.capacity)
            && Distinct(hot) && (forall s :: s in hot ==> s in counts)
            && forall a, b :: a in hot && b in counts && b !in hot ==> Outranks(counts, a, b)
  {
    var ranked, hot := Ranked(counts, p.experts), HotSources(p, counts);
    RankingIsSorted(counts, p.experts);
    RankedSize(p, counts);
    forall a, b | a in hot && b in counts && b !in hot ensures Outranks(counts, a, b) {
      RankingIsComplete(counts, p.experts, b);
      var i :| 0 <= i < |hot| && hot[i] == a;
      var j :| 0 <= j < |ranked| && ranked[j] == b;
      assert ranked[i] == a;
      NotInPrefix(ranked, |hot|, b);
    }
  }

  lemma NotInPrefix(ranked: seq<nat>, k: nat, b: nat)
    requires k <= |ranked| && b !in ranked[..k]
    ensures forall j :: 0 <= j < k ==> ranked[j] != b
  {
    forall j | 0 <= j < k ensures ranked[j] != b {
      assert ranked[..k][j] == ranked[j];
    }
  }

  lemma RankedSize(p: Pool, counts: map<nat, nat>)
    requires forall s :: s in counts ==> s < p.experts
    ensures |Ranked(counts, p.experts)| == |counts| && Distinct(Ranked(counts, p.experts))
  {
    var ranked := Ranked(counts, p.experts);
    RankingIsSorted(counts, p.experts);
    DistinctSize(ranked);
    forall s ensures s in Members(ranked) <==> s in counts.Keys {
      if s in counts {
        RankingIsComplete(counts, p.experts, s);
      }
    }
    assert Members(ranked) == counts.Keys;
  }

  /** Rounding is to the nearest whole number, and half way to the even one. */
  lemma RoundIsNear(num: nat, den: nat)
    requires den > 0
    ensures 2 * num - den <= 2 * (den * RoundRatio(num, den)) <= 2 * num + den
    ensures 2 * (den * RoundRatio(num, den)) in {2 * num - den, 2 * num + den} ==> RoundRatio(num, den) % 2 == 0
  {
    var q, r := num / den, num % den;
    assert num == den * q + r;
    assert den * (q + 1) == den * q + den;
  }

  lemma RoundInOrder(a: nat, b: nat, den: nat)
    requires den > 0 && a <= b
    ensures RoundRatio(a, den) <= RoundRatio(b, den)
  {
    RoundIsNear(a, den);
    RoundIsNear(b, den);
    var x, y := RoundRatio(a, den), RoundRatio(b, den);
    MultiplesInOrder(den, y + 1, x);
    if a < b {
      NearInOrder(den, a, b, x, y, den * x, den * y, den * (y + 1));
    }
  }

  lemma NearInOrder(den: nat, a: nat, b: nat, x: nat, y: nat, dx: nat, dy: nat, above: nat)
    requires den > 0 && a < b && 2 * dx <= 2 * a + den && 2 * b - den <= 2 * dy
    requires dx == den * x && dy == den * y && above == den * (y + 1) && (y + 1 <= x ==> above <= dx)
    ensures x <= y
  {
    assert above == dy + den;
  }

  lemma {:induction false} MultiplesInOrder(den: nat, x: nat, y: nat)
    ensures x <= y ==> den * x <= den * y
  {
    if x < y {
      assert den * y == den * (y - 1) + den;
      MultiplesInOrder(den, x, y - 1);
    }
  }

  /** Rescaling brings the largest count to eight, keeps the order of the counts, and rounds each to
      the nearest whole share, but never to zero. */
  lemma RescalesInOrder(frequency: map<nat, nat>, top: nat, a: nat, b: nat)
    requires top > HOT_CEILING && a in frequency && b in frequency && frequency[a] <= frequency[b] <= top
    ensures var q := Rescaled(frequency, top);
            && q.Keys == frequency.Keys && 1 <= q[a] <= q[b] <= HOT_CEILING
            && (frequency[b] == top ==> q[b] == HOT_CEILING)
            && 2 * (top * q[a]) >= 2 * (HOT_CEILING * frequency[a]) - top
            && (q[a] > 1 ==> 2 * (top * q[a]) <= 2 * (HOT_CEILING * frequency[a]) + top)
  {
    RoundInOrder(frequency[a] * HOT_CEILING, frequency[b] * HOT_CEILING, top);
    RoundIsNear(frequency[a] * HOT_CEILING, top);
    RescaledBounded(frequency, top, b);
    if frequency[b] == top {
      ExactRatio(top);
    }
    AtLeastOne(frequency[a] * HOT_CEILING, top);
  }

  lemma ExactRatio(top: nat)
    requires top > 0
    ensures RoundRatio(top * HOT_CEILING, top) == HOT_CEILING
  {
    var r := RoundRatio(top * HOT_CEILING, top);
    RoundIsNear(top * HOT_CEILING, top);
    MultiplesInOrder(top, HOT_CEILING + 1, r);
    MultiplesInOrder(top, r, HOT_CEILING - 1);
  }

  lemma AtLeastOne(num: nat, den: nat)
    requires den > 0
    ensures RoundRatio(num, den) < 1 ==> 2 * den >= 2 * num - den
  {
    RoundIsNear(num, den);
  }

  /** The count a hotlist is scaled by is the largest there is. */
  lemma {:induction false} TopIsReached(frequency: map<nat, nat>, n: nat)
    requires TopCount(frequency, n) > 0
    ensures exists s :: s in frequency && s < n && frequency[s] == TopCount(frequency, n)
  {
    if n - 1 in frequency && frequency[n - 1] > TopCount(frequency, n - 1) {
      assert frequency[n - 1] == TopCount(frequency, n);
    } else {
      TopIsReached(frequency, n - 1);
    }
  }

  // ----- seedings that succeed

  /** A new pool is seeded with any sources it can hold, if their rows load: all become resident. */
  lemma SeedingFills(experts: nat, capacity: nat, sources: set<nat>, loads: nat -> Load)
    requires |sources| <= capacity && |sources| <= U64_MAX && forall s :: s in sources ==> s < experts && loads(s).Loaded?
    ensures var p := NewPool(experts, capacity);
            && ValidSeed(p, sources) && Demand(p, Ascending(sources, experts), sources, loads).error.None?
            && sources <= Apply(p, SeedOp(sources, loads)).slotOf.Keys
  {
    var p, order := NewPool(experts, capacity), Ascending(sources, experts);
    AscendingSize(sources, experts);
    DemandSucceedsIff(p, order, sources, loads);
    DemandKeeps(p, order, sources, loads);
    AllResident(order, sources, Demand(p, order, sources, loads).pool.slotOf);
  }

  /** A hotlist loads into a new pool, every preloaded row resident, if its rows load and no prior count
      is at the end of its 64 bits. */
  lemma HotlistFills(experts: nat, capacity: nat, counts: map<nat, nat>, loads: nat -> Load)
    requires capacity < U64_MAX && forall s :: s in counts ==> s < experts && counts[s] < U64_MAX
    requires forall s :: s in Hot(experts, capacity, counts) ==> loads(s).Loaded?
    ensures var p, r := NewPool(experts, capacity), SeedHotlist(NewPool(experts, capacity), counts, loads);
            && ValidHotlist(p, counts) && r.error.None?
            && forall s :: s in Hot(experts, capacity, counts) ==> s in r.pool.slotOf
  {
    var hot, primed := Hot(experts, capacity, counts), NewPool(experts, capacity).(frequency := counts);
    HotIsDistinct(experts, capacity, counts);
    PrimedCounts(experts, capacity, counts);
    DistinctSize(hot);
    NeverStops(primed, counts, hot, loads);
    DemandKeeps(primed, hot, Members(hot), loads);
  }

  lemma NeverStops(p: Pool, counts: map<nat, nat>, hot: seq<nat>, loads: nat -> Load)
    requires Fits(p, Members(hot)) && CountsAfter(p, counts, hot, 0) && |hot| < U64_MAX && Distinct(hot)
    requires forall i :: 0 <= i < |hot| ==> hot[i] in counts && counts[hot[i]] < U64_MAX && loads(hot[i]).Loaded?
    ensures Demand(p, hot, Members(hot), loads).error.None?
  {
    if Demand(p, hot, Members(hot), loads).error.Some? {
      var n := ServedCount(p, hot, Members(hot), loads);
      var d := StopsWith(p, hot, Members(hot), loads, n);
      ServedCounts(p, counts, hot, n, loads);
      DemandKeeps(p, hot[..n], Members(hot), loads);
      NotYetTouched(hot, n, counts[hot[n]]);
      LoadedServes(d.pool, hot[n], Members(hot), loads(hot[n]));
      assert false;
    }
  }

  lemma LoadedServes(p: Pool, source: nat, protected: set<nat>, load: Load)
    requires Fits(p, protected) && source in protected && load.Loaded? && p.clock < U64_MAX && Uses(p, source) < U64_MAX
    ensures Serve(p, source, protected, load).1.None?
  {
    FailedServe(p, source, protected, load);
  }

  lemma NotYetTouched(hot: seq<nat>, n: nat, c: nat)
    requires Distinct(hot) && n < |hot|
    ensures Position(hot, hot[n]) == n && Settled(c, n, n) <= c
  {
    HalvingsShrink(c, n / DECAY_PERIOD);
  }

  lemma {:induction false} HalvingsShrink(c: nat, h: nat)
    ensures Halvings(c, h) <= c
  {
    if h > 0 {
      HalvingsShrink(c, h - 1);
    }
  }
}
