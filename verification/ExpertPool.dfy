/** The slot policy of one bounded expert pool, as values: two inverse maps between source ids
    and physical slots, decaying frequencies, recency, and what each slot's buffers hold. */
module ExpertPool {
  import opened Wrappers

  const U64_MAX: nat := 0xFFFF_FFFF_FFFF_FFFF
  const DECAY_PERIOD: nat := 128

  datatype Pool = Pool(
    experts: nat,                    // how many sources the package has
    capacity: nat,
    slotOf: map<nat, nat>,
    expertAt: seq<Option<nat>>,
    stored: seq<Option<nat>>,        // whose complete row a slot's three projection buffers hold
    lastUse: seq<nat>,
    frequency: map<nat, nat>,
    clock: nat)

  datatype PoolError =
    | RowUnavailable
    | NoEvictableSlot
    | SlotWriteFailed
    | RecencyOverflow
    | FrequencyOverflow

  /** How the fallible steps of one load turn out: nothing published, a projection write that
      failed after the victim was dropped, or a complete row. */
  datatype Load = Unavailable | WriteFails | Loaded

  // ----- consistency

  /** The published map and the physical map are inverse, and a published slot holds its row. */
  ghost predicate Consistent(p: Pool) {
    && |p.expertAt| == |p.stored| == |p.lastUse| == p.capacity
    && (forall s :: s in p.slotOf ==> p.slotOf[s] < p.capacity && p.expertAt[p.slotOf[s]] == Some(s))
    && (forall i :: 0 <= i < p.capacity && p.expertAt[i].Some? ==>
          p.expertAt[i].value in p.slotOf && p.slotOf[p.expertAt[i].value] == i && p.stored[i] == p.expertAt[i])
  }

  // ----- choosing a slot

  function Uses(p: Pool, source: nat): nat {
    if source in p.frequency then p.frequency[source] else 0
  }

  predicate Evictable(p: Pool, protected: set<nat>, slot: nat) {
    slot < |p.expertAt| && p.expertAt[slot].Some? && p.expertAt[slot].value !in protected
  }

  /** Eviction order: fewer uses first, then older use. */
  predicate Before(p: Pool, a: nat, b: nat)
    requires a < |p.expertAt| == |p.lastUse| && p.expertAt[a].Some?
    requires b < |p.expertAt| && p.expertAt[b].Some?
  {
    var fa, fb := Uses(p, p.expertAt[a].value), Uses(p, p.expertAt[b].value);
    fa < fb || (fa == fb && p.lastUse[a] < p.lastUse[b])
  }

  /** The first of the least recently used among the least frequent of the first n slots. */
  function LeastFrequentSlot(p: Pool, protected: set<nat>, n: nat): (r: Option<nat>)
    requires n <= |p.expertAt| == |p.lastUse|
    ensures r.Some? ==> r.value < n && Evictable(p, protected, r.value)
    ensures r.Some? ==> forall i: nat :: i < n && Evictable(p, protected, i) ==> !Before(p, i, r.value)
    ensures r.Some? ==> forall i: nat :: i < r.value && Evictable(p, protected, i) ==> Before(p, r.value, i)
    ensures r.None? ==> forall i: nat :: i < n ==> !Evictable(p, protected, i)
  {
    if n == 0 then None else
    var best := LeastFrequentSlot(p, protected, n - 1);
    if Evictable(p, protected, n - 1) && (best.None? || Before(p, n - 1, best.value)) then Some(n - 1) else best
  }

  function FirstEmpty(expertAt: seq<Option<nat>>, n: nat): (r: Option<nat>)
    requires n <= |expertAt|
    ensures r.Some? ==> r.value < n && expertAt[r.value].None? && forall i :: 0 <= i < r.value ==> expertAt[i].Some?
    ensures r.None? ==> forall i :: 0 <= i < n ==> expertAt[i].Some?
  {
    if n == 0 then None else
    var first := FirstEmpty(expertAt, n - 1);
    if first.Some? then first else if expertAt[n - 1].None? then Some(n - 1) else None
  }

  function ChooseSlot(p: Pool, protected: set<nat>): Option<nat>
    requires |p.expertAt| == |p.lastUse|
  {
    var empty := FirstEmpty(p.expertAt, |p.expertAt|);
    if empty.Some? then empty else LeastFrequentSlot(p, protected, |p.expertAt|)
  }

  // ----- publication and recency

  /** Drop a slot's previous source before any byte of the slot changes. */
  function Vacate(p: Pool, slot: nat): Pool
    requires slot < |p.expertAt| == |p.stored|
  {
    p.(slotOf := if p.expertAt[slot].Some? then map s | s in p.slotOf && s != p.expertAt[slot].value :: p.slotOf[s] else p.slotOf,
       expertAt := p.expertAt[slot := None],
       stored := p.stored[slot := None])
  }

  function Publish(p: Pool, source: nat, slot: nat, written: bool): Pool
    requires slot < |p.expertAt| == |p.stored|
  {
    var q := Vacate(p, slot);
    if !written then q
    else q.(slotOf := q.slotOf[source := slot], expertAt := q.expertAt[slot := Some(source)], stored := q.stored[slot := Some(source)])
  }

  function Halved(frequency: map<nat, nat>): map<nat, nat> {
    map s | s in frequency :: frequency[s] / 2
  }

  function Touch(p: Pool, source: nat, slot: nat): (r: (Pool, Option<PoolError>))
    requires slot < |p.lastUse|
  {
    if p.clock >= U64_MAX then (p, Some(RecencyOverflow)) else
    var clock := p.clock + 1;
    if Uses(p, source) >= U64_MAX then (p.(clock := clock), Some(FrequencyOverflow)) else
    var frequency := p.frequency[source := Uses(p, source) + 1];
    (p.(clock := clock, lastUse := p.lastUse[slot := clock],
        frequency := if clock % DECAY_PERIOD == 0 then Halved(frequency) else frequency), None)
  }

  // ----- serving a demand

  /** Make one source resident and touch it. */
  function Serve(p: Pool, source: nat, protected: set<nat>, load: Load): (Pool, Option<PoolError>)
    requires Consistent(p)
  {
    if source in p.slotOf then Touch(p, source, p.slotOf[source])
    else if load.Unavailable? then (p, Some(RowUnavailable))
    else
      match ChooseSlot(p, protected)
      case None => (p, Some(NoEvictableSlot))
      case Some(slot) =>
        var q := Publish(p, source, slot, load.Loaded?);
        if load.Loaded? then Touch(q, source, slot) else (q, Some(SlotWriteFailed))
  }

  /** The pool after a group so far, its first error, and what its served sources needed. */
  datatype Served = Served(pool: Pool, error: Option<PoolError>, hits: nat, misses: nat, evictions: nat)

  /** Serve one more source, unless the group has already failed. */
  function ServeMore(d: Served, source: nat, protected: set<nat>, load: Load): Served
    requires Consistent(d.pool)
  {
    if d.error.Some? then d else
    var (q, error) := Serve(d.pool, source, protected, load);
    if error.Some? then d.(pool := q, error := error)
    else if source in d.pool.slotOf then d.(pool := q, hits := d.hits + 1)
    else d.(pool := q, misses := d.misses + 1, evictions := d.evictions + if |d.pool.slotOf| == d.pool.capacity then 1 else 0)
  }

  /** Serve sources in order, stopping at the first error. */
  function Demand(p: Pool, sources: seq<nat>, protected: set<nat>, loads: nat -> Load): (r: Served)
    requires Consistent(p)
    ensures Consistent(r.pool) && r.pool.experts == p.experts && r.pool.capacity == p.capacity
  {
    if sources == [] then Served(p, None, 0, 0, 0) else
    var init, last := sources[..|sources| - 1], sources[|sources| - 1];
    var d := Demand(p, init, protected, loads);
    ServeConsistent(d.pool, last, protected, loads(last));
    ServeMore(d, last, protected, loads(last))
  }

  lemma VacateConsistent(p: Pool, slot: nat)
    requires Consistent(p) && slot < p.capacity
    ensures Consistent(Vacate(p, slot))
  {
  }

  lemma PublishConsistent(p: Pool, source: nat, slot: nat, written: bool)
    requires Consistent(p) && slot < p.capacity && source !in p.slotOf
    ensures Consistent(Publish(p, source, slot, written))
    ensures var q := Publish(p, source, slot, written);
            q.capacity == p.capacity && q.experts == p.experts && q.clock == p.clock && q.lastUse == p.lastUse && q.frequency == p.frequency
  {
    VacateConsistent(p, slot);
  }

  lemma ServeConsistent(p: Pool, source: nat, protected: set<nat>, load: Load)
    requires Consistent(p)
    ensures var q := Serve(p, source, protected, load).0;
            Consistent(q) && q.capacity == p.capacity && q.experts == p.experts
  {
    if source !in p.slotOf && !load.Unavailable? {
      var slot := ChooseSlot(p, protected);
      if slot.Some? {
        PublishConsistent(p, source, slot.value, load.Loaded?);
      }
    }
  }

  // ----- pigeonhole

  lemma SubsetSize<T>(a: set<T>, b: set<T>)
    requires a <= b
    ensures |a| <= |b|
  {
    assert b == a + (b - a);
  }

  /** The sources resident in the first n slots number at most n, and n only if none is empty. */
  lemma {:induction false} ResidentsBelow(p: Pool, n: nat) returns (residents: set<nat>)
    requires Consistent(p) && n <= p.capacity
    ensures forall s :: s in residents <==> s in p.slotOf && p.slotOf[s] < n
    ensures |residents| <= n
    ensures |residents| == n <==> forall i :: 0 <= i < n ==> p.expertAt[i].Some?
  {
    if n == 0 {
      residents := {};
    } else {
      var below := ResidentsBelow(p, n - 1);
      residents := if p.expertAt[n - 1].Some? then below + {p.expertAt[n - 1].value} else below;
    }
  }

  /** The pool is full exactly when no slot is empty. */
  lemma FullIffNoEmpty(p: Pool)
    requires Consistent(p)
    ensures |p.slotOf| <= p.capacity
    ensures |p.slotOf| == p.capacity <==> FirstEmpty(p.expertAt, p.capacity).None?
  {
    var residents := ResidentsBelow(p, p.capacity);
    assert residents == p.slotOf.Keys;
  }

  /** A missing source of a protected set that fits the pool always finds a slot, and that slot
      holds no protected source. */
  lemma VictimExists(p: Pool, source: nat, protected: set<nat>)
    requires Consistent(p) && source !in p.slotOf && source in protected && |protected| <= p.capacity
    ensures ChooseSlot(p, protected).Some?
    ensures var slot := ChooseSlot(p, protected).value;
            slot < p.capacity && (p.expertAt[slot].None? || p.expertAt[slot].value !in protected)
    ensures var slot := ChooseSlot(p, protected).value;
            p.expertAt[slot].Some? <==> |p.slotOf| == p.capacity
  {
    FullIffNoEmpty(p);
    if FirstEmpty(p.expertAt, p.capacity).None? && LeastFrequentSlot(p, protected, p.capacity).None? {
      forall s | s in p.slotOf ensures s in protected - {source} {
        assert !Evictable(p, protected, p.slotOf[s]);
      }
      SubsetSize(p.slotOf.Keys, protected - {source});
    }
  }
}
