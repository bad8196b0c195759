/** What a demand group keeps and achieves. */
module ExpertDemand {
  import opened Wrappers
  import opened ExpertPool

  ghost predicate Distinct(sources: seq<nat>) {
    forall i, j :: 0 <= i < j < |sources| ==> sources[i] != sources[j]
  }

  /** The protected set of a validated group fits the pool. */
  ghost predicate Fits(p: Pool, protected: set<nat>) {
    Consistent(p) && |protected| <= p.capacity
  }

  ghost predicate Within(sources: seq<nat>, protected: set<nat>) {
    forall i :: 0 <= i < |sources| ==> sources[i] in protected
  }

  /** Every resident protected source stays published at the slot it had. */
  ghost predicate KeepsProtected(p: Pool, q: Pool, protected: set<nat>) {
    forall s :: s in protected && s in p.slotOf ==> s in q.slotOf && q.slotOf[s] == p.slotOf[s]
  }

  lemma TouchShape(p: Pool, source: nat, slot: nat)
    requires slot < |p.lastUse|
    ensures var q := Touch(p, source, slot).0;
            q.slotOf == p.slotOf && q.expertAt == p.expertAt && q.stored == p.stored && q.capacity == p.capacity && q.experts == p.experts
            && p.clock <= q.clock
  {
  }

  lemma VacateKeeps(p: Pool, slot: nat, protected: set<nat>)
    requires Consistent(p) && slot < p.capacity
    requires p.expertAt[slot].None? || p.expertAt[slot].value !in protected
    ensures KeepsProtected(p, Vacate(p, slot), protected)
    ensures Vacate(p, slot).slotOf.Keys <= p.slotOf.Keys
    ensures |Vacate(p, slot).slotOf| == |p.slotOf| - (if p.expertAt[slot].Some? then 1 else 0)
  {
    if p.expertAt[slot].Some? {
      assert Vacate(p, slot).slotOf.Keys == p.slotOf.Keys - {p.expertAt[slot].value};
    }
  }

  lemma PublishKeeps(p: Pool, source: nat, slot: nat, written: bool, protected: set<nat>)
    requires Consistent(p) && slot < p.capacity && source !in p.slotOf
    requires p.expertAt[slot].None? || p.expertAt[slot].value !in protected
    ensures var q := Publish(p, source, slot, written);
            && KeepsProtected(p, q, protected)
            && q.slotOf.Keys <= p.slotOf.Keys + {source}
            && (written ==> source in q.slotOf && q.slotOf[source] == slot)
            && |q.slotOf| == |p.slotOf| - (if p.expertAt[slot].Some? then 1 else 0) + (if written then 1 else 0)
  {
    VacateKeeps(p, slot, protected);
    var v := Vacate(p, slot).slotOf;
    assert source !in v;
    assert v[source := slot].Keys == v.Keys + {source};
  }

  /** One step of a validated group: a victim is always found and no protected source moves. */
  lemma ServeKeeps(p: Pool, source: nat, protected: set<nat>, load: Load)
    requires Fits(p, protected) && source in protected
    ensures var (q, error) := Serve(p, source, protected, load);
            && Fits(q, protected) && q.capacity == p.capacity
            && KeepsProtected(p, q, protected)
            && q.slotOf.Keys <= p.slotOf.Keys + {source}
            && error != Some(NoEvictableSlot)
            && (error.None? ==>
                  && source in q.slotOf
                  && |q.slotOf| == (if source in p.slotOf || |p.slotOf| == p.capacity then |p.slotOf| else |p.slotOf| + 1))
  {
    ServeConsistent(p, source, protected, load);
    if source in p.slotOf {
      TouchShape(p, source, p.slotOf[source]);
    } else if !load.Unavailable? {
      VictimExists(p, source, protected);
      var slot := ChooseSlot(p, protected).value;
      PublishKeeps(p, source, slot, load.Loaded?, protected);
      if load.Loaded? {
        TouchShape(Publish(p, source, slot, true), source, slot);
      }
    }
  }

  /** One more source after a prefix of a group. */
  lemma DemandNext(p: Pool, sources: seq<nat>, protected: set<nat>, loads: nat -> Load, k: nat)
    requires Consistent(p) && k < |sources|
    ensures Demand(p, sources[..k + 1], protected, loads)
         == ServeMore(Demand(p, sources[..k], protected, loads), sources[k], protected, loads(sources[k]))
  {
    assert sources[..k + 1][..k] == sources[..k];
  }

  /** The first error decides the whole group. */
  lemma {:induction false} FirstErrorSticks(p: Pool, sources: seq<nat>, protected: set<nat>, loads: nat -> Load, k: nat)
    requires Consistent(p) && k <= |sources|
    requires Demand(p, sources[..k], protected, loads).error.Some?
    ensures Demand(p, sources, protected, loads) == Demand(p, sources[..k], protected, loads)
    decreases |sources|
  {
    if k < |sources| {
      var init := sources[..|sources| - 1];
      assert init[..k] == sources[..k];
      FirstErrorSticks(p, init, protected, loads, k);
    } else {
      assert sources[..k] == sources;
    }
  }

  /** Extend a group by one source; if that fails, the whole group has failed. */
  lemma DemandExtends(p: Pool, sources: seq<nat>, protected: set<nat>, loads: nat -> Load, k: nat, d: Served)
    requires Consistent(p) && k < |sources| && d == Demand(p, sources[..k], protected, loads) && d.error.None?
    ensures var next := ServeMore(d, sources[k], protected, loads(sources[k]));
            && next == Demand(p, sources[..k + 1], protected, loads)
            && (next.error.Some? ==> next == Demand(p, sources, protected, loads))
  {
    DemandNext(p, sources, protected, loads, k);
    if Demand(p, sources[..k + 1], protected, loads).error.Some? {
      FirstErrorSticks(p, sources, protected, loads, k + 1);
    }
  }

  /** What a group has achieved so far: it never ran out of victims and moved no resident protected
      source; unless it failed, every source so far is resident and the counts account for every slot. */
  ghost predicate Progress(p: Pool, sources: seq<nat>, protected: set<nat>, r: Served) {
    && Fits(r.pool, protected)
    && r.pool.capacity == p.capacity
    && KeepsProtected(p, r.pool, protected)
    && r.error != Some(NoEvictableSlot)
    && (r.error.None? ==>
          && (forall i :: 0 <= i < |sources| ==> sources[i] in r.pool.slotOf)
          && r.hits + r.misses == |sources|
          && |r.pool.slotOf| + r.evictions == |p.slotOf| + r.misses
          && (r.evictions == 0 || |r.pool.slotOf| == p.capacity))
  }

  lemma ProgressStep(p: Pool, sources: seq<nat>, last: nat, protected: set<nat>, d: Served, load: Load)
    requires Progress(p, sources, protected, d) && last in protected && Within(sources, protected)
    ensures Progress(p, sources + [last], protected, ServeMore(d, last, protected, load))
  {
    ServeKeeps(d.pool, last, protected, load);
  }

  lemma {:induction false} DemandProgress(p: Pool, sources: seq<nat>, protected: set<nat>, loads: nat -> Load)
    requires Fits(p, protected) && Within(sources, protected)
    ensures Progress(p, sources, protected, Demand(p, sources, protected, loads))
    decreases |sources|, 0
  {
    if sources != [] {
      var init, last := sources[..|sources| - 1], sources[|sources| - 1];
      assert sources == init + [last];
      DemandProgressNext(p, init, last, protected, loads);
    }
  }

  lemma {:induction false} DemandProgressNext(p: Pool, init: seq<nat>, last: nat, protected: set<nat>, loads: nat -> Load)
    requires Fits(p, protected) && Within(init, protected) && last in protected
    ensures Progress(p, init + [last], protected, Demand(p, init + [last], protected, loads))
    decreases |init|, 1
  {
    DemandProgress(p, init, protected, loads);
    ProgressStep(p, init, last, protected, Demand(p, init, protected, loads), loads(last));
    assert (init + [last])[..|init|] == init;
  }

  /** A demand never runs out of victims and never moves a resident protected source, whether it
      succeeds or not; on success every source is resident. */
  lemma DemandKeeps(p: Pool, sources: seq<nat>, protected: set<nat>, loads: nat -> Load)
    requires Fits(p, protected) && Within(sources, protected)
    ensures var r := Demand(p, sources, protected, loads);
            && Fits(r.pool, protected)
            && KeepsProtected(p, r.pool, protected)
            && r.error != Some(NoEvictableSlot)
            && (r.error.None? ==> forall i :: 0 <= i < |sources| ==> sources[i] in r.pool.slotOf)
  {
    DemandProgress(p, sources, protected, loads);
  }

  /** The counts of a successful demand account for every slot, and evictions are exactly the
      sources that no longer fit. */
  lemma DemandCounts(p: Pool, sources: seq<nat>, protected: set<nat>, loads: nat -> Load)
    requires Fits(p, protected) && Within(sources, protected)
    requires Demand(p, sources, protected, loads).error.None?
    ensures var r := Demand(p, sources, protected, loads);
            && r.hits + r.misses == |sources|
            && |r.pool.slotOf| + r.evictions == |p.slotOf| + r.misses
            && r.evictions == (if |p.slotOf| + r.misses > p.capacity then |p.slotOf| + r.misses - p.capacity else 0)
  {
    DemandProgress(p, sources, protected, loads);
    FullIffNoEmpty(Demand(p, sources, protected, loads).pool);
  }

  /** A demand brings in nothing but its own sources. */
  lemma {:induction false} DemandGains(p: Pool, sources: seq<nat>, protected: set<nat>, loads: nat -> Load, s: nat)
    requires Fits(p, protected) && Within(sources, protected)
    requires s !in p.slotOf && s !in sources
    ensures s !in Demand(p, sources, protected, loads).pool.slotOf
  {
    if sources != [] {
      var init, last := sources[..|sources| - 1], sources[|sources| - 1];
      DemandKeeps(p, init, protected, loads);
      DemandGains(p, init, protected, loads, s);
      ServeKeeps(Demand(p, init, protected, loads).pool, last, protected, loads(last));
    }
  }

  /** A source's turn finds it missing exactly when it was missing at the start of the group, so a
      miss list computed up front is the sequence of misses the loop meets. */
  lemma MissesKnownUpFront(p: Pool, sources: seq<nat>, protected: set<nat>, loads: nat -> Load, n: nat)
    requires Fits(p, protected) && Within(sources, protected) && Distinct(sources) && n < |sources|
    ensures sources[n] in Demand(p, sources[..n], protected, loads).pool.slotOf <==> sources[n] in p.slotOf
  {
    DemandKeeps(p, sources[..n], protected, loads);
    if sources[n] !in p.slotOf {
      DemandGains(p, sources[..n], protected, loads, sources[n]);
    }
  }

  /** Where a demand stops: the number of sources it serves before its first error. */
  function ServedCount(p: Pool, sources: seq<nat>, protected: set<nat>, loads: nat -> Load): (n: nat)
    requires Consistent(p)
    ensures n <= |sources|
  {
    if sources == [] then 0 else
    var n := ServedCount(p, sources[..|sources| - 1], protected, loads);
    if n == |sources| - 1 && Demand(p, sources, protected, loads).error.None? then n + 1 else n
  }

  lemma {:induction false} ServedCountStops(p: Pool, sources: seq<nat>, protected: set<nat>, loads: nat -> Load)
    requires Consistent(p)
    ensures StopsAt(p, sources, protected, loads, ServedCount(p, sources, protected, loads))
    decreases |sources|, 0
  {
    if sources == [] {
      NothingStops(p, protected, loads);
    } else {
      var init, last := sources[..|sources| - 1], sources[|sources| - 1];
      assert sources == init + [last];
      ServedCountStopsNext(p, init, last, protected, loads);
    }
  }

  lemma {:induction false} ServedCountStopsNext(p: Pool, init: seq<nat>, last: nat, protected: set<nat>, loads: nat -> Load)
    requires Consistent(p)
    ensures var all := init + [last]; StopsAt(p, all, protected, loads, ServedCount(p, all, protected, loads))
    decreases |init|, 1
  {
    ServedCountStops(p, init, protected, loads);
    ServedCountNext(p, init, last, protected, loads);
    StopsStep(p, init, last, protected, loads, ServedCount(p, init, protected, loads));
  }

  lemma NothingStops(p: Pool, protected: set<nat>, loads: nat -> Load)
    requires Consistent(p)
    ensures StopsAt(p, [], protected, loads, ServedCount(p, [], protected, loads))
  {
  }

  lemma ServedCountNext(p: Pool, init: seq<nat>, last: nat, protected: set<nat>, loads: nat -> Load)
    requires Consistent(p)
    ensures var all, n := init + [last], ServedCount(p, init, protected, loads);
            ServedCount(p, all, protected, loads) == if n == |init| && Demand(p, all, protected, loads).error.None? then n + 1 else n
  {
    assert (init + [last])[..|init|] == init;
  }

  /** The first n sources are served; the next one, if any, decides the group. */
  ghost predicate StopsAt(p: Pool, sources: seq<nat>, protected: set<nat>, loads: nat -> Load, n: nat)
    requires Consistent(p)
  {
    && n <= |sources|
    && Demand(p, sources[..n], protected, loads).error.None?
    && (Demand(p, sources, protected, loads).error.None? <==> n == |sources|)
    && (n < |sources| ==> Demand(p, sources, protected, loads) == Demand(p, sources[..n + 1], protected, loads))
  }

  lemma StopsStep(p: Pool, init: seq<nat>, last: nat, protected: set<nat>, loads: nat -> Load, n: nat)
    requires Consistent(p) && StopsAt(p, init, protected, loads, n)
    ensures var all := init + [last];
            StopsAt(p, all, protected, loads, if n == |init| && Demand(p, all, protected, loads).error.None? then n + 1 else n)
  {
    var all := init + [last];
    assert all[..|init|] == init && all[..|init| + 1] == all;
    if n < |init| {
      assert init[..n] == all[..n] && init[..n + 1] == all[..n + 1];
      FirstErrorSticks(p, all, protected, loads, |init|);
    } else {
      assert init[..n] == init;
    }
  }

  /** What serving one source leaves when it fails: nothing when the row never arrived, one emptied
      slot when its write failed, and the row in place but unstamped when a counter overflowed. */
  ghost predicate FailsWith(p: Pool, source: nat, protected: set<nat>, load: Load, q: Pool, error: PoolError)
    requires Consistent(p)
  {
    var slot := ChooseSlot(p, protected);
    match error
    case RowUnavailable => source !in p.slotOf && load.Unavailable? && q == p
    case SlotWriteFailed =>
      source !in p.slotOf && load.WriteFails? && slot.Some? && slot.value < p.capacity && q == Vacate(p, slot.value)
    case RecencyOverflow => p.clock >= U64_MAX && Placed(p, source, slot, load, q)
    case FrequencyOverflow => Uses(p, source) >= U64_MAX && Placed(p.(clock := p.clock + 1), source, slot, load, q)
    case NoEvictableSlot => false
  }

  /** The source is resident, or has just been published at its slot, with no stamp or count added. */
  ghost predicate Placed(p: Pool, source: nat, slot: Option<nat>, load: Load, q: Pool) {
    if source in p.slotOf then q == p
    else load.Loaded? && slot.Some? && slot.value < p.capacity == |p.expertAt| == |p.stored| && q == Publish(p, source, slot.value, true)
  }

  /** A demand that stops part-way, for whatever reason, leaves exactly the effect of a prefix of the
      group and of the one source that failed. */
  lemma FailedDemandIsPrefix(p: Pool, sources: seq<nat>, protected: set<nat>, loads: nat -> Load)
    requires Fits(p, protected) && Within(sources, protected)
    requires Demand(p, sources, protected, loads).error.Some?
    ensures var n := ServedCount(p, sources, protected, loads);
            && n < |sources|
            && var r, done := Demand(p, sources, protected, loads), Demand(p, sources[..n], protected, loads);
            && done.error.None? && FailsWith(done.pool, sources[n], protected, loads(sources[n]), r.pool, r.error.value)
  {
    ServedCountStops(p, sources, protected, loads);
    var n := ServedCount(p, sources, protected, loads);
    var done := Demand(p, sources[..n], protected, loads);
    DemandNext(p, sources, protected, loads, n);
    DemandKeeps(p, sources[..n], protected, loads);
    FailedServe(done.pool, sources[n], protected, loads(sources[n]));
  }

  lemma FailedServe(p: Pool, source: nat, protected: set<nat>, load: Load)
    requires Fits(p, protected) && source in protected
    ensures var (q, error) := Serve(p, source, protected, load);
            error.Some? ==> FailsWith(p, source, protected, load, q, error.value)
  {
    if source !in p.slotOf {
      VictimExists(p, source, protected);
    }
  }
}
