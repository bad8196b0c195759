/** Bounds on the decaying use counts and the order of recency stamps. */
module ExpertDecay {
  import opened Wrappers
  import opened ExpertPool
  import opened ExpertDemand

  /** No source's count exceeds 128 plus the touches since the last halving. */
  ghost predicate CountsBounded(p: Pool) {
    forall s :: s in p.frequency ==> p.frequency[s] <= DECAY_PERIOD + p.clock % DECAY_PERIOD
  }

  /** Stamps come from the clock, no two slots share a stamp, and every occupied slot has one. */
  ghost predicate Stamped(p: Pool) {
    && |p.lastUse| == |p.expertAt|
    && (forall i :: 0 <= i < |p.lastUse| ==> p.lastUse[i] <= p.clock)
    && (forall i, j :: 0 <= i < j < |p.lastUse| && p.lastUse[i] == p.lastUse[j] ==> p.lastUse[i] == 0)
    && (forall i :: 0 <= i < |p.lastUse| && p.expertAt[i].Some? ==> p.lastUse[i] > 0)
  }

  /** Stamped, except that slot's own stamp may still be its last occupant's. */
  ghost predicate StampedExcept(p: Pool, slot: nat) {
    && |p.lastUse| == |p.expertAt|
    && (forall i :: 0 <= i < |p.lastUse| ==> p.lastUse[i] <= p.clock)
    && (forall i, j :: 0 <= i < j < |p.lastUse| && p.lastUse[i] == p.lastUse[j] ==> p.lastUse[i] == 0)
    && (forall i :: 0 <= i < |p.lastUse| && p.expertAt[i].Some? && i != slot ==> p.lastUse[i] > 0)
  }

  /** While the clock has room, a touch of a bounded pool succeeds and keeps the bounds. */
  lemma TouchBounded(p: Pool, source: nat, slot: nat)
    requires CountsBounded(p) && slot < |p.lastUse|
    ensures CountsBounded(Touch(p, source, slot).0)
    ensures Touch(p, source, slot).1 == if p.clock < U64_MAX then None else Some(RecencyOverflow)
  {
  }

  lemma TouchStamped(p: Pool, source: nat, slot: nat)
    requires StampedExcept(p, slot) && slot < |p.lastUse|
    requires Touch(p, source, slot).1.None?
    ensures Stamped(Touch(p, source, slot).0)
  {
  }

  lemma ServeBounded(p: Pool, source: nat, protected: set<nat>, load: Load)
    requires Consistent(p) && CountsBounded(p)
    ensures CountsBounded(Serve(p, source, protected, load).0)
    ensures Serve(p, source, protected, load).1 != Some(FrequencyOverflow)
    ensures Serve(p, source, protected, load).1 == Some(RecencyOverflow) ==> p.clock == Serve(p, source, protected, load).0.clock >= U64_MAX
    ensures p.clock <= Serve(p, source, protected, load).0.clock <= p.clock + 1
  {
    if source in p.slotOf {
      TouchBounded(p, source, p.slotOf[source]);
    } else if load.Loaded? && ChooseSlot(p, protected).Some? {
      var slot := ChooseSlot(p, protected).value;
      PublishConsistent(p, source, slot, true);
      TouchBounded(Publish(p, source, slot, true), source, slot);
    }
  }

  lemma ServeStamped(p: Pool, source: nat, protected: set<nat>, load: Load)
    requires Consistent(p) && Stamped(p)
    requires Serve(p, source, protected, load).1 !in {Some(RecencyOverflow), Some(FrequencyOverflow)}
    ensures Stamped(Serve(p, source, protected, load).0)
  {
    if source in p.slotOf {
      TouchStamped(p, source, p.slotOf[source]);
    } else if !load.Unavailable? && ChooseSlot(p, protected).Some? {
      var slot := ChooseSlot(p, protected).value;
      PublishConsistent(p, source, slot, load.Loaded?);
      var q := Publish(p, source, slot, load.Loaded?);
      assert forall i :: 0 <= i < p.capacity && i != slot ==> q.expertAt[i] == p.expertAt[i];
      if load.Loaded? {
        TouchStamped(q, source, slot);
      }
    }
  }

  /** Bounds survive every demand, so the count overflow error cannot occur; stamps survive until
      the 64-bit clock itself runs out. */
  lemma {:induction false} DemandBounded(p: Pool, sources: seq<nat>, protected: set<nat>, loads: nat -> Load)
    requires Consistent(p) && CountsBounded(p)
    ensures var r := Demand(p, sources, protected, loads);
            && CountsBounded(r.pool) && r.error != Some(FrequencyOverflow)
            && (r.error == Some(RecencyOverflow) ==> r.pool.clock >= U64_MAX)
            && p.clock <= r.pool.clock <= p.clock + |sources|
            && (Stamped(p) && r.pool.clock < U64_MAX ==> Stamped(r.pool))
  {
    if sources != [] {
      var init, last := sources[..|sources| - 1], sources[|sources| - 1];
      DemandBounded(p, init, protected, loads);
      var d := Demand(p, init, protected, loads);
      ServeBounded(d.pool, last, protected, loads(last));
      if Stamped(d.pool) && Serve(d.pool, last, protected, loads(last)).1 !in {Some(RecencyOverflow), Some(FrequencyOverflow)} {
        ServeStamped(d.pool, last, protected, loads(last));
      }
    }
  }

  /** A validated group succeeds exactly when every source missing at its start loads, as long as
      the clock has room for its touches. */
  lemma DemandSucceedsIff(p: Pool, sources: seq<nat>, protected: set<nat>, loads: nat -> Load)
    requires Fits(p, protected) && Within(sources, protected) && Distinct(sources)
    requires CountsBounded(p) && p.clock + |sources| <= U64_MAX
    ensures Demand(p, sources, protected, loads).error.None? <==>
              forall i :: 0 <= i < |sources| && sources[i] !in p.slotOf ==> loads(sources[i]).Loaded?
  {
    ServedCountStops(p, sources, protected, loads);
    var n := ServedCount(p, sources, protected, loads);
    if n < |sources| {
      TurnSucceedsIff(p, sources, protected, loads, n);
    } else {
      forall i | 0 <= i < |sources| && sources[i] !in p.slotOf ensures loads(sources[i]).Loaded? {
        assert Demand(p, sources[..i], protected, loads).error.None? && Demand(p, sources[..i + 1], protected, loads).error.None? by {
          if Demand(p, sources[..i], protected, loads).error.Some? { FirstErrorSticks(p, sources, protected, loads, i); }
          if Demand(p, sources[..i + 1], protected, loads).error.Some? { FirstErrorSticks(p, sources, protected, loads, i + 1); }
        }
        TurnSucceedsIff(p, sources, protected, loads, i);
      }
    }
  }

  /** After a served prefix, the next source succeeds exactly if it was resident or its row loads. */
  lemma TurnSucceedsIff(p: Pool, sources: seq<nat>, protected: set<nat>, loads: nat -> Load, n: nat)
    requires Fits(p, protected) && Within(sources, protected) && Distinct(sources) && n < |sources|
    requires CountsBounded(p) && p.clock + |sources| <= U64_MAX
    requires Demand(p, sources[..n], protected, loads).error.None?
    ensures Demand(p, sources[..n + 1], protected, loads).error.None? <==> sources[n] in p.slotOf || loads(sources[n]).Loaded?
  {
    DemandNext(p, sources, protected, loads, n);
    MissesKnownUpFront(p, sources, protected, loads, n);
    DemandKeeps(p, sources[..n], protected, loads);
    DemandBounded(p, sources[..n], protected, loads);
    LoadedServeSucceeds(Demand(p, sources[..n], protected, loads).pool, sources[n], protected, loads(sources[n]));
  }

  lemma LoadedServeSucceeds(p: Pool, source: nat, protected: set<nat>, load: Load)
    requires Fits(p, protected) && source in protected && CountsBounded(p) && p.clock < U64_MAX
    ensures Serve(p, source, protected, load).1.None? <==> source in p.slotOf || load.Loaded?
  {
    ServeKeeps(p, source, protected, load);
    if source in p.slotOf {
      TouchBounded(p, source, p.slotOf[source]);
    } else {
      VictimExists(p, source, protected);
      if load.Loaded? {
        var slot := ChooseSlot(p, protected).value;
        PublishConsistent(p, source, slot, true);
        TouchBounded(Publish(p, source, slot, true), source, slot);
      }
    }
  }

  /** With distinct stamps the victim is unique: it comes strictly before every other candidate. */
  lemma VictimIsUnique(p: Pool, protected: set<nat>, other: nat)
    requires Stamped(p) && Evictable(p, protected, other)
    ensures var v := LeastFrequentSlot(p, protected, |p.expertAt|);
            v.Some? && (v.value == other || Before(p, v.value, other))
  {
    var v := LeastFrequentSlot(p, protected, |p.expertAt|);
    assert v.Some?;
    if v.value != other {
      assert !Before(p, other, v.value);
      assert p.lastUse[v.value] != p.lastUse[other];
    }
  }

  // ----- the sum of all counts

  function TotalUses(frequency: map<nat, nat>, n: nat): nat {
    if n == 0 then 0 else TotalUses(frequency, n - 1) + if n - 1 in frequency then frequency[n - 1] else 0
  }

  lemma {:induction false} TotalAfterUse(frequency: map<nat, nat>, n: nat, source: nat, count: nat)
    ensures TotalUses(frequency[source := count], n)
         == if source < n then TotalUses(frequency, n) + count - (if source in frequency then frequency[source] else 0)
            else TotalUses(frequency, n)
  {
    if n > 0 {
      TotalAfterUse(frequency, n - 1, source, count);
    }
  }

  lemma {:induction false} TotalHalved(frequency: map<nat, nat>, n: nat)
    ensures 2 * TotalUses(Halved(frequency), n) <= TotalUses(frequency, n)
  {
    if n > 0 {
      TotalHalved(frequency, n - 1);
    }
  }

  /** In a pool that started without prior counts, all counts together obey the same bound. */
  ghost predicate TotalBounded(p: Pool) {
    TotalUses(p.frequency, p.experts) <= DECAY_PERIOD + p.clock % DECAY_PERIOD
  }

  lemma TouchTotal(p: Pool, source: nat, slot: nat)
    requires TotalBounded(p) && slot < |p.lastUse| && source < p.experts
    ensures TotalBounded(Touch(p, source, slot).0)
  {
    var frequency := p.frequency[source := Uses(p, source) + 1];
    TotalAfterUse(p.frequency, p.experts, source, Uses(p, source) + 1);
    TotalHalved(frequency, p.experts);
    TotalCoversOne(p.frequency, p.experts, source);
  }

  lemma {:induction false} TotalCoversOne(frequency: map<nat, nat>, n: nat, source: nat)
    requires source < n
    ensures (if source in frequency then frequency[source] else 0) <= TotalUses(frequency, n)
  {
    if source < n - 1 {
      TotalCoversOne(frequency, n - 1, source);
    }
  }

  lemma {:induction false} DemandTotal(p: Pool, sources: seq<nat>, protected: set<nat>, loads: nat -> Load)
    requires Consistent(p) && TotalBounded(p)
    requires forall i :: 0 <= i < |sources| ==> sources[i] < p.experts
    ensures TotalBounded(Demand(p, sources, protected, loads).pool)
  {
    if sources != [] {
      var init, last := sources[..|sources| - 1], sources[|sources| - 1];
      DemandTotal(p, init, protected, loads);
      ServeTotal(Demand(p, init, protected, loads).pool, last, protected, loads(last));
    }
  }

  lemma ServeTotal(p: Pool, source: nat, protected: set<nat>, load: Load)
    requires Consistent(p) && TotalBounded(p) && source < p.experts
    ensures TotalBounded(Serve(p, source, protected, load).0)
  {
    if source in p.slotOf {
      TouchTotal(p, source, p.slotOf[source]);
    } else if !load.Unavailable? && ChooseSlot(p, protected).Some? {
      var slot := ChooseSlot(p, protected).value;
      PublishConsistent(p, source, slot, load.Loaded?);
      if load.Loaded? {
        TouchTotal(Publish(p, source, slot, true), source, slot);
      }
    }
  }
}
