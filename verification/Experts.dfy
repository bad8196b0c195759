/** One bounded pool of routed experts, updated in place. Each method is tied to the slot policy
    in ExpertPool and ExpertOps, where what the policy guarantees is proved. */
module Experts {
  import opened Wrappers
  import opened ExpertPool
  import opened ExpertDemand
  import opened ExpertOps

  datatype DemandError =
    | InvalidGroup
    | NotWritable
    | ReaderFailed
    | PoolFailed(cause: PoolError)
    | CursorOrderDiffers
    | CursorNotConsumed
    | OutstandingReader
    | NotPublished
    | StaleMapping

  datatype DemandCounts = DemandCounts(hits: nat, misses: nat, evictions: nat)

  /** How the row reader starts: a read-ahead pipeline, plain reads, or not at all. */
  datatype ReaderStart = Pipelined | Direct | Failed

  /** The sources of a group that are not resident, in order. */
  function Missing(slotOf: map<nat, nat>, sources: seq<nat>): (r: seq<nat>)
    ensures |r| <= |sources|
  {
    if sources == [] then [] else
    var init, last := sources[..|sources| - 1], sources[|sources| - 1];
    Missing(slotOf, init) + if last in slotOf then [] else [last]
  }

  lemma {:induction false} MissingAt(slotOf: map<nat, nat>, sources: seq<nat>, k: nat)
    requires k < |sources|
    ensures Missing(slotOf, sources[..k]) <= Missing(slotOf, sources)
    ensures sources[k] !in slotOf ==>
              var at := |Missing(slotOf, sources[..k])|;
              at < |Missing(slotOf, sources)| && Missing(slotOf, sources)[at] == sources[k]
  {
    var init := sources[..|sources| - 1];
    if k < |init| {
      MissingAt(slotOf, init, k);
      assert init[..k] == sources[..k];
    }
  }

  lemma MissingStep(slotOf: map<nat, nat>, sources: seq<nat>, k: nat)
    requires k < |sources|
    ensures Missing(slotOf, sources[..k + 1]) == Missing(slotOf, sources[..k]) + if sources[k] in slotOf then [] else [sources[k]]
  {
    assert sources[..k + 1][..k] == sources[..k];
  }

  /** Counting the misses so far, the cursor stands at each miss on that source. */
  lemma CursorMatches(slotOf: map<nat, nat>, order: seq<nat>, k: nat)
    requires k < |order|
    ensures Missing(slotOf, order[..k + 1]) == Missing(slotOf, order[..k]) + if order[k] in slotOf then [] else [order[k]]
    ensures order[k] !in slotOf ==>
              var at := |Missing(slotOf, order[..k])|;
              at < |Missing(slotOf, order)| && Missing(slotOf, order)[at] == order[k]
  {
    MissingStep(slotOf, order, k);
    MissingAt(slotOf, order, k);
  }

  /** The sources of a set that are not resident. */
  ghost function Absent(p: Pool, active: set<nat>): set<nat> {
    AbsentIn(p.slotOf, active)
  }

  ghost function AbsentIn(slotOf: map<nat, nat>, sources: set<nat>): set<nat> {
    set s | s in sources && s !in slotOf
  }

  lemma {:induction false} MissingSize(slotOf: map<nat, nat>, order: seq<nat>)
    requires Distinct(order)
    ensures |Missing(slotOf, order)| == |AbsentIn(slotOf, Members(order))|
    decreases |order|, 0
  {
    if order != [] {
      var init, last := order[..|order| - 1], order[|order| - 1];
      assert order == init + [last];
      MissingSizeNext(slotOf, init, last);
    }
  }

  lemma {:induction false} MissingSizeNext(slotOf: map<nat, nat>, init: seq<nat>, last: nat)
    requires Distinct(init + [last])
    ensures |Missing(slotOf, init + [last])| == |AbsentIn(slotOf, Members(init + [last]))|
    decreases |init|, 1
  {
    ShorterDistinct(init, last);
    MissingSize(slotOf, init);
    assert (init + [last])[..|init|] == init;
    AbsentNext(slotOf, init, last);
  }

  lemma ShorterDistinct(init: seq<nat>, last: nat)
    requires Distinct(init + [last])
    ensures Distinct(init) && last !in init
  {
    assert forall i :: 0 <= i < |init| ==> (init + [last])[i] == init[i];
    assert (init + [last])[|init|] == last;
  }

  lemma AbsentNext(slotOf: map<nat, nat>, init: seq<nat>, last: nat)
    requires last !in init
    ensures |AbsentIn(slotOf, Members(init + [last]))| == |AbsentIn(slotOf, Members(init))| + if last in slotOf then 0 else 1
  {
    var before, after := AbsentIn(slotOf, Members(init)), AbsentIn(slotOf, Members(init + [last]));
    assert after == if last in slotOf then before else before + {last};
  }

  lemma AbsentSize(p: Pool, active: set<nat>)
    requires forall s :: s in active ==> s < p.experts
    ensures |Missing(p.slotOf, Ascending(active, p.experts))| == |Absent(p, active)|
  {
    AscendingSize(active, p.experts);
    MissingSize(p.slotOf, Ascending(active, p.experts));
    assert Members(Ascending(active, p.experts)) == active;
  }

  /** Every slot a GPU reader may touch is occupied by a protected source. */
  ghost predicate ReadersHeld(p: Pool, protected: set<nat>, readers: set<nat>) {
    forall slot :: slot in readers ==> slot < |p.expertAt| && p.expertAt[slot].Some? && p.expertAt[slot].value in protected
  }

  lemma ReadersStayHeld(p: Pool, q: Pool, protected: set<nat>, readers: set<nat>)
    requires Consistent(p) && Consistent(q) && ReadersHeld(p, protected, readers) && KeepsProtected(p, q, protected)
    ensures ReadersHeld(q, protected, readers)
  {
    forall slot | slot in readers
      ensures slot < |q.expertAt| && q.expertAt[slot].Some? && q.expertAt[slot].value in protected
    {
      var s := p.expertAt[slot].value;
      assert q.slotOf[s] == slot;
    }
  }

  /** The pool an overlapped load leaves, and whether the whole group was served. */
  function LoadedPool(p: Pool, active: set<nat>, protect: set<nat>, start: ReaderStart, loads: nat -> Load): (Pool, bool)
    requires Consistent(p)
  {
    if !ValidGroup(p, active, protect) then (p, false)
    else if |Missing(p.slotOf, Ascending(active, p.experts))| >= 2 && start.Failed? then (p, false)
    else
      var d := Group(p, active, protect, loads);
      (d.pool, d.error.None?)
  }

  /** A loader reports exactly what the slot policy says, and ends in exactly that pool. */
  ghost predicate Outcome(r: Result<DemandCounts, DemandError>, q: Pool, d: Served) {
    && q == d.pool
    && r == if d.error.Some? then Err(PoolFailed(d.error.value)) else Ok(DemandCounts(d.hits, d.misses, d.evictions))
  }

  ghost predicate Reported(q: Pool, error: Option<DemandError>, step: (Pool, Option<PoolError>)) {
    q == step.0 && error == if step.1.Some? then Some(PoolFailed(step.1.value)) else None
  }

  /** The counts with one more source, which hit, or missed a full or roomy pool. */
  function Counted(counts: DemandCounts, hit: bool, full: bool): DemandCounts {
    if hit then counts.(hits := counts.hits + 1)
    else counts.(misses := counts.misses + 1, evictions := counts.evictions + if full then 1 else 0)
  }

  lemma ReportedServe(d: Served, source: nat, protected: set<nat>, load: Load, error: Option<DemandError>, q: Pool, next: DemandCounts)
    requires Consistent(d.pool) && d.error.None? && Reported(q, error, Serve(d.pool, source, protected, load))
    requires next == Counted(DemandCounts(d.hits, d.misses, d.evictions), source in d.pool.slotOf, |d.pool.slotOf| == d.pool.capacity)
    ensures Outcome(if error.Some? then Err(error.value) else Ok(next), q, ServeMore(d, source, protected, load))
  {
  }

  class BoundedExperts {
    const experts: nat
    var capacity: nat
    var slotOf: map<nat, nat>
    var expertAt: seq<Option<nat>>
    var stored: seq<Option<nat>>
    var lastUse: seq<nat>
    var frequency: map<nat, nat>
    var clock: nat

    function State(): Pool
      reads this
    {
      Pool(experts, capacity, slotOf, expertAt, stored, lastUse, frequency, clock)
    }

    ghost predicate Valid()
      reads this
    {
      Consistent(State()) && TOP_K <= capacity
    }

    constructor (experts: nat, capacity: nat)
      requires TOP_K <= capacity <= experts
      ensures Valid() && State() == NewPool(experts, capacity)
    {
      this.experts, this.capacity, clock := experts, capacity, 0;
      slotOf, frequency := map[], map[];
      expertAt, stored := seq(capacity, _ => None), seq(capacity, _ => None);
      lastUse := seq(capacity, _ => 0);
    }

    /** The first empty slot, else the first least recently used of the least used victims. */
    method ChooseVictim(protected: set<nat>) returns (r: Option<nat>)
      requires Valid()
      ensures r == ChooseSlot(State(), protected)
    {
      for slot := 0 to |expertAt|
        invariant FirstEmpty(expertAt, slot).None?
      {
        if expertAt[slot].None? {
          FirstEmptyIs(expertAt, slot, |expertAt|);
          return Some(slot);
        }
      }
      r := None;
      for slot := 0 to |expertAt|
        invariant r == LeastFrequentSlot(State(), protected, slot)
      {
        if expertAt[slot].Some? && expertAt[slot].value !in protected && (r.None? || Before(State(), slot, r.value)) {
          r := Some(slot);
        }
      }
    }

    /** Drop the victim, write the row, publish; a failed write leaves the slot empty. */
    method PublishReplacement(source: nat, slot: nat, written: bool)
      requires Valid() && slot < capacity && source !in slotOf
      modifies this`slotOf, this`expertAt, this`stored
      ensures State() == Publish(old(State()), source, slot, written)
    {
      if expertAt[slot].Some? {
        var previous := expertAt[slot].value;
        slotOf := map s | s in slotOf && s != previous :: slotOf[s];
        expertAt := expertAt[slot := None];
      }
      assert expertAt == old(expertAt)[slot := None];
      stored := stored[slot := None];
      if written {
        stored := stored[slot := Some(source)];
        expertAt := expertAt[slot := Some(source)];
        slotOf := slotOf[source := slot];
      }
    }

    method TouchSource(source: nat, slot: nat) returns (error: Option<PoolError>)
      requires Valid() && slot < capacity
      modifies this`clock, this`frequency, this`lastUse
      ensures (State(), error) == Touch(old(State()), source, slot)
    {
      if clock >= U64_MAX {
        return Some(RecencyOverflow);
      }
      clock := clock + 1;
      var count := if source in frequency then frequency[source] else 0;
      if count >= U64_MAX {
        return Some(FrequencyOverflow);
      }
      frequency := frequency[source := count + 1];
      lastUse := lastUse[slot := clock];
      if clock % DECAY_PERIOD == 0 {
        frequency := Halved(frequency);
      }
      return None;
    }

    /** Load one missing source into a slot no outstanding reader covers. */
    method LoadRow(source: nat, protected: set<nat>, load: Load, readers: set<nat>) returns (r: Result<nat, DemandError>)
      requires Valid() && source !in slotOf && source in protected && |protected| <= capacity
      requires ReadersHeld(State(), protected, readers)
      modifies this`slotOf, this`expertAt, this`stored
      ensures load.Unavailable? ==> r == Err(PoolFailed(RowUnavailable)) && State() == old(State())
      ensures !load.Unavailable? ==>
                var slot := ChooseSlot(old(State()), protected);
                && slot.Some? && slot.value < capacity && slot.value !in readers
                && State() == Publish(old(State()), source, slot.value, load.Loaded?)
                && r == if load.Loaded? then Ok(slot.value) else Err(PoolFailed(SlotWriteFailed))
    {
      if load.Unavailable? {
        return Err(PoolFailed(RowUnavailable));
      }
      VictimExists(State(), source, protected);
      var choice := ChooseVictim(protected);
      match choice {
        case None => return Err(PoolFailed(NoEvictableSlot));
        case Some(slot) =>
          if slot in readers {
            return Err(OutstandingReader);
          }
          PublishReplacement(source, slot, load.Loaded?);
          return if load.Loaded? then Ok(slot) else Err(PoolFailed(SlotWriteFailed));
      }
    }

    /** Make one source of a group resident and touch it. */
    method ServeOne(source: nat, protected: set<nat>, load: Load, readers: set<nat>) returns (error: Option<DemandError>)
      requires Valid() && source in protected && |protected| <= capacity
      requires ReadersHeld(State(), protected, readers)
      modifies this`slotOf, this`expertAt, this`stored, this`clock, this`frequency, this`lastUse
      ensures Valid() && ReadersHeld(State(), protected, readers)
      ensures Reported(State(), error, Serve(old(State()), source, protected, load))
      ensures source in old(slotOf) ==> slotOf == old(slotOf)
    {
      ServeKeeps(State(), source, protected, load);
      ReadersStayHeld(State(), Serve(State(), source, protected, load).0, protected, readers);
      var slot;
      if source in slotOf {
        slot := slotOf[source];
      } else {
        ghost var before := State();
        var loaded := LoadRow(source, protected, load, readers);
        if loaded.Err? {
          return Some(loaded.error);
        }
        slot := loaded.value;
        PublishConsistent(before, source, slot, true);
      }
      var touched := TouchSource(source, slot);
      return if touched.Some? then Some(PoolFailed(touched.value)) else None;
    }

    /** Extend a group under way by one source. */
    method ServeNext(source: nat, protected: set<nat>, counts: DemandCounts, load: Load, readers: set<nat>, ghost d: Served)
      returns (r: Result<DemandCounts, DemandError>)
      requires Valid() && source in protected && |protected| <= capacity
      requires ReadersHeld(State(), protected, readers)
      requires d == Served(State(), None, counts.hits, counts.misses, counts.evictions)
      modifies this`slotOf, this`expertAt, this`stored, this`clock, this`frequency, this`lastUse
      ensures Valid() && ReadersHeld(State(), protected, readers)
      ensures Outcome(r, State(), ServeMore(d, source, protected, load))
      ensures r.Ok? && source in old(slotOf) ==> slotOf == old(slotOf)
    {
      var next := Counted(counts, source in slotOf, |slotOf| == capacity);
      var error := ServeOne(source, protected, load, readers);
      ReportedServe(d, source, protected, load, error, State(), next);
      return if error.Some? then Err(error.value) else Ok(next);
    }

    /** Serve a group whose misses were listed up front; the row cursor hands rows out in that
        order and must be consumed exactly. */
    method ServeAll(order: seq<nat>, protected: set<nat>, missing: seq<nat>, pipelined: bool, loads: nat -> Load, readers: set<nat>)
      returns (r: Result<DemandCounts, DemandError>)
      requires Valid() && Distinct(order) && Within(order, protected) && |protected| <= capacity
      requires missing == Missing(slotOf, order) && ReadersHeld(State(), protected, readers)
      modifies this`slotOf, this`expertAt, this`stored, this`clock, this`frequency, this`lastUse
      ensures Valid() && ReadersHeld(State(), protected, readers)
      ensures Outcome(r, State(), Demand(old(State()), order, protected, loads))
    {
      ghost var p := State();
      var cursor := if pipelined && |missing| >= 2 then Some(0) else None;
      var counts := DemandCounts(0, 0, 0);
      ghost var d := Served(p, None, 0, 0, 0);
      assert order[..0] == [];
      for k := 0 to |order|
        invariant Valid() && ReadersHeld(State(), protected, readers)
        invariant d == Demand(p, order[..k], protected, loads)
        invariant d == Served(State(), None, counts.hits, counts.misses, counts.evictions)
        invariant cursor.Some? ==> cursor.value == |Missing(p.slotOf, order[..k])|
      {
        MissesKnownUpFront(p, order, protected, loads, k);
        CursorMatches(p.slotOf, order, k);
        if order[k] !in slotOf && cursor.Some? {
          if cursor.value >= |missing| || missing[cursor.value] != order[k] {
            return Err(CursorOrderDiffers);
          }
          cursor := Some(cursor.value + 1);
        }
        DemandExtends(p, order, protected, loads, k, d);
        ghost var next := ServeMore(d, order[k], protected, loads(order[k]));
        var served := ServeNext(order[k], protected, counts, loads(order[k]), readers, d);
        if served.Err? {
          return served;
        }
        counts := served.value;
        d := next;
      }
      assert order[..|order|] == order;
      if cursor.Some? && cursor.value != |missing| {
        return Err(CursorNotConsumed);
      }
      return Ok(counts);
    }

    /** Serve a validated group once no reader is outstanding: the serial loader, which starts its
        row reader only at the first miss. */
    method EnsureGroupProtected(active: set<nat>, protect: set<nat>, pipelined: bool, loads: nat -> Load)
      returns (r: Result<DemandCounts, DemandError>)
      requires Valid()
      modifies this`slotOf, this`expertAt, this`stored, this`clock, this`frequency, this`lastUse
      ensures Valid()
      ensures r == Err(InvalidGroup) <==> !ValidGroup(old(State()), active, protect)
      ensures r == Err(InvalidGroup) ==> State() == old(State())
      ensures r != Err(InvalidGroup) ==> Outcome(r, State(), Group(old(State()), active, protect, loads))
    {
      if !ValidGroup(State(), active, protect) {
        return Err(InvalidGroup);
      }
      AscendingSize(active, experts);
      r := ServeLazily(Ascending(active, experts), active + protect, pipelined, loads);
    }

    method ServeLazily(order: seq<nat>, protected: set<nat>, pipelined: bool, loads: nat -> Load)
      returns (r: Result<DemandCounts, DemandError>)
      requires Valid() && Distinct(order) && Within(order, protected) && |protected| <= capacity
      modifies this`slotOf, this`expertAt, this`stored, this`clock, this`frequency, this`lastUse
      ensures Valid()
      ensures Outcome(r, State(), Demand(old(State()), order, protected, loads))
    {
      ghost var p := State();
      var missing, cursor := None, None;
      var counts := DemandCounts(0, 0, 0);
      ghost var d := Served(p, None, 0, 0, 0);
      assert order[..0] == [];
      for k := 0 to |order|
        invariant Valid()
        invariant d == Demand(p, order[..k], protected, loads)
        invariant d == Served(State(), None, counts.hits, counts.misses, counts.evictions)
        invariant missing.None? ==> cursor.None? && slotOf == p.slotOf && Missing(p.slotOf, order[..k]) == []
        invariant missing.Some? ==> missing.value == Missing(p.slotOf, order)
        invariant cursor.Some? ==> missing.Some? && cursor.value == |Missing(p.slotOf, order[..k])|
      {
        MissesKnownUpFront(p, order, protected, loads, k);
        CursorMatches(p.slotOf, order, k);
        if order[k] !in slotOf {
          if missing.None? {
            missing := Some(Missing(slotOf, order));
            cursor := if pipelined && |missing.value| >= 2 then Some(0) else None;
          }
          if cursor.Some? {
            if cursor.value >= |missing.value| || missing.value[cursor.value] != order[k] {
              return Err(CursorOrderDiffers);
            }
            cursor := Some(cursor.value + 1);
          }
        }
        DemandExtends(p, order, protected, loads, k, d);
        ghost var next := ServeMore(d, order[k], protected, loads(order[k]));
        var served := ServeNext(order[k], protected, counts, loads(order[k]), {}, d);
        if served.Err? {
          return served;
        }
        counts := served.value;
        d := next;
      }
      assert order[..|order|] == order;
      if cursor.Some? && cursor.value != |missing.value| {
        return Err(CursorNotConsumed);
      }
      return Ok(counts);
    }

    /** The overlapped loader: readers of protected sources may be outstanding while rows load.
        It ends exactly as the serial loader does, and never meets a reader's slot. */
    method EnsureGroupDisjoint(active: set<nat>, protect: set<nat>, readers: set<nat>, start: ReaderStart, loads: nat -> Load)
      returns (r: Result<(), DemandError>)
      requires Valid() && ReadersHeld(State(), active + protect, readers)
      modifies this`slotOf, this`expertAt, this`stored, this`clock, this`frequency, this`lastUse
      ensures Valid()
      ensures (State(), r.Ok?) == LoadedPool(old(State()), active, protect, start, loads)
      ensures r.Err? ==> r.error in {InvalidGroup, ReaderFailed} || r.error.PoolFailed?
    {
      if !ValidGroup(State(), active, protect) {
        return Err(InvalidGroup);
      }
      var order := Ascending(active, experts);
      AscendingSize(active, experts);
      var missing := Missing(slotOf, order);
      if |missing| >= 2 && start.Failed? {
        return Err(ReaderFailed);
      }
      var served := ServeAll(order, active + protect, missing, start.Pipelined?, loads, readers);
      return if served.Ok? then Ok(()) else Err(served.error);
    }

    /** The selected sources as a set, if they are ten distinct known ids. */
    method CheckSources(sources: seq<nat>) returns (selected: Option<set<nat>>)
      ensures selected.Some? <==> ValidSelection(sources, experts)
      ensures selected.Some? ==> selected.value == Members(sources) && |selected.value| == TOP_K
    {
      SizeMeansDistinct(sources);
      if |sources| != TOP_K || |Members(sources)| != TOP_K || exists i :: 0 <= i < |sources| && sources[i] >= experts {
        return None;
      }
      return Some(Members(sources));
    }

    /** Make the ten selected sources resident and report their slots. */
    method Ensure(sources: seq<nat>, writable: bool, start: ReaderStart, loads: nat -> Load) returns (r: Result<seq<nat>, DemandError>)
      requires Valid()
      modifies this`slotOf, this`expertAt, this`stored, this`clock, this`frequency, this`lastUse
      ensures Valid()
      ensures r == Err(InvalidGroup) <==> !ValidSelection(sources, experts)
      ensures r.Err? ==> r.error in {InvalidGroup, NotWritable, ReaderFailed} || r.error.PoolFailed?
      ensures r == Err(NotWritable) <==> ValidSelection(sources, experts) && !writable && old(Absent(State(), Members(sources))) != {}
      ensures r == Err(ReaderFailed) <==>
                && ValidSelection(sources, experts) && (writable || old(Absent(State(), Members(sources))) == {})
                && |old(Absent(State(), Members(sources)))| >= 2 && start.Failed?
      ensures r.Err? && !r.error.PoolFailed? ==> State() == old(State())
      ensures r.Ok? || r.error.PoolFailed? ==> State() == Demand(old(State()), Ascending(Members(sources), experts), Members(sources), loads).pool
      ensures r.Ok? ==> |r.value| == |sources| && SlotsHold(State(), sources, r.value)
    {
      var checked := CheckSources(sources);
      if checked.None? {
        return Err(InvalidGroup);
      }
      var selected := checked.value;
      var order := Ascending(selected, experts);
      AscendingSize(selected, experts);
      AbsentSize(State(), selected);
      var missing := Missing(slotOf, order);
      if missing != [] && !writable {
        return Err(NotWritable);
      }
      if |missing| >= 2 && start.Failed? {
        return Err(ReaderFailed);
      }
      DemandKeeps(State(), order, selected, loads);
      var served := ServeAll(order, selected, missing, start.Pipelined?, loads, {});
      if served.Err? {
        return Err(served.error);
      }
      AscendingCovers(sources, experts, slotOf);
      r := LookUp(sources);
    }

    /** The published slots of resident sources, in the order asked. */
    method LookUp(sources: seq<nat>) returns (r: Result<seq<nat>, DemandError>)
      requires Valid() && Resident(sources, slotOf)
      ensures r.Ok? && |r.value| == |sources| && SlotsHold(State(), sources, r.value)
    {
      var slots := [];
      for i := 0 to |sources|
        invariant |slots| == i
        invariant forall j :: 0 <= j < i ==> slotOf[sources[j]] == slots[j]
      {
        if sources[i] !in slotOf {
          return Err(NotPublished);
        }
        if expertAt[slotOf[sources[i]]] != Some(sources[i]) {
          return Err(StaleMapping);
        }
        slots := slots + [slotOf[sources[i]]];
      }
      return Ok(slots);
    }

    /** Load and touch sources of an empty pool in the given order, all protected. */
    method SeedInOrder(order: seq<nat>, loads: nat -> Load) returns (error: Option<DemandError>)
      requires Valid() && slotOf == map[] && Distinct(order) && |order| <= capacity
      modifies this`slotOf, this`expertAt, this`stored, this`clock, this`frequency, this`lastUse
      ensures Valid()
      ensures var d := Demand(old(State()), order, Members(order), loads);
              State() == d.pool && error == if d.error.Some? then Some(PoolFailed(d.error.value)) else None
    {
      ghost var p := State();
      var protected := Members(order);
      DistinctSize(order);
      ghost var d := Served(p, None, 0, 0, 0);
      assert order[..0] == [];
      for k := 0 to |order|
        invariant Valid()
        invariant d == Demand(p, order[..k], protected, loads)
        invariant d.pool == State() && d.error.None?
      {
        DemandExtends(p, order, protected, loads, k, d);
        d := ServeMore(d, order[k], protected, loads(order[k]));
        error := ServeOne(order[k], protected, loads(order[k]), {});
        if error.Some? {
          return;
        }
      }
      assert order[..|order|] == order;
      return None;
    }

    /** Seed an empty pool with one touch per source, in ascending order. */
    method SeedResidents(sources: seq<nat>, loads: nat -> Load) returns (error: Option<DemandError>)
      requires Valid()
      modifies this`slotOf, this`expertAt, this`stored, this`clock, this`frequency, this`lastUse
      ensures Valid()
      ensures error == Some(InvalidGroup) <==> !Distinct(sources) || !ValidSeed(old(State()), Members(sources))
      ensures error == Some(InvalidGroup) ==> State() == old(State())
      ensures error != Some(InvalidGroup) ==>
                var d := Demand(old(State()), Ascending(Members(sources), experts), Members(sources), loads);
                State() == d.pool && error == if d.error.Some? then Some(PoolFailed(d.error.value)) else None
    {
      var selected := Members(sources);
      SizeMeansDistinct(sources);
      if |selected| != |sources| || !ValidSeed(State(), selected) {
        return Some(InvalidGroup);
      }
      AscendingSize(selected, experts);
      assert Members(Ascending(selected, experts)) == selected;
      error := SeedInOrder(Ascending(selected, experts), loads);
    }

    /** Install prior counts, preload the most used sources in rank order, then rescale. */
    method SeedHot(counts: map<nat, nat>, loads: nat -> Load) returns (error: Option<DemandError>)
      requires Valid()
      modifies this`slotOf, this`expertAt, this`stored, this`clock, this`frequency, this`lastUse
      ensures Valid()
      ensures error == Some(InvalidGroup) <==> !ValidHotlist(old(State()), counts)
      ensures error == Some(InvalidGroup) ==> State() == old(State())
      ensures error != Some(InvalidGroup) ==>
                var d := SeedHotlist(old(State()), counts, loads);
                State() == d.pool && error == if d.error.Some? then Some(PoolFailed(d.error.value)) else None
    {
      if !ValidHotlist(State(), counts) {
        return Some(InvalidGroup);
      }
      var hot := HotSources(State(), counts);
      RankingIsSorted(counts, experts);
      frequency := counts;
      error := SeedInOrder(hot, loads);
      if error.None? {
        frequency := Rescaled(frequency, TopCount(frequency, experts));
      }
    }

    /** Release whole slots beyond a target that ends a storage chunk, once the pool is idle. */
    method Release(target: nat, endsChunk: bool, idle: bool) returns (evicted: Option<nat>)
      requires Valid()
      modifies this
      ensures Valid()
      ensures evicted.Some? <==> TOP_K <= target < old(capacity) && endsChunk && idle
      ensures evicted.None? ==> State() == old(State())
      ensures evicted.Some? ==> State() == ReleaseSuffix(old(State()), target) && |slotOf| + evicted.value == |old(slotOf)|
    {
      if !(TOP_K <= target < capacity) || !endsChunk || !idle {
        return None;
      }
      ReleaseKeeps(State(), target);
      EvictedAccounted(slotOf, target);
      evicted := Some(|Beyond(slotOf, target)|);
      slotOf := Retained(slotOf, target);
      expertAt, stored, lastUse := expertAt[..target], stored[..target], lastUse[..target];
      capacity := target;
    }

    /** Append prepared empty slots. */
    method Grow(target: nat, prepared: bool) returns (grown: bool)
      requires Valid()
      modifies this
      ensures Valid()
      ensures grown <==> capacity > old(capacity)
      ensures State() == if old(capacity) < target < 512 && prepared then GrowSuffix(old(State()), target) else old(State())
    {
      if !(capacity < target < 512) || !prepared {
        return false;
      }
      GrowthKeeps(State(), target);
      var added := target - capacity;
      expertAt, stored := expertAt + seq(added, _ => None), stored + seq(added, _ => None);
      lastUse := lastUse + seq(added, _ => 0);
      capacity := target;
      return true;
    }
  }

  predicate ValidSelection(sources: seq<nat>, experts: nat) {
    && |sources| == TOP_K
    && (forall i, j :: 0 <= i < j < |sources| ==> sources[i] != sources[j])
    && (forall i :: 0 <= i < |sources| ==> sources[i] < experts)
  }

  /** Each source is published at its reported slot, whose buffers hold its complete row. */
  ghost predicate SlotsHold(p: Pool, sources: seq<nat>, slots: seq<nat>)
    requires |sources| == |slots|
  {
    forall i :: 0 <= i < |sources| ==>
      && sources[i] in p.slotOf && p.slotOf[sources[i]] == slots[i]
      && slots[i] < |p.stored| && p.stored[slots[i]] == Some(sources[i])
  }

  ghost predicate Resident(sources: seq<nat>, slotOf: map<nat, nat>) {
    forall i :: 0 <= i < |sources| ==> sources[i] in slotOf
  }

  lemma AscendingCovers(sources: seq<nat>, experts: nat, slotOf: map<nat, nat>)
    requires forall i :: 0 <= i < |sources| ==> sources[i] < experts
    requires Resident(Ascending(Members(sources), experts), slotOf)
    ensures Resident(sources, slotOf)
  {
    var order := Ascending(Members(sources), experts);
    forall i | 0 <= i < |sources| ensures sources[i] in slotOf {
      assert sources[i] in Members(sources);
      var k :| 0 <= k < |order| && order[k] == sources[i];
    }
  }

  /** Distinct sources are read from distinct slots. */
  lemma SlotsDistinct(p: Pool, sources: seq<nat>, slots: seq<nat>, i: nat, j: nat)
    requires Consistent(p) && |sources| == |slots| && SlotsHold(p, sources, slots) && Distinct(sources)
    requires i < j < |slots|
    ensures slots[i] != slots[j]
  {
  }

  lemma {:induction false} MembersSize(s: seq<nat>)
    ensures |Members(s)| <= |s|
    ensures |Members(s)| == |s| ==> Distinct(s)
  {
    if s != [] {
      MembersSize(s[1..]);
      assert Members(s) == Members(s[1..]) + {s[0]};
      if s[0] in s[1..] {
        assert Members(s) == Members(s[1..]);
      }
    }
  }

  lemma SizeMeansDistinct(s: seq<nat>)
    ensures |Members(s)| == |s| <==> Distinct(s)
  {
    MembersSize(s);
    if Distinct(s) {
      DistinctSize(s);
    }
  }

  lemma {:induction false} FirstEmptyIs(expertAt: seq<Option<nat>>, slot: nat, n: nat)
    requires slot < n <= |expertAt| && expertAt[slot].None? && FirstEmpty(expertAt, slot).None?
    ensures FirstEmpty(expertAt, n) == Some(slot)
  {
    if n > slot + 1 {
      FirstEmptyIs(expertAt, slot, n - 1);
    }
  }
}
