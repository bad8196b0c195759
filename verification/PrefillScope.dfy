/** The overlap protocol of prefill: rows of the next group load while GPU work on up to two
    earlier groups may still be reading the pool. */
module PrefillScope {
  import opened Wrappers
  import opened ExpertPool
  import opened ExpertDemand
  import opened ExpertOps
  import opened Experts

  const PREFILL_SOURCES: nat := 512

  /** One loaded group and the slots its encoded work reads. */
  datatype PrefillGroup = PrefillGroup(sources: set<nat>, slots: set<nat>, slotMap: map<nat, nat>, submitted: bool)

  /** A scope, the pool it owns, and the submitted reader batches that may still be running. */
  datatype Scope = Scope(pool: Pool, groups: seq<PrefillGroup>, inFlight: seq<map<nat, nat>>, finished: bool, failed: bool)

  datatype Event =
    | Retire(waited: bool)
    | LoadGroup(active: set<nat>, start: ReaderStart, loads: nat -> Load)
    | Submit(encoded: bool, flushed: bool)
    | Finish

  /** The slots of a group, one per source, or None if a source is missing or slots alias. */
  function Capture(sources: set<nat>, slotOf: map<nat, nat>, capacity: nat): Option<PrefillGroup> {
    if sources == {} || exists s :: s in sources && (s !in slotOf || slotOf[s] >= capacity) then None
    else
      var slots := set s | s in sources :: slotOf[s];
      if |slots| != |sources| then None
      else Some(PrefillGroup(sources, slots, map s | s in sources :: slotOf[s], false))
  }

  function Sources(groups: seq<PrefillGroup>): set<nat> {
    set g, s | g in groups && s in g.sources :: s
  }

  function Slots(groups: seq<PrefillGroup>): set<nat> {
    set g, s | g in groups && s in g.slots :: s
  }

  predicate AllSubmitted(groups: seq<PrefillGroup>) {
    forall g :: g in groups ==> g.submitted
  }

  /** A failed step drains every command before anything else can touch the pool. */
  function Drained(s: Scope): Scope {
    s.(failed := true, inFlight := [])
  }

  function NewScope(pool: Pool): Scope {
    Scope(pool, [], [], false, false)
  }

  function RetireStep(s: Scope, waited: bool): Scope {
    if |s.groups| != 2 then s
    else if !s.groups[0].submitted || !waited || s.inFlight == [] then Drained(s)
    else s.(groups := s.groups[1..], inFlight := s.inFlight[1..])
  }

  function LoadStep(s: Scope, active: set<nat>, start: ReaderStart, loads: nat -> Load): Scope
    requires Consistent(s.pool)
  {
    if |s.groups| >= 2 || !AllSubmitted(s.groups) then Drained(s)
    else
      var (q, served) := LoadedPool(s.pool, active, Sources(s.groups), start, loads);
      AfterLoad(s.(pool := q), active, served)
  }

  /** Capture the slots of a group just served; anything else drains the scope. */
  function AfterLoad(s: Scope, active: set<nat>, served: bool): Scope {
    if !served || s.pool.experts != PREFILL_SOURCES then Drained(s)
    else AddCaptured(s, Capture(active, s.pool.slotOf, s.pool.capacity))
  }

  function AddCaptured(s: Scope, captured: Option<PrefillGroup>): Scope {
    match captured
    case None => Drained(s)
    case Some(group) => s.(groups := s.groups + [group])
  }

  function SubmitStep(s: Scope, encoded: bool, flushed: bool): Scope {
    if s.groups == [] then Drained(s)
    else
      var last := s.groups[|s.groups| - 1];
      if last.submitted || !encoded || !flushed then Drained(s)
      else s.(groups := s.groups[|s.groups| - 1 := last.(submitted := true)], inFlight := s.inFlight + [last.slotMap])
  }

  function FinishStep(s: Scope): Scope {
    if AllSubmitted(s.groups) then s.(finished := true) else Drained(s)
  }

  function Step(s: Scope, event: Event): Scope
    requires Consistent(s.pool)
  {
    if s.failed || s.finished then s else
    match event
    case Retire(waited) => RetireStep(s, waited)
    case LoadGroup(active, start, loads) => LoadStep(s, active, start, loads)
    case Submit(encoded, flushed) => SubmitStep(s, encoded, flushed)
    case Finish => FinishStep(s)
  }

  // ----- the invariant

  /** A group's sources are still published at exactly the slots it captured. */
  ghost predicate Held(p: Pool, g: PrefillGroup) {
    && g.slotMap.Keys == g.sources
    && (forall s :: s in g.sources ==> s in p.slotOf && p.slotOf[s] == g.slotMap[s])
    && (forall slot :: slot in g.slots ==> exists s :: s in g.sources && g.slotMap[s] == slot)
  }

  /** The running batches are the maps of the submitted groups; only the last group may be unsubmitted. */
  ghost predicate Aligned(groups: seq<PrefillGroup>, inFlight: seq<map<nat, nat>>) {
    && |inFlight| <= |groups| <= |inFlight| + 1
    && (forall i :: 0 <= i < |inFlight| ==> groups[i].submitted && inFlight[i] == groups[i].slotMap)
    && (|groups| == |inFlight| + 1 ==> !groups[|inFlight|].submitted)
  }

  ghost predicate Safe(s: Scope) {
    && Consistent(s.pool)
    && |s.groups| <= 2
    && (s.failed ==> s.inFlight == [])
    && (!s.failed ==> Aligned(s.groups, s.inFlight) && forall g :: g in s.groups ==> Held(s.pool, g))
  }

  /** Every slot a running batch reads still holds the complete row of the source it reads it for. */
  ghost predicate ReadersIntact(p: Pool, inFlight: seq<map<nat, nat>>) {
    forall k, s :: 0 <= k < |inFlight| && s in inFlight[k] ==>
      s in p.slotOf && p.slotOf[s] == inFlight[k][s] && inFlight[k][s] < |p.stored| && p.stored[inFlight[k][s]] == Some(s)
  }

  lemma SafeReadersIntact(s: Scope)
    requires Safe(s)
    ensures ReadersIntact(s.pool, s.inFlight)
  {
    forall k, x | 0 <= k < |s.inFlight| && x in s.inFlight[k]
      ensures x in s.pool.slotOf && s.pool.slotOf[x] == s.inFlight[k][x]
    {
      assert s.groups[k] in s.groups;
    }
  }

  lemma HeldKept(p: Pool, q: Pool, groups: seq<PrefillGroup>, protected: set<nat>)
    requires KeepsProtected(p, q, protected) && Sources(groups) <= protected
    requires forall g :: g in groups ==> Held(p, g)
    ensures forall g :: g in groups ==> Held(q, g)
  {
    forall g | g in groups ensures Held(q, g) {
      forall s | s in g.sources ensures s in q.slotOf && q.slotOf[s] == g.slotMap[s] {
        assert s in Sources(groups);
      }
    }
  }

  /** The scope's reader slots are all occupied by the sources it protects. */
  lemma ScopeReadersHeld(s: Scope, active: set<nat>)
    requires Safe(s) && !s.failed
    ensures ReadersHeld(s.pool, active + Sources(s.groups), Slots(s.groups))
  {
    forall slot | slot in Slots(s.groups)
      ensures slot < |s.pool.expertAt| && s.pool.expertAt[slot].Some? && s.pool.expertAt[slot].value in active + Sources(s.groups)
    {
      var g :| g in s.groups && slot in g.slots;
      var x :| x in g.sources && g.slotMap[x] == slot;
      assert x in Sources(s.groups);
    }
  }

  /** Whatever a load does, before or after failing, no unretired group's source moves. */
  lemma LoadKeepsGroups(s: Scope, active: set<nat>, start: ReaderStart, loads: nat -> Load)
    requires Safe(s) && !s.failed
    ensures var q := LoadedPool(s.pool, active, Sources(s.groups), start, loads).0;
            Consistent(q) && q.experts == s.pool.experts && forall g :: g in s.groups ==> Held(q, g)
  {
    var protect := Sources(s.groups);
    if ValidGroup(s.pool, active, protect) {
      GroupServes(s.pool, active, protect, loads);
      HeldKept(s.pool, Group(s.pool, active, protect, loads).pool, s.groups, active + protect);
    }
  }

  /** Every row written during a load lands outside every running reader: the batches are intact
      in each intermediate pool, after each prefix of the group. */
  lemma LoadNeverTouchesReaders(s: Scope, active: set<nat>, loads: nat -> Load, n: nat)
    requires Safe(s) && !s.failed && ValidGroup(s.pool, active, Sources(s.groups))
    requires n <= |Ascending(active, s.pool.experts)|
    ensures ReadersIntact(Demand(s.pool, Ascending(active, s.pool.experts)[..n], active + Sources(s.groups), loads).pool, s.inFlight)
  {
    var protected := active + Sources(s.groups);
    var prefix := Ascending(active, s.pool.experts)[..n];
    DemandKeeps(s.pool, prefix, protected, loads);
    var q := Demand(s.pool, prefix, protected, loads).pool;
    HeldKept(s.pool, q, s.groups, protected);
    SafeReadersIntact(s.(pool := q));
  }

  lemma SlotsInjective(slotOf: map<nat, nat>, sources: set<nat>)
    requires forall s :: s in sources ==> s in slotOf
    requires forall a, b :: a in sources && b in sources && slotOf[a] == slotOf[b] ==> a == b
    ensures |(set s | s in sources :: slotOf[s])| == |sources|
    decreases |sources|
  {
    if sources != {} {
      var x :| x in sources;
      var rest := sources - {x};
      SlotsInjective(slotOf, rest);
      assert (set s | s in sources :: slotOf[s]) == (set s | s in rest :: slotOf[s]) + {slotOf[x]};
    }
  }

  lemma CaptureHeld(q: Pool, active: set<nat>)
    requires Consistent(q) && active != {} && active <= q.slotOf.Keys
    ensures var g := Capture(active, q.slotOf, q.capacity);
            g.Some? && !g.value.submitted && g.value.sources == active && Held(q, g.value)
  {
    SlotsInjective(q.slotOf, active);
  }

  /** After a served load the captured map is never missing a source and never aliases. */
  lemma ServedGroupResident(p: Pool, active: set<nat>, protect: set<nat>, start: ReaderStart, loads: nat -> Load)
    requires Consistent(p) && LoadedPool(p, active, protect, start, loads).1
    ensures active != {} && active <= LoadedPool(p, active, protect, start, loads).0.slotOf.Keys
  {
    GroupServes(p, active, protect, loads);
  }

  lemma AfterLoadSafe(before: Scope, q: Pool, active: set<nat>, served: bool)
    requires Safe(before) && !before.failed && |before.groups| < 2 && AllSubmitted(before.groups)
    requires Consistent(q) && forall g :: g in before.groups ==> Held(q, g)
    requires served ==> active != {} && active <= q.slotOf.Keys
    ensures var t := AfterLoad(before.(pool := q), active, served);
            Safe(t) && t.pool == q && (served && q.experts == PREFILL_SOURCES ==> !t.failed)
  {
    var s := before.(pool := q);
    if served && s.pool.experts == PREFILL_SOURCES {
      CaptureHeld(s.pool, active);
      var g := Capture(active, s.pool.slotOf, s.pool.capacity).value;
      var groups := s.groups + [g];
      assert forall i :: 0 <= i < |s.groups| ==> s.groups[i].submitted;
      forall h | h in groups ensures Held(s.pool, h) {
        assert h == g || h in s.groups;
      }
    }
  }

  lemma LoadSafe(s: Scope, active: set<nat>, start: ReaderStart, loads: nat -> Load)
    requires Safe(s) && !s.failed
    ensures Safe(LoadStep(s, active, start, loads)) && LoadStep(s, active, start, loads).pool.experts == s.pool.experts
  {
    if |s.groups| < 2 && AllSubmitted(s.groups) {
      var (q, served) := LoadedPool(s.pool, active, Sources(s.groups), start, loads);
      LoadKeepsGroups(s, active, start, loads);
      if served {
        ServedGroupResident(s.pool, active, Sources(s.groups), start, loads);
      }
      AfterLoadSafe(s, q, active, served);
    }
  }

  lemma RetireSafe(s: Scope, waited: bool)
    requires Safe(s) && !s.failed
    ensures Safe(RetireStep(s, waited)) && RetireStep(s, waited).pool == s.pool
    ensures |s.groups| == 2 ==> s.groups[0].submitted && s.inFlight != []
  {
    var t := RetireStep(s, waited);
    if !t.failed {
      forall g | g in t.groups ensures Held(t.pool, g) {
        assert g in s.groups;
      }
    }
  }

  lemma StepSafe(s: Scope, event: Event)
    requires Safe(s)
    ensures Safe(Step(s, event)) && Step(s, event).pool.experts == s.pool.experts
  {
    if !s.failed && !s.finished {
      match event
      case Retire(waited) => RetireSafe(s, waited);
      case LoadGroup(active, start, loads) => LoadSafe(s, active, start, loads);
      case Submit(encoded, flushed) => SubmitSafe(s, encoded, flushed);
      case Finish =>
    }
  }

  lemma SubmitSafe(s: Scope, encoded: bool, flushed: bool)
    requires Safe(s) && !s.failed
    ensures Safe(SubmitStep(s, encoded, flushed)) && SubmitStep(s, encoded, flushed).pool == s.pool
  {
    if s.groups != [] {
      var last := s.groups[|s.groups| - 1];
      assert last in s.groups;
      var t := SubmitStep(s, encoded, flushed);
      if !t.failed {
        forall g | g in t.groups ensures Held(t.pool, g) {
          assert g == last.(submitted := true) || g in s.groups;
        }
      }
    }
  }

  function Run(s: Scope, events: seq<Event>): (t: Scope)
    requires Safe(s)
    ensures Safe(t)
    decreases |events|
  {
    if events == [] then s else
    StepSafe(s, events[0]);
    Run(Step(s, events[0]), events[1..])
  }

  /** In every run of a scope, every running reader sees the complete rows it was encoded for, and
      while the scope lives no unretired group's source has left its captured slot. */
  lemma RunReadersIntact(pool: Pool, events: seq<Event>)
    requires Consistent(pool)
    ensures var t := Run(NewScope(pool), events);
            && ReadersIntact(t.pool, t.inFlight)
            && (!t.failed ==> forall g :: g in t.groups ==> Held(t.pool, g))
  {
    SafeReadersIntact(Run(NewScope(pool), events));
  }

  // ----- the scope as an object

  class PrefillLoadScope {
    const pool: BoundedExperts
    var groups: seq<PrefillGroup>
    var finished: bool
    var failed: bool
    // submitted batches not yet known complete
    ghost var inFlight: seq<map<nat, nat>>

    ghost function State(): Scope
      reads this, pool
    {
      Scope(pool.State(), groups, inFlight, finished, failed)
    }

    ghost predicate Valid()
      reads this, pool
    {
      pool.Valid() && Safe(State())
    }

    constructor (pool: BoundedExperts)
      requires pool.Valid()
      ensures Valid() && this.pool == pool && State() == NewScope(pool.State())
    {
      this.pool, groups, finished, failed, inFlight := pool, [], false, false, [];
    }

    /** Record a failure and wait out every submitted command. */
    method Abort()
      requires Valid()
      modifies this`failed, this`inFlight
      ensures Valid() && State() == Drained(old(State()))
    {
      failed := true;
      inFlight := [];
    }

    method RetirePrevious(waited: bool) returns (ok: bool)
      requires Valid() && !finished
      modifies this
      ensures Valid() && State() == Step(old(State()), Retire(waited))
      ensures ok <==> !failed
    {
      StepSafe(State(), Retire(waited));
      if failed {
        return false;
      }
      if |groups| == 2 {
        RetireSafe(State(), waited);
        if !groups[0].submitted || !waited {
          Abort();
          return false;
        }
        groups := groups[1..];
        inFlight := inFlight[1..];
      }
      return true;
    }

    method Load(active: set<nat>, start: ReaderStart, loads: nat -> Load) returns (ok: bool)
      requires Valid() && !finished
      modifies this, pool
      ensures Valid() && State() == Step(old(State()), LoadGroup(active, start, loads))
      ensures ok <==> !failed
    {
      if failed {
        return false;
      }
      LoadSafe(State(), active, start, loads);
      if |groups| >= 2 || !AllSubmitted(groups) {
        Abort();
        return false;
      }
      ScopeReadersHeld(State(), active);
      LoadKeepsGroups(State(), active, start, loads);
      var loaded := pool.EnsureGroupDisjoint(active, Sources(groups), Slots(groups), start, loads);
      ConcludeLoad(active, loaded.Ok?);
      return !failed;
    }

    /** Record the slots of a group just loaded, or fail. */
    method ConcludeLoad(active: set<nat>, served: bool)
      requires !failed
      modifies this
      ensures State() == AfterLoad(old(State()), active, served)
    {
      if !served || pool.experts != PREFILL_SOURCES {
        failed, inFlight := true, [];
        return;
      }
      match Capture(active, pool.slotOf, pool.capacity) {
        case None => failed, inFlight := true, [];
        case Some(group) => groups := groups + [group];
      }
    }

    method SubmitGroup(encoded: bool, flushed: bool) returns (ok: bool)
      requires Valid() && !finished
      modifies this
      ensures Valid() && State() == Step(old(State()), Submit(encoded, flushed))
      ensures ok <==> !failed
    {
      StepSafe(State(), Submit(encoded, flushed));
      if failed {
        return false;
      }
      if groups == [] || groups[|groups| - 1].submitted || !encoded || !flushed {
        Abort();
        return false;
      }
      var last := groups[|groups| - 1];
      groups := groups[|groups| - 1 := last.(submitted := true)];
      inFlight := inFlight + [last.slotMap];
      return true;
    }

    method FinishScope() returns (ok: bool)
      requires Valid() && !finished
      modifies this
      ensures Valid() && State() == Step(old(State()), Finish)
      ensures ok <==> finished
    {
      StepSafe(State(), Finish);
      if failed {
        return false;
      }
      if !AllSubmitted(groups) {
        Abort();
        return false;
      }
      finished := true;
      return true;
    }
  }
}
