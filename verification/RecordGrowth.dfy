/** Reservation policy for the packed record backing: double in record units, never past the
    number of records the context can hold. */
module RecordGrowth {
  import opened Wrappers
  import opened KvarnLayout

  const USIZE_MAX: nat := 0xFFFF_FFFF_FFFF_FFFF

  datatype GrowthError = CountExceedsContext | ByteOverflow | ContextExhausted

  function CheckedMul(a: nat, b: nat): Option<nat> {
    if a * b <= USIZE_MAX then Some(a * b) else None
  }

  function Max(a: nat, b: nat): nat { if a < b then b else a }

  function Min(a: nat, b: nat): nat { if a < b then a else b }

  /** None when the current backing already holds the required records. */
  function RecordGrowthTarget(required: nat, capacityBytes: nat, maxRecords: nat): (r: Result<Option<nat>, GrowthError>)
    ensures required > maxRecords ==> r == Err(CountExceedsContext)
    ensures r.Ok? && r.value.None? ==> capacityBytes >= required * TILE_RECORD_BYTES
    ensures r.Ok? && r.value.Some? ==>
              && capacityBytes < required * TILE_RECORD_BYTES <= r.value.value <= maxRecords * TILE_RECORD_BYTES
              && r.value.value % TILE_RECORD_BYTES == 0
  {
    if required > maxRecords then Err(CountExceedsContext) else
    match CheckedMul(required, TILE_RECORD_BYTES)
    case None => Err(ByteOverflow)
    case Some(requiredBytes) =>
      if capacityBytes >= requiredBytes then Ok(None) else
      match CheckedMul(Max(capacityBytes / TILE_RECORD_BYTES, 1), 2)
      case None => Err(ByteOverflow)
      case Some(doubled) =>
        WholeRecords(Max(required, Min(doubled, maxRecords)));
        match CheckedMul(Max(required, Min(doubled, maxRecords)), TILE_RECORD_BYTES)
        case None => Err(ByteOverflow)
        case Some(targetBytes) => Ok(Some(targetBytes))
  }

  lemma WholeRecords(records: nat)
    ensures records * TILE_RECORD_BYTES % TILE_RECORD_BYTES == 0
  {
  }

  /** The growth an append to frontier `next` would need. */
  function RecordGrowthAtFrontier(next: nat, capacityBytes: nat, maxContext: nat): (r: Result<Option<nat>, GrowthError>)
    ensures next <= maxContext <= MAX_CONTEXT_TOKENS ==> r.Ok?
    ensures r.Ok? && r.value.Some? ==> capacityBytes < RecordCount(next) * TILE_RECORD_BYTES <= r.value.value
  {
    if next > maxContext then Err(ContextExhausted)
    else
      assert maxContext <= MAX_CONTEXT_TOKENS && next <= maxContext ==> RecordCount(next) <= RecordCount(maxContext) <= 1983;
      RecordGrowthTarget(PackedTiles(next), capacityBytes, PackedTiles(maxContext))
  }

  /** Within the released context range the only error is asking for too many records. */
  lemma NoOverflowInContext(required: nat, capacityBytes: nat, maxContext: nat)
    requires maxContext <= MAX_CONTEXT_TOKENS
    ensures RecordGrowthTarget(required, capacityBytes, RecordCount(maxContext)).Ok? <==> required <= RecordCount(maxContext)
  {
    assert RecordCount(maxContext) <= 1983;
  }

  /** Growth takes the least that doubling and the requirement allow: when the backing held some
      records the target holds the requirement exactly, or twice what was held, or the context's
      maximum, whichever of the first two is larger within the third; so it is never more than twice
      what is needed. */
  lemma GrowthIsLeast(required: nat, capacityBytes: nat, maxRecords: nat)
    requires RecordGrowthTarget(required, capacityBytes, maxRecords).Ok? && RecordGrowthTarget(required, capacityBytes, maxRecords).value.Some?
    ensures var target, held := RecordGrowthTarget(required, capacityBytes, maxRecords).value.value / TILE_RECORD_BYTES, capacityBytes / TILE_RECORD_BYTES;
            && required <= target <= maxRecords && held < required
            && (target >= 2 * held || target == maxRecords)
            && (target == required || target == 2 * held || target == 2 || target == maxRecords)
            && (target > required ==> target <= 2 * held || target == 2)
            && target <= 2 * required
  {
  }

  /** A backing and the total size of the old backings moved to reach it. */
  datatype Backing = Backing(capacity: nat, moved: nat)

  function Grow(b: Backing, required: nat, maxRecords: nat): Backing {
    match RecordGrowthTarget(required, b.capacity, maxRecords)
    case Ok(Some(target)) => Backing(target, b.moved + b.capacity)
    case _ => b
  }

  function GrowRun(requests: seq<nat>, maxRecords: nat): Backing {
    if requests == [] then Backing(0, 0)
    else Grow(GrowRun(requests[..|requests| - 1], maxRecords), requests[|requests| - 1], maxRecords)
  }

  /** Below the cap, everything moved so far is less than the current backing. */
  ghost predicate Amortised(b: Backing, maxRecords: nat) {
    && b.capacity % TILE_RECORD_BYTES == 0
    && b.capacity <= maxRecords * TILE_RECORD_BYTES
    && (b.capacity == 0 ==> b.moved == 0)
    && (0 < b.capacity < maxRecords * TILE_RECORD_BYTES ==> b.moved < b.capacity)
    && (0 < b.capacity ==> b.moved < 2 * b.capacity)
  }

  lemma GrowAmortised(b: Backing, required: nat, maxRecords: nat)
    requires Amortised(b, maxRecords) && required <= maxRecords && maxRecords <= RecordCount(MAX_CONTEXT_TOKENS)
    ensures Amortised(Grow(b, required, maxRecords), maxRecords)
    ensures Grow(b, required, maxRecords).capacity >= b.capacity
    ensures Grow(b, required, maxRecords).capacity >= required * TILE_RECORD_BYTES
  {
    NoOverflowInContext(required, b.capacity, MAX_CONTEXT_TOKENS);
    var held := b.capacity / TILE_RECORD_BYTES;
    assert b.capacity == held * TILE_RECORD_BYTES;
    if b.capacity < required * TILE_RECORD_BYTES {
      var next := Max(required, Min(2 * Max(held, 1), maxRecords));
      assert next == maxRecords || next >= 2 * held;
    }
  }

  /** Over every run of growth from empty: the backing holds every request so far, stays within
      the context's records, and the old backings moved total less than twice the final one. */
  lemma {:induction false} GrowthRunBounds(requests: seq<nat>, maxContext: nat)
    requires maxContext <= MAX_CONTEXT_TOKENS
    requires forall k :: 0 <= k < |requests| ==> requests[k] <= RecordCount(maxContext)
    ensures var b := GrowRun(requests, RecordCount(maxContext));
            && Amortised(b, RecordCount(maxContext))
            && (forall k :: 0 <= k < |requests| ==> requests[k] * TILE_RECORD_BYTES <= b.capacity)
  {
    if requests != [] {
      var prefix := requests[..|requests| - 1];
      GrowthRunBounds(prefix, maxContext);
      GrowAmortised(GrowRun(prefix, RecordCount(maxContext)), requests[|requests| - 1], RecordCount(maxContext));
      assert forall k :: 0 <= k < |prefix| ==> requests[k] == prefix[k];
    }
  }
}
