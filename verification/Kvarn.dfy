/** The host KVarN state: appends of head-major BF16 rows into fixed sink and tail buffers,
    sealing at most one packed tile per call. */
module Kvarn {
  import opened Wrappers
  import opened KvarnLayout
  import opened RecordGrowth
  import opened Bf16

  datatype AppendError =
    | IncompleteTokens
    | ValueShapeDiffers
    | NonFinite
    | ContextCapacityExhausted
    | CrossesTileSeal
    | CrossesMultipleSeals
    | GrowthRejected(cause: GrowthError)
    | BelowOccupied
    | ReservationFailed
    | EncoderFailed
    | IncompleteRecord

  predicate FiniteRows(cells: seq<HeadRow>) {
    forall i, c :: 0 <= i < |cells| && 0 <= c < |cells[i].words| ==> FiniteBf16(cells[i].words[c])
  }

  ghost predicate FinitePlane(x: Plane) {
    forall i, h: nat :: 0 <= i < |x| && h < KV_HEADS ==> FiniteRows([x[i].Head(h)])
  }

  lemma FiniteAppended(x: Plane, cells: seq<HeadRow>)
    requires FinitePlane(x) && |cells| % KV_HEADS == 0 && FiniteRows(cells)
    ensures FinitePlane(x + Rows(cells))
  {
    var y := x + Rows(cells);
    forall i, h: nat | 0 <= i < |y| && h < KV_HEADS ensures FiniteRows([y[i].Head(h)]) {
      if i < |x| {
        assert y[i] == x[i];
      } else {
        assert y[i] == TokenAt(cells, i - |x|);
      }
    }
  }

  /** Token t of a head-major [2, tokens] block. */
  function TokenAt(cells: seq<HeadRow>, t: nat): TokenRow
    requires |cells| % KV_HEADS == 0 && t < |cells| / KV_HEADS
  {
    TokenRow(cells[t], cells[|cells| / KV_HEADS + t])
  }

  /** A head-major block read as the sequence of its tokens. */
  function Rows(cells: seq<HeadRow>): (x: Plane)
    requires |cells| % KV_HEADS == 0
    ensures |x| == |cells| / KV_HEADS
  {
    seq(|cells| / KV_HEADS, t requires 0 <= t < |cells| / KV_HEADS => TokenAt(cells, t))
  }

  /** One row of the next tile: from the ring below the frontier, else from the incoming rows. */
  function TileCell(tail: seq<HeadRow>, frontier: nat, cells: seq<HeadRow>, logical: nat, head: nat): HeadRow
    requires |tail| == KV_HEADS * TAIL_CAPACITY && |cells| % KV_HEADS == 0
    requires head < KV_HEADS && SINK_TOKENS <= logical < frontier + |cells| / KV_HEADS
  {
    if logical < frontier then
      tail[head * TAIL_CAPACITY + (logical - SINK_TOKENS) % TAIL_CAPACITY]
    else
      assert head == 0 || head == 1;
      cells[head * (|cells| / KV_HEADS) + (logical - frontier)]
  }

  lemma TileCellIsOriginal(x: Plane, cells: seq<HeadRow>, logical: nat, head: nat)
    requires |cells| % KV_HEADS == 0 && head < KV_HEADS
    requires SINK_TOKENS <= logical < |x| + |cells| / KV_HEADS && |x| - logical <= TAIL_CAPACITY
    ensures TileCell(Ring(x), |x|, cells, logical, head) == (x + Rows(cells))[logical].Head(head)
  {
    if logical < |x| {
      RingHoldsRecent(x, logical, head);
    } else {
      assert (x + Rows(cells))[logical] == TokenAt(cells, logical - |x|);
    }
  }

  /** Collect the rows of the next tile, partly from the ring and partly from the incoming rows. */
  method GatherTile(tail: seq<HeadRow>, frontier: nat, cells: seq<HeadRow>, ghost x: Plane) returns (tile: seq<HeadRow>)
    requires |cells| % KV_HEADS == 0 && |x| == frontier && tail == Ring(x)
    requires frontier + |cells| / KV_HEADS == NextSeal(RecordCount(frontier))
    ensures tile == Tile(x + Rows(cells), RecordCount(frontier))
  {
    var tileStart := SINK_TOKENS + RecordCount(frontier) * TILE_TOKENS;
    ghost var all := x + Rows(cells);
    tile := [];
    for tileToken := 0 to TILE_TOKENS
      invariant |tile| == tileToken * KV_HEADS
      invariant forall j :: 0 <= j < |tile| ==> tile[j] == all[tileStart + j / KV_HEADS].Head(j % KV_HEADS)
    {
      var logical := tileStart + tileToken;
      for head := 0 to KV_HEADS
        invariant |tile| == tileToken * KV_HEADS + head
        invariant forall j :: 0 <= j < |tile| ==> tile[j] == all[tileStart + j / KV_HEADS].Head(j % KV_HEADS)
      {
        TileCellIsOriginal(x, cells, logical, head);
        tile := tile + [TileCell(tail, frontier, cells, logical, head)];
      }
    }
  }

  /** Copy both heads of one incoming token to a slot of a head-major buffer. */
  method WriteHeads(buffer: array<HeadRow>, stride: nat, slot: nat, cells: seq<HeadRow>, token: nat)
    requires buffer.Length == KV_HEADS * stride && slot < stride
    requires |cells| % KV_HEADS == 0 && token < |cells| / KV_HEADS
    modifies buffer
    ensures buffer[..] == PlaceHeads(old(buffer[..]), stride, slot, TokenAt(cells, token), KV_HEADS)
  {
    var tokens := |cells| / KV_HEADS;
    ghost var before := buffer[..];
    for head := 0 to KV_HEADS
      invariant buffer[..] == PlaceHeads(before, stride, slot, TokenAt(cells, token), head)
    {
      assert head == 0 || head == 1;
      ghost var now := buffer[..];
      buffer[head * stride + slot] := cells[head * tokens + token];
      assert buffer[..] == now[head * stride + slot := TokenAt(cells, token).Head(head)];
    }
  }

  /** Write one incoming token past the rows y already stored. */
  method WriteToken(sink: array<HeadRow>, tail: array<HeadRow>, logical: nat, cells: seq<HeadRow>, token: nat, ghost y: Plane)
    requires sink != tail && |cells| % KV_HEADS == 0 && token < |cells| / KV_HEADS && |y| == logical
    requires sink[..] == Sink(y) && tail[..] == Ring(y)
    modifies sink, tail
    ensures sink[..] == Sink(y + [TokenAt(cells, token)]) && tail[..] == Ring(y + [TokenAt(cells, token)])
  {
    SinkStep(y, TokenAt(cells, token));
    RingStep(y, TokenAt(cells, token));
    if logical < SINK_TOKENS {
      WriteHeads(sink, SINK_TOKENS, logical, cells, token);
    } else {
      WriteHeads(tail, TAIL_CAPACITY, (logical - SINK_TOKENS) % TAIL_CAPACITY, cells, token);
    }
  }

  /** Write a block's rows past the frontier into one plane's sink and ring. */
  method WritePlane(sink: array<HeadRow>, tail: array<HeadRow>, frontier: nat, cells: seq<HeadRow>, ghost x: Plane)
    requires sink != tail && |cells| % KV_HEADS == 0 && |x| == frontier
    requires sink[..] == Sink(x) && tail[..] == Ring(x)
    modifies sink, tail
    ensures sink[..] == Sink(x + Rows(cells)) && tail[..] == Ring(x + Rows(cells))
  {
    ghost var y, rows := x, Rows(cells);
    for token := 0 to |cells| / KV_HEADS
      invariant y == x + rows[..token]
      invariant sink[..] == Sink(y) && tail[..] == Ring(y)
    {
      assert rows[token] == TokenAt(cells, token);
      WriteToken(sink, tail, frontier + token, cells, token, y);
      y := y + [rows[token]];
    }
    assert y == x + rows;
  }

  lemma TileIsStable(x: Plane, more: Plane, r: nat)
    requires r < RecordCount(|x|)
    ensures Tile(x + more, r) == Tile(x, r)
  {
  }

  /** Records stay correct when rows are added without a seal. */
  lemma RecordsKept(records: seq<Byte>, encode: Encoder, keys: Plane, values: Plane, moreKeys: Plane, moreValues: Plane)
    requires |keys| == |values| && |moreKeys| == |moreValues|
    requires RecordsMatch(records, encode, keys, values)
    requires RecordCount(|keys| + |moreKeys|) == RecordCount(|keys|)
    ensures RecordsMatch(records, encode, keys + moreKeys, values + moreValues)
  {
    forall r: nat | r < RecordCount(|keys|)
      ensures TileEncoded(records, encode, keys + moreKeys, values + moreValues, r)
    {
      assert TileEncoded(records, encode, keys, values, r);
      TileIsStable(keys, moreKeys, r);
      TileIsStable(values, moreValues, r);
    }
  }

  /** Records stay correct when the added rows complete the next tile and its encoding is pushed. */
  lemma RecordsSealed(records: seq<Byte>, encode: Encoder, keys: Plane, values: Plane, moreKeys: Plane, moreValues: Plane, record: seq<Byte>)
    requires |keys| == |values| && |moreKeys| == |moreValues|
    requires RecordsMatch(records, encode, keys, values)
    requires RecordCount(|keys| + |moreKeys|) == RecordCount(|keys|) + 1
    requires |record| == TILE_RECORD_BYTES
    requires encode(Tile(keys + moreKeys, RecordCount(|keys|)), Tile(values + moreValues, RecordCount(|keys|))) == Some(record)
    ensures RecordsMatch(records + record, encode, keys + moreKeys, values + moreValues)
  {
    var n := RecordCount(|keys|);
    forall r: nat | r < n + 1
      ensures TileEncoded(records + record, encode, keys + moreKeys, values + moreValues, r)
    {
      var slice := (records + record)[r * TILE_RECORD_BYTES..(r + 1) * TILE_RECORD_BYTES];
      if r < n {
        assert TileEncoded(records, encode, keys, values, r);
        TileIsStable(keys, moreKeys, r);
        TileIsStable(values, moreValues, r);
        assert slice == records[r * TILE_RECORD_BYTES..(r + 1) * TILE_RECORD_BYTES];
      } else {
        assert slice == record;
      }
    }
  }

  /** If the rows reach the next seal, the completed tile encodes to a whole record. */
  ghost predicate Sealable(encode: Encoder, keyLog: Plane, valueLog: Plane, keys: seq<HeadRow>, values: seq<HeadRow>)
    requires |keyLog| == |valueLog| && |keys| % KV_HEADS == 0 && |values| == |keys|
  {
    |keyLog| + |keys| / KV_HEADS == NextSeal(RecordCount(|keyLog|)) ==>
      var r := RecordCount(|keyLog|);
      var record := encode(Tile(keyLog + Rows(keys), r), Tile(valueLog + Rows(values), r));
      record.Some? && |record.value| == TILE_RECORD_BYTES
  }

  predicate WellFormed(maxContext: nat, frontier: nat, keys: seq<HeadRow>, values: seq<HeadRow>) {
    && keys != [] && |keys| % KV_HEADS == 0 && |values| == |keys|
    && FiniteRows(keys) && FiniteRows(values)
    && frontier + |keys| / KV_HEADS <= maxContext
    && frontier + |keys| / KV_HEADS <= NextSeal(RecordCount(frontier))
  }

  /** An append is accepted exactly when its rows are complete and finite, fit the context and
      the next seal, any reservation succeeds, and any sealed tile encodes to a whole record. */
  ghost predicate Admissible(maxContext: nat, recordCapacity: nat, encode: Encoder, keyLog: Plane, valueLog: Plane,
                             keys: seq<HeadRow>, values: seq<HeadRow>, reserved: Option<nat>)
    requires |keyLog| == |valueLog|
  {
    && WellFormed(maxContext, |keyLog|, keys, values)
    && (recordCapacity < RecordCount(|keyLog| + |keys| / KV_HEADS) * TILE_RECORD_BYTES ==> reserved.Some?)
    && Sealable(encode, keyLog, valueLog, keys, values)
  }

  class KvarnState {
    const maxContext: nat
    const encode: Encoder
    var frontier: nat
    var records: seq<Byte>
    var recordCapacity: nat
    const sinkKeys: array<HeadRow>
    const sinkValues: array<HeadRow>
    const tailKeys: array<HeadRow>
    const tailValues: array<HeadRow>
    // every row ever appended
    ghost var keyLog: Plane
    ghost var valueLog: Plane

    ghost function Stored(): Contents
      reads this, sinkKeys, sinkValues, tailKeys, tailValues
    {
      Contents(frontier, records, sinkKeys[..], sinkValues[..], tailKeys[..], tailValues[..])
    }

    ghost predicate Valid()
      reads this, sinkKeys, sinkValues, tailKeys, tailValues
    {
      && sinkKeys != sinkValues && sinkKeys != tailKeys && sinkKeys != tailValues
      && sinkValues != tailKeys && sinkValues != tailValues && tailKeys != tailValues
      && 1 <= maxContext <= MAX_CONTEXT_TOKENS && frontier <= maxContext
      && |records| <= recordCapacity
      && Represents(Stored(), encode, keyLog, valueLog)
      && FinitePlane(keyLog) && FinitePlane(valueLog)
    }

    constructor (maxContext: nat, encode: Encoder)
      requires 1 <= maxContext <= MAX_CONTEXT_TOKENS
      ensures Valid() && fresh(sinkKeys) && fresh(sinkValues) && fresh(tailKeys) && fresh(tailValues)
      ensures this.maxContext == maxContext && this.encode == encode
      ensures keyLog == [] && valueLog == [] && recordCapacity == 0
    {
      this.maxContext, this.encode := maxContext, encode;
      frontier, records, recordCapacity := 0, [], 0;
      sinkKeys := new HeadRow[KV_HEADS * SINK_TOKENS](_ => ZeroRow());
      sinkValues := new HeadRow[KV_HEADS * SINK_TOKENS](_ => ZeroRow());
      tailKeys := new HeadRow[KV_HEADS * TAIL_CAPACITY](_ => ZeroRow());
      tailValues := new HeadRow[KV_HEADS * TAIL_CAPACITY](_ => ZeroRow());
      keyLog, valueLog := [], [];
    }

    /** An empty cache, for a context in the released range. */
    static method Zero(maxContext: nat, encode: Encoder) returns (r: Option<KvarnState>)
      ensures r.Some? <==> 1 <= maxContext <= MAX_CONTEXT_TOKENS
      ensures r.Some? ==> fresh(r.value) && r.value.Valid() && r.value.maxContext == maxContext && r.value.encode == encode
                          && r.value.keyLog == [] && r.value.valueLog == []
    {
      if !(1 <= maxContext <= MAX_CONTEXT_TOKENS) {
        return None;
      }
      var state := new KvarnState(maxContext, encode);
      return Some(state);
    }

    method SafeChunkTokens(requested: nat) returns (r: Option<nat>)
      requires Valid()
      ensures r == if requested == 0 then None else Some(SafeChunk(frontier, requested))
    {
      if requested == 0 {
        return None;
      }
      var nextSeal := NextSeal(|records| / TILE_RECORD_BYTES);
      r := Some(if requested < nextSeal - frontier then requested else nextSeal - frontier);
    }

    /** The shape, value and frontier checks, in order. */
    method Preflight(keys: seq<HeadRow>, values: seq<HeadRow>) returns (r: Result<(), AppendError>)
      requires Valid()
      ensures r.Ok? <==> WellFormed(maxContext, frontier, keys, values)
      ensures r.Err? ==> r.error in {IncompleteTokens, ValueShapeDiffers, NonFinite, ContextCapacityExhausted, CrossesTileSeal}
      ensures keys != [] && |keys| % KV_HEADS == 0 && |values| == |keys| && |keys| / KV_HEADS <= NextSeal(RecordCount(frontier)) - frontier ==>
                r in {Ok(()), Err(NonFinite), Err(ContextCapacityExhausted)}
    {
      if keys == [] || |keys| % KV_HEADS != 0 {
        return Err(IncompleteTokens);
      }
      if |values| != |keys| {
        return Err(ValueShapeDiffers);
      }
      if !FiniteRows(keys) || !FiniteRows(values) {
        return Err(NonFinite);
      }
      var tokens := |keys| / KV_HEADS;
      if frontier + tokens > maxContext {
        return Err(ContextCapacityExhausted);
      }
      var safe := SafeChunkTokens(tokens);
      if tokens > safe.value {
        return Err(CrossesTileSeal);
      }
      AtMostOneSeal(frontier, tokens);
      if PackedTiles(frontier + tokens) > |records| / TILE_RECORD_BYTES + 1 {
        return Err(CrossesMultipleSeals);
      }
      return Ok(());
    }

    /** Reserve backing for the next frontier's records, before anything else changes. The allocator may
        refuse, or grant the target and any amount beyond it. */
    method Reserve(next: nat, reserved: Option<nat>) returns (r: Result<(), AppendError>)
      requires Valid() && next <= maxContext
      modifies this`recordCapacity
      ensures Valid() && recordCapacity >= old(recordCapacity)
      ensures r == if old(recordCapacity) < RecordCount(next) * TILE_RECORD_BYTES && reserved.None? then Err(ReservationFailed) else Ok(())
      ensures r.Ok? ==> recordCapacity >= RecordCount(next) * TILE_RECORD_BYTES
    {
      NoOverflowInContext(RecordCount(next), recordCapacity, maxContext);
      assert RecordCount(next) <= RecordCount(maxContext);
      match RecordGrowthTarget(PackedTiles(next), recordCapacity, PackedTiles(maxContext)) {
        case Err(cause) => return Err(GrowthRejected(cause));
        case Ok(None) =>
        case Ok(Some(target)) =>
          if target < |records| {
            return Err(BelowOccupied);
          }
          if reserved.None? {
            return Err(ReservationFailed);
          }
          recordCapacity := target + reserved.value;
      }
      return Ok(());
    }

    /** Encode the tile an append completes; an append that completes none adds no record. */
    method Seal(keys: seq<HeadRow>, values: seq<HeadRow>) returns (r: Result<seq<Byte>, AppendError>)
      requires Valid()
      requires |keys| % KV_HEADS == 0 && |values| == |keys|
      requires frontier + |keys| / KV_HEADS <= NextSeal(RecordCount(frontier))
      ensures r.Ok? <==> Sealable(encode, keyLog, valueLog, keys, values)
      ensures r.Ok? ==> RecordsMatch(records + r.value, encode, keyLog + Rows(keys), valueLog + Rows(values))
      ensures r.Ok? ==> |r.value| == (RecordCount(frontier + |keys| / KV_HEADS) - RecordCount(frontier)) * TILE_RECORD_BYTES
      ensures r.Err? ==> r.error in {EncoderFailed, IncompleteRecord}
    {
      AtMostOneSeal(frontier, |keys| / KV_HEADS);
      if PackedTiles(frontier + |keys| / KV_HEADS) > |records| / TILE_RECORD_BYTES {
        var tileKeys := GatherTile(tailKeys[..], frontier, keys, keyLog);
        var tileValues := GatherTile(tailValues[..], frontier, values, valueLog);
        match encode(tileKeys, tileValues) {
          case None => return Err(EncoderFailed);
          case Some(record) =>
            if |record| != TILE_RECORD_BYTES {
              return Err(IncompleteRecord);
            }
            RecordsSealed(records, encode, keyLog, valueLog, Rows(keys), Rows(values), record);
            return Ok(record);
        }
      }
      RecordsKept(records, encode, keyLog, valueLog, Rows(keys), Rows(values));
      assert records + [] == records;
      return Ok([]);
    }

    /** The infallible half: write every row, then extend the records and the frontier. */
    method Publish(keys: seq<HeadRow>, values: seq<HeadRow>, record: seq<Byte>)
      requires Valid()
      requires |keys| % KV_HEADS == 0 && |values| == |keys|
      requires frontier + |keys| / KV_HEADS <= maxContext && |records| + |record| <= recordCapacity
      requires RecordsMatch(records + record, encode, keyLog + Rows(keys), valueLog + Rows(values))
      requires FiniteRows(keys) && FiniteRows(values)
      modifies this`records, this`frontier, this`keyLog, this`valueLog, sinkKeys, sinkValues, tailKeys, tailValues
      ensures Valid()
      ensures keyLog == old(keyLog) + Rows(keys) && valueLog == old(valueLog) + Rows(values)
    {
      FiniteAppended(keyLog, keys);
      FiniteAppended(valueLog, values);
      WritePlane(sinkKeys, tailKeys, frontier, keys, keyLog);
      WritePlane(sinkValues, tailValues, frontier, values, valueLog);
      records := records + record;
      frontier := frontier + |keys| / KV_HEADS;
      keyLog, valueLog := keyLog + Rows(keys), valueLog + Rows(values);
    }

    /** Append complete rows. Every fallible step precedes the first write. */
    method Append(keys: seq<HeadRow>, values: seq<HeadRow>, reserved: Option<nat>) returns (r: Result<(), AppendError>)
      requires Valid()
      modifies this`records, this`frontier, this`recordCapacity, this`keyLog, this`valueLog
      modifies sinkKeys, sinkValues, tailKeys, tailValues
      ensures Valid()
      ensures r.Ok? <==> Admissible(maxContext, old(recordCapacity), encode, old(keyLog), old(valueLog), keys, values, reserved)
      ensures r.Ok? ==> |keys| % KV_HEADS == 0 && |values| == |keys|
                        && keyLog == old(keyLog) + Rows(keys) && valueLog == old(valueLog) + Rows(values)
      ensures r.Err? ==> Stored() == old(Stored()) && keyLog == old(keyLog) && valueLog == old(valueLog)
      ensures r.Err? ==> r.error != CrossesMultipleSeals && !r.error.GrowthRejected? && r.error != BelowOccupied
      ensures keys != [] && |keys| % KV_HEADS == 0 && |values| == |keys|
              && |keys| / KV_HEADS <= NextSeal(RecordCount(old(frontier))) - old(frontier) ==>
                r in {Ok(()), Err(NonFinite), Err(ContextCapacityExhausted), Err(ReservationFailed), Err(EncoderFailed), Err(IncompleteRecord)}
      ensures recordCapacity >= old(recordCapacity)
    {
      var sealed := Prepare(keys, values, reserved);
      if sealed.Err? {
        return Err(sealed.error);
      }
      Publish(keys, values, sealed.value);
      return Ok(());
    }

    /** Every fallible step of an append: check, reserve, seal. */
    method Prepare(keys: seq<HeadRow>, values: seq<HeadRow>, reserved: Option<nat>) returns (r: Result<seq<Byte>, AppendError>)
      requires Valid()
      modifies this`recordCapacity
      ensures Valid() && recordCapacity >= old(recordCapacity)
      ensures r.Ok? <==> Admissible(maxContext, old(recordCapacity), encode, keyLog, valueLog, keys, values, reserved)
      ensures r.Ok? ==> |records| + |r.value| <= recordCapacity
                        && RecordsMatch(records + r.value, encode, keyLog + Rows(keys), valueLog + Rows(values))
      ensures r.Err? ==> r.error != CrossesMultipleSeals && !r.error.GrowthRejected? && r.error != BelowOccupied
      ensures keys != [] && |keys| % KV_HEADS == 0 && |values| == |keys|
              && |keys| / KV_HEADS <= NextSeal(RecordCount(frontier)) - frontier && r.Err? ==>
                r.error in {NonFinite, ContextCapacityExhausted, ReservationFailed, EncoderFailed, IncompleteRecord}
    {
      var checked := Preflight(keys, values);
      if checked.Err? {
        return Err(checked.error);
      }
      AtMostOneSeal(frontier, |keys| / KV_HEADS);
      var reservation := Reserve(frontier + |keys| / KV_HEADS, reserved);
      if reservation.Err? {
        return Err(reservation.error);
      }
      r := Seal(keys, values);
    }

    /** Append the widest safe prefix of a block. */
    method AppendNext(keys: Plane, values: Plane, reserved: Option<nat>) returns (r: Result<nat, AppendError>)
      requires Valid() && 0 < |keys| == |values|
      modifies this`records, this`frontier, this`recordCapacity, this`keyLog, this`valueLog
      modifies sinkKeys, sinkValues, tailKeys, tailValues
      ensures Valid()
      ensures r.Ok? ==> 0 < r.value <= |keys| && r.value == SafeChunk(old(frontier), |keys|)
                        && keyLog == old(keyLog) + keys[..r.value] && valueLog == old(valueLog) + values[..r.value]
                        && RecordCount(old(frontier)) <= RecordCount(frontier)
                        && (r.value < |keys| ==> RecordCount(frontier) == RecordCount(old(frontier)) + 1)
      ensures r.Err? ==> Stored() == old(Stored()) && keyLog == old(keyLog) && valueLog == old(valueLog)
      ensures r.Err? ==> r.error in {NonFinite, ContextCapacityExhausted, EncoderFailed, IncompleteRecord, ReservationFailed}
    {
      var safe := SafeChunkTokens(|keys|);
      var count := safe.value;
      AtMostOneSeal(frontier, count);
      HeadMajorRows(keys[..count]);
      HeadMajorRows(values[..count]);
      var outcome := Append(HeadMajor(keys[..count]), HeadMajor(values[..count]), reserved);
      r := if outcome.Ok? then Ok(count) else Err(outcome.error);
    }

    /** Append a whole block by always taking the widest safe chunk: it never asks for an
        unsafe width, stops at the first error with a prefix stored, and otherwise stores all in
        one append per tile sealed, plus at most one. Any of its reservations may be refused. */
    method AppendGreedily(keys: Plane, values: Plane, reserved: nat -> Option<nat>) returns (r: Result<nat, AppendError>, stored: nat)
      requires Valid() && |keys| == |values|
      modifies this`records, this`frontier, this`recordCapacity, this`keyLog, this`valueLog
      modifies sinkKeys, sinkValues, tailKeys, tailValues
      ensures Valid()
      ensures stored <= |keys| && keyLog == old(keyLog) + keys[..stored] && valueLog == old(valueLog) + values[..stored]
      ensures r.Ok? ==> stored == |keys| && r.value <= RecordCount(frontier) - RecordCount(old(frontier)) + 1
      ensures r.Err? ==> r.error in {NonFinite, ContextCapacityExhausted, EncoderFailed, IncompleteRecord, ReservationFailed}
    {
      stored := 0;
      var chunks := 0;
      while stored < |keys|
        invariant stored <= |keys| && Valid()
        invariant keyLog == old(keyLog) + keys[..stored] && valueLog == old(valueLog) + values[..stored]
        invariant 0 <= chunks <= RecordCount(frontier) - RecordCount(old(frontier)) + (if stored < |keys| then 0 else 1)
      {
        var outcome := AppendNext(keys[stored..], values[stored..], reserved(chunks));
        if outcome.Err? {
          return Err(outcome.error), stored;
        }
        PrefixGrows(keys, stored, outcome.value);
        PrefixGrows(values, stored, outcome.value);
        stored, chunks := stored + outcome.value, chunks + 1;
      }
      return Ok(chunks), stored;
    }
  }

  lemma PrefixGrows(x: Plane, at: nat, n: nat)
    requires at + n <= |x|
    ensures x[..at + n] == x[..at] + x[at..][..n]
  {
  }

  /** The head-major block of a run of tokens. */
  function HeadMajor(x: Plane): (cells: seq<HeadRow>)
    ensures |cells| == KV_HEADS * |x|
  {
    seq(KV_HEADS * |x|, j requires 0 <= j < KV_HEADS * |x| => if j < |x| then x[j].first else x[j - |x|].second)
  }

  lemma HeadMajorRows(x: Plane)
    ensures Rows(HeadMajor(x)) == x
  {
    forall t | 0 <= t < |x| ensures TokenAt(HeadMajor(x), t) == x[t] {
    }
  }
}
