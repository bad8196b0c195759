/** Rebuilding a KVarN state from stored parts: what is checked, and that a state's own contents
    always pass and come back unchanged. */
module KvarnRestore {
  import opened Wrappers
  import opened KvarnLayout
  import opened Kvarn
  import opened Bf16
  import Layout = TileRecord

  datatype RestoreError =
    | ContextRange | FrontierExceedsContext | RecordCountDiffers | NonFiniteMetadata
    | SinkGeometry | TailGeometry | NonFiniteRows | ReservationFailed

  // ----- record metadata

  /** The second byte of an FP16 value among a head record's scales and zeros. */
  predicate MetadataHigh(at: nat) {
    at % 2 == 1 && (Layout.K_SCALE <= at < Layout.V_CODES || Layout.V_CHANNEL_SCALE <= at < Layout.HEAD_RECORD_BYTES)
  }

  predicate FiniteHigh(high: Byte) { high & 0x7C != 0x7C }

  ghost predicate FiniteHead(records: seq<Byte>, base: nat)
    requires base + Layout.HEAD_RECORD_BYTES <= |records|
  {
    forall at :: 0 <= at < Layout.HEAD_RECORD_BYTES && MetadataHigh(at) ==> FiniteHigh(records[base + at])
  }

  /** Whole tiles, every head of which has finite metadata. */
  ghost predicate FiniteMetadata(records: seq<Byte>) {
    && |records| % TILE_RECORD_BYTES == 0
    && forall h: nat :: HeadInside(records, h) ==> FiniteHead(records, h * Layout.HEAD_RECORD_BYTES)
  }

  predicate HeadInside(records: seq<Byte>, h: nat) {
    h * Layout.HEAD_RECORD_BYTES + Layout.HEAD_RECORD_BYTES <= |records|
  }

  /** The FP16 values in a section of bytes are finite. */
  ghost predicate FiniteSection(records: seq<Byte>, start: nat, end: nat)
    requires start <= end <= |records|
  {
    forall k :: start <= k < end && k % 2 == 1 ==> FiniteHigh(records[k])
  }

  method CheckSection(records: seq<Byte>, start: nat, end: nat) returns (ok: bool)
    requires start <= end <= |records| && start % 2 == 0 && end % 2 == 0
    ensures ok <==> FiniteSection(records, start, end)
  {
    var at := start;
    while at < end
      invariant start <= at <= end && at % 2 == 0
      invariant FiniteSection(records, start, at)
    {
      if !FiniteHigh(records[at + 1]) {
        return false;
      }
      at := at + 2;
    }
    return true;
  }

  lemma HeadSections(records: seq<Byte>, base: nat)
    requires base + Layout.HEAD_RECORD_BYTES <= |records| && base % 2 == 0
    ensures FiniteHead(records, base) <==>
              && FiniteSection(records, base + Layout.K_SCALE, base + Layout.V_CODES)
              && FiniteSection(records, base + Layout.V_CHANNEL_SCALE, base + Layout.HEAD_RECORD_BYTES)
  {
    if FiniteHead(records, base) {
      SectionOfHead(records, base, Layout.K_SCALE, Layout.V_CODES);
      SectionOfHead(records, base, Layout.V_CHANNEL_SCALE, Layout.HEAD_RECORD_BYTES);
    } else {
      var at :| 0 <= at < Layout.HEAD_RECORD_BYTES && MetadataHigh(at) && !FiniteHigh(records[base + at]);
      assert (base + at) % 2 == 1;
    }
  }

  lemma SectionOfHead(records: seq<Byte>, base: nat, start: nat, end: nat)
    requires base + Layout.HEAD_RECORD_BYTES <= |records| && base % 2 == 0 && FiniteHead(records, base)
    requires Layout.K_SCALE <= start <= end <= Layout.V_CODES || Layout.V_CHANNEL_SCALE <= start <= end <= Layout.HEAD_RECORD_BYTES
    ensures FiniteSection(records, base + start, base + end)
  {
    forall k | base + start <= k < base + end && k % 2 == 1 ensures FiniteHigh(records[k]) {
      assert MetadataHigh(k - base);
      assert FiniteHigh(records[base + (k - base)]);
    }
  }

  method CheckHead(records: seq<Byte>, base: nat) returns (ok: bool)
    requires base + Layout.HEAD_RECORD_BYTES <= |records| && base % 2 == 0
    ensures ok <==> FiniteHead(records, base)
  {
    HeadSections(records, base);
    ok := CheckSection(records, base + Layout.K_SCALE, base + Layout.V_CODES);
    if ok {
      ok := CheckSection(records, base + Layout.V_CHANNEL_SCALE, base + Layout.HEAD_RECORD_BYTES);
    }
  }

  lemma NoMoreHeads(records: seq<Byte>, head: nat)
    requires head * Layout.HEAD_RECORD_BYTES + Layout.HEAD_RECORD_BYTES > |records|
    ensures forall h: nat :: HeadInside(records, h) ==> h < head
  {
  }

  method CheckMetadata(records: seq<Byte>) returns (ok: bool)
    ensures ok <==> FiniteMetadata(records)
  {
    if |records| % TILE_RECORD_BYTES != 0 {
      return false;
    }
    var head, base := 0, 0;
    while base + Layout.HEAD_RECORD_BYTES <= |records|
      invariant base == head * Layout.HEAD_RECORD_BYTES <= |records| && base % 2 == 0
      invariant forall h: nat :: h < head ==> FiniteHead(records, h * Layout.HEAD_RECORD_BYTES)
      decreases |records| - base
    {
      var finite := CheckHead(records, base);
      if !finite {
        assert HeadInside(records, head);
        return false;
      }
      head, base := head + 1, base + Layout.HEAD_RECORD_BYTES;
    }
    NoMoreHeads(records, head);
    return true;
  }

  // ----- validation

  /** Parts that a restore accepts. */
  ghost predicate ValidParts(maxContext: nat, parts: Contents) {
    && 1 <= maxContext <= MAX_CONTEXT_TOKENS && parts.frontier <= maxContext
    && |parts.records| == RecordCount(parts.frontier) * TILE_RECORD_BYTES && FiniteMetadata(parts.records)
    && |parts.sinkKeys| == |parts.sinkValues| == KV_HEADS * SINK_TOKENS
    && |parts.tailKeys| == |parts.tailValues| == KV_HEADS * TAIL_CAPACITY
    && FiniteRows(parts.sinkKeys) && FiniteRows(parts.sinkValues) && FiniteRows(parts.tailKeys) && FiniteRows(parts.tailValues)
  }

  method ValidateParts(maxContext: nat, parts: Contents) returns (r: Result<(), RestoreError>)
    ensures r.Ok? <==> ValidParts(maxContext, parts)
  {
    if !(1 <= maxContext <= MAX_CONTEXT_TOKENS) {
      return Err(ContextRange);
    }
    if parts.frontier > maxContext {
      return Err(FrontierExceedsContext);
    }
    if |parts.records| != PackedTiles(parts.frontier) * TILE_RECORD_BYTES {
      return Err(RecordCountDiffers);
    }
    var finite := CheckMetadata(parts.records);
    if !finite {
      return Err(NonFiniteMetadata);
    }
    if |parts.sinkKeys| != KV_HEADS * SINK_TOKENS || |parts.sinkValues| != KV_HEADS * SINK_TOKENS {
      return Err(SinkGeometry);
    }
    if |parts.tailKeys| != KV_HEADS * TAIL_CAPACITY || |parts.tailValues| != KV_HEADS * TAIL_CAPACITY {
      return Err(TailGeometry);
    }
    if !(FiniteRows(parts.sinkKeys) && FiniteRows(parts.sinkValues) && FiniteRows(parts.tailKeys) && FiniteRows(parts.tailValues)) {
      return Err(NonFiniteRows);
    }
    return Ok(());
  }

  method CopyRows(target: array<HeadRow>, source: seq<HeadRow>)
    requires target.Length == |source|
    modifies target
    ensures target[..] == source
  {
    forall j | 0 <= j < |source| {
      target[j] := source[j];
    }
  }

  /** Restore exactly the given parts. When they represent rows that were once appended, the restored
      state is a valid cache of those rows, ready for more. */
  method Restore(maxContext: nat, encode: Encoder, parts: Contents, reserved: bool, ghost keys: Plane, ghost values: Plane)
    returns (r: Result<KvarnState, RestoreError>)
    ensures r.Ok? <==> ValidParts(maxContext, parts) && reserved
    ensures r.Ok? ==> fresh(r.value) && r.value.maxContext == maxContext && r.value.encode == encode && r.value.Stored() == parts
    ensures r.Ok? && Represents(parts, encode, keys, values) && FinitePlane(keys) && FinitePlane(values) ==>
              r.value.Valid() && r.value.keyLog == keys && r.value.valueLog == values
  {
    var checked := ValidateParts(maxContext, parts);
    if checked.Err? {
      return Err(checked.error);
    }
    if !reserved {
      return Err(RestoreError.ReservationFailed);
    }
    var state := new KvarnState(maxContext, encode);
    state.recordCapacity := |parts.records|;
    state.frontier := parts.frontier;
    state.records := parts.records;
    CopyRows(state.sinkKeys, parts.sinkKeys);
    CopyRows(state.sinkValues, parts.sinkValues);
    CopyRows(state.tailKeys, parts.tailKeys);
    CopyRows(state.tailValues, parts.tailValues);
    state.keyLog, state.valueLog := keys, values;
    return Ok(state);
  }

  // ----- a state's own contents

  lemma PlacedFinite(x: Plane)
    requires FinitePlane(x)
    ensures FiniteRows(Sink(x)) && FiniteRows(Ring(x))
  {
    var sink, ring := Sink(x), Ring(x);
    forall j | 0 <= j < |sink| ensures FiniteRows([sink[j]]) {
      SinkCellFinite(x, j / SINK_TOKENS, j % SINK_TOKENS);
    }
    forall j | 0 <= j < |ring| ensures FiniteRows([ring[j]]) {
      RingCellFinite(x, j / TAIL_CAPACITY, j % TAIL_CAPACITY);
    }
    RowByRow(sink);
    RowByRow(ring);
  }

  lemma RowByRow(cells: seq<HeadRow>)
    requires forall j :: 0 <= j < |cells| ==> FiniteRows([cells[j]])
    ensures FiniteRows(cells)
  {
    forall i, c | 0 <= i < |cells| && 0 <= c < |cells[i].words| ensures FiniteBf16(cells[i].words[c]) {
      assert FiniteRows([cells[i]]);
      assert [cells[i]][0] == cells[i];
    }
  }

  lemma ZeroFinite()
    ensures FiniteRows([ZeroRow()])
  {
  }

  lemma SinkCellFinite(x: Plane, head: nat, i: nat)
    requires FinitePlane(x) && head < KV_HEADS && i < SINK_TOKENS
    ensures FiniteRows([SinkCell(x, head, i)])
  {
    ZeroFinite();
    if i < |x| { assert FiniteRows([x[i].Head(head)]); }
  }

  lemma RingCellFinite(x: Plane, head: nat, s: nat)
    requires FinitePlane(x) && head < KV_HEADS && s < TAIL_CAPACITY
    ensures FiniteRows([RingCell(x, head, s)])
  {
    ZeroFinite();
    if SINK_TOKENS + s < |x| {
      var i := SINK_TOKENS + LastInSlot(|x| - SINK_TOKENS, s);
      assert FiniteRows([x[i].Head(head)]);
    }
  }

  lemma SectionFinite(record: seq<Byte>, base: nat, halves: seq<Layout.Half>, at: nat)
    requires base + 2 * |halves| <= |record| && base % 2 == 0 && at % 2 == 1 && base <= at < base + 2 * |halves|
    requires Layout.HalvesAt(record, base, halves) && Layout.AllFinite(halves)
    ensures FiniteHigh(record[at])
  {
    var i := (at - base) / 2;
    assert at == base + 2 * i + 1;
    assert Layout.FiniteHalf(halves[i]) && Layout.Half(record[base + 2 * i], record[base + 2 * i + 1]) == halves[i];
  }

  /** The bytes of one head as the record encoder leaves them. */
  ghost predicate HeadRecord(record: seq<Byte>) {
    exists p: Layout.HeadParts :: p.Shaped() && p.Finite() && Layout.ReadsBack(record, p)
  }

  lemma EncodedHeadFinite(record: seq<Byte>, p: Layout.HeadParts)
    requires p.Shaped() && p.Finite() && Layout.ReadsBack(record, p)
    ensures FiniteHead(record, 0)
  {
    forall at | 0 <= at < Layout.HEAD_RECORD_BYTES && MetadataHigh(at) ensures FiniteHigh(record[0 + at]) {
      if at < Layout.K_ZERO { SectionFinite(record, Layout.K_SCALE, p.keyScale, at); }
      else if at < Layout.K_TOKEN_SCALE { SectionFinite(record, Layout.K_ZERO, p.keyZero, at); }
      else if at < Layout.V_CODES { SectionFinite(record, Layout.K_TOKEN_SCALE, p.keyTokenScale, at); }
      else if at < Layout.V_TOKEN_SCALE { SectionFinite(record, Layout.V_CHANNEL_SCALE, p.valueChannelScale, at); }
      else if at < Layout.V_ZERO { SectionFinite(record, Layout.V_TOKEN_SCALE, p.valueTokenScale, at); }
      else { SectionFinite(record, Layout.V_ZERO, p.valueZero, at); }
    }
  }

  /** The record encoder produces finite metadata: two encoded heads end to end are one whole tile
      that the check accepts. */
  lemma EncodedTileFinite(first: seq<Byte>, second: seq<Byte>)
    requires HeadRecord(first) && HeadRecord(second)
    ensures |first + second| == TILE_RECORD_BYTES && FiniteMetadata(first + second)
  {
    var p: Layout.HeadParts :| p.Shaped() && p.Finite() && Layout.ReadsBack(first, p);
    var q: Layout.HeadParts :| q.Shaped() && q.Finite() && Layout.ReadsBack(second, q);
    EncodedHeadFinite(first, p);
    EncodedHeadFinite(second, q);
    var record := first + second;
    forall h: nat | HeadInside(record, h) ensures FiniteHead(record, h * Layout.HEAD_RECORD_BYTES) {
      var head := if h == 0 then first else second;
      forall at | 0 <= at < Layout.HEAD_RECORD_BYTES && MetadataHigh(at)
        ensures FiniteHigh(record[h * Layout.HEAD_RECORD_BYTES + at])
      {
        assert record[h * Layout.HEAD_RECORD_BYTES + at] == head[at] == head[0 + at];
      }
    }
  }

  ghost predicate TwoHeads(record: seq<Byte>, first: seq<Byte>, second: seq<Byte>) {
    HeadRecord(first) && HeadRecord(second) && record == first + second
  }

  /** A tile record: two encoded heads end to end. */
  ghost predicate EncodedTile(record: seq<Byte>) {
    exists first, second :: TwoHeads(record, first, second)
  }

  /** An encoder that only produces tile records. */
  ghost predicate TileEncoder(encode: Encoder) {
    forall a, b :: encode(a, b).Some? ==> EncodedTile(encode(a, b).value)
  }

  lemma HeadOfRecord(records: seq<Byte>, r: nat, h: nat)
    requires h == 2 * r || h == 2 * r + 1
    requires (r + 1) * TILE_RECORD_BYTES <= |records|
    requires FiniteMetadata(records[r * TILE_RECORD_BYTES..(r + 1) * TILE_RECORD_BYTES])
    ensures HeadInside(records, h) && FiniteHead(records, h * Layout.HEAD_RECORD_BYTES)
  {
    var record, local := records[r * TILE_RECORD_BYTES..(r + 1) * TILE_RECORD_BYTES], h - 2 * r;
    assert HeadInside(record, local);
    assert h * Layout.HEAD_RECORD_BYTES == r * TILE_RECORD_BYTES + local * Layout.HEAD_RECORD_BYTES;
    forall at | 0 <= at < Layout.HEAD_RECORD_BYTES && MetadataHigh(at) ensures FiniteHigh(records[h * Layout.HEAD_RECORD_BYTES + at]) {
      assert record[local * Layout.HEAD_RECORD_BYTES + at] == records[h * Layout.HEAD_RECORD_BYTES + at];
    }
  }

  lemma RecordsFinite(records: seq<Byte>, encode: Encoder, keys: Plane, values: Plane)
    requires |keys| == |values| && RecordsMatch(records, encode, keys, values) && TileEncoder(encode)
    ensures FiniteMetadata(records)
  {
    forall h: nat | HeadInside(records, h) ensures FiniteHead(records, h * Layout.HEAD_RECORD_BYTES) {
      var r := h / 2;
      assert r < RecordCount(|keys|);
      assert TileEncoded(records, encode, keys, values, r);
      var record := records[r * TILE_RECORD_BYTES..(r + 1) * TILE_RECORD_BYTES];
      assert EncodedTile(record);
      var first, second :| TwoHeads(record, first, second);
      EncodedTileFinite(first, second);
      HeadOfRecord(records, r, h);
    }
  }

  /** Round trip: the contents of any valid state pass validation, and so restore to an equal state. */
  lemma OwnContentsValid(state: KvarnState)
    requires state.Valid() && TileEncoder(state.encode)
    ensures ValidParts(state.maxContext, state.Stored())
    ensures Represents(state.Stored(), state.encode, state.keyLog, state.valueLog)
    ensures FinitePlane(state.keyLog) && FinitePlane(state.valueLog)
  {
    RecordsFinite(state.records, state.encode, state.keyLog, state.valueLog);
    PlacedFinite(state.keyLog);
    PlacedFinite(state.valueLog);
  }
}
