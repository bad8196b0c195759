/** Reading a cache back: which buffer a row is gathered from, and how far what is gathered can be
    from the row that was appended. */
module KvarnDecode {
  import opened Wrappers
  import opened KvarnLayout
  import opened Kvarn
  import opened TileCodec
  import H = Hadamard
  import B = ButterflyLanes
  import Q = Quantize
  import T = TileRecord

  datatype Side = Keys | Values

  function SinkCells(c: Contents, side: Side): seq<HeadRow> {
    match side
    case Keys => c.sinkKeys
    case Values => c.sinkValues
  }

  function TailCells(c: Contents, side: Side): seq<HeadRow> {
    match side
    case Keys => c.tailKeys
    case Values => c.tailValues
  }

  /** The buffers have their fixed sizes, and the records are whole. */
  predicate Gatherable(c: Contents) {
    && |c.sinkKeys| == |c.sinkValues| == KV_HEADS * SINK_TOKENS
    && |c.tailKeys| == |c.tailValues| == KV_HEADS * TAIL_CAPACITY
    && |c.records| % TILE_RECORD_BYTES == 0
  }

  /** Where the exact tail starts, as the decoder computes it from the record count. */
  function BodyFrontier(c: Contents): nat {
    SINK_TOKENS + |c.records| / TILE_RECORD_BYTES * TILE_TOKENS
  }

  /** The tile of a row past the sink, and its place in the tile. */
  function TileOf(logical: nat): nat
    requires logical >= SINK_TOKENS
  {
    (logical - SINK_TOKENS) / TILE_TOKENS
  }

  function PlaceOf(logical: nat): (t: nat)
    requires logical >= SINK_TOKENS
    ensures t < TILE_TOKENS
  {
    (logical - SINK_TOKENS) % TILE_TOKENS
  }

  /** One head's record of a tile. */
  function HeadOf(records: seq<Byte>, tile: nat, head: nat): (record: seq<Byte>)
    requires head < KV_HEADS && (tile + 1) * TILE_RECORD_BYTES <= |records|
    ensures |record| == T.HEAD_RECORD_BYTES
  {
    var start := (tile * KV_HEADS + head) * T.HEAD_RECORD_BYTES;
    records[start..start + T.HEAD_RECORD_BYTES]
  }

  /** A packed row: its stored numbers, through the decoder's lanes. */
  ghost function Decoded(n: Numerics, side: Side, record: seq<Byte>, t: nat): (row: H.Vec)
    requires |record| == T.HEAD_RECORD_BYTES && t < TILE_TOKENS
    ensures |row| == HEAD_DIM
  {
    B.Unrotated(if side.Keys? then StoredKeys(n, record, t) else StoredValues(n, record, t))
  }

  function Rounded(round: real -> bv16, x: H.Vec): (words: seq<bv16>)
    ensures |words| == |x|
  {
    seq(|x|, c requires 0 <= c < |x| => round(x[c]))
  }

  function Denoted(n: Numerics, words: seq<bv16>): (x: H.Vec)
    ensures |x| == |words|
  {
    seq(|words|, c requires 0 <= c < |words| => n.value(words[c]))
  }

  /** The words gathered for one head of a selected row: zeros if it is not valid, an exact copy from
      the sink or the tail, or the packed row rounded to BF16. */
  ghost function Gathered(n: Numerics, round: real -> bv16, c: Contents, side: Side, logical: int, valid: bool, head: nat): seq<bv16>
    requires Gatherable(c) && head < KV_HEADS
  {
    if !valid || logical < 0 || logical >= c.frontier then ZeroRow().words
    else if logical < SINK_TOKENS then SinkCells(c, side)[head * SINK_TOKENS + logical].words
    else if logical >= BodyFrontier(c) then TailCells(c, side)[head * TAIL_CAPACITY + (logical - SINK_TOKENS) % TAIL_CAPACITY].words
    else Rounded(round, Decoded(n, side, HeadOf(c.records, TileOf(logical), head), PlaceOf(logical)))
  }

  // ----- a cache of encoded tiles

  /** An encoder whose every record holds the tile it was given. */
  ghost predicate HoldsTiles(n: Numerics, encode: Encoder)
    requires n.Valid()
  {
    forall a, b :: encode(a, b).Some? ==> TileHeld(n, encode(a, b).value, a, b)
  }

  ghost function Log(state: KvarnState, side: Side): Plane
    reads state
  {
    if side.Keys? then state.keyLog else state.valueLog
  }

  lemma BodyAgrees(state: KvarnState)
    requires state.Valid()
    ensures Gatherable(state.Stored())
    ensures state.frontier > SINK_TOKENS ==> BodyFrontier(state.Stored()) == Partition(state.frontier).1
    ensures state.frontier <= SINK_TOKENS ==> BodyFrontier(state.Stored()) == SINK_TOKENS
  {
    BodyIsMaximal(state.frontier, RecordCount(state.frontier));
    assert |state.records| == RecordCount(state.frontier) * TILE_RECORD_BYTES;
  }

  /** Rows in the sink and past the packed body are gathered word for word; rows that are not valid
      or not appended are zeros. */
  lemma GatherExact(n: Numerics, round: real -> bv16, state: KvarnState, side: Side, logical: int, valid: bool, head: nat)
    requires state.Valid() && head < KV_HEADS
    ensures Gatherable(state.Stored())
    ensures var words := Gathered(n, round, state.Stored(), side, logical, valid, head);
            if !valid || logical < 0 || logical >= state.frontier then words == ZeroRow().words
            else logical < SINK_TOKENS || logical >= Partition(state.frontier).1 ==> words == Log(state, side)[logical].Head(head).words
  {
    BodyAgrees(state);
    if valid && 0 <= logical < state.frontier {
      RowPlacement(Log(state, side), logical, head);
    }
  }

  // ----- packed rows

  /** The tile a packed row was sealed in, and what its head record holds. */
  lemma PackedTile(n: Numerics, state: KvarnState, r: nat, head: nat)
    requires state.Valid() && n.Valid() && HoldsTiles(n, state.encode) && head < KV_HEADS && r < RecordCount(state.frontier)
    ensures SINK_TOKENS + (r + 1) * TILE_TOKENS <= |state.keyLog| && (r + 1) * TILE_RECORD_BYTES <= |state.records|
    ensures var keys, values := Tile(state.keyLog, r), Tile(state.valueLog, r);
            WholeTile(keys) && WholeTile(values) && HeadHeld(n, HeadOf(state.records, r, head), keys, values, head)
  {
    assert TileEncoded(state.records, state.encode, state.keyLog, state.valueLog, r);
    var record := state.records[r * TILE_RECORD_BYTES..(r + 1) * TILE_RECORD_BYTES];
    var keys, values := Tile(state.keyLog, r), Tile(state.valueLog, r);
    assert TileHeld(n, record, keys, values);
    assert HeadOf(state.records, r, head) == if head == 0 then record[..T.HEAD_RECORD_BYTES] else record[T.HEAD_RECORD_BYTES..];
  }

  /** The most each stored number of a packed row can miss. */
  ghost function RowMisses(n: Numerics, side: Side, record: seq<Byte>, keys: seq<HeadRow>, values: seq<HeadRow>, head: nat, t: nat): (e: H.Vec)
    requires n.Valid() && WholeTile(keys) && WholeTile(values) && head < KV_HEADS && t < TILE_TOKENS
    requires HeadHeld(n, record, keys, values, head)
    ensures |e| == HEAD_DIM
  {
    if side.Keys? then KeyMisses(n, record, BalancedKeys(n, keys, head).value, t)
    else ValueMisses(n, record, BalancedValues(n, values, head).value, t)
  }

  lemma HeadError(n: Numerics, side: Side, record: seq<Byte>, keys: seq<HeadRow>, values: seq<HeadRow>, head: nat, t: nat)
    requires n.Valid() && n.Divides() && WholeTile(keys) && WholeTile(values) && head < KV_HEADS && t < TILE_TOKENS
    requires HeadHeld(n, record, keys, values, head)
    ensures H.Energy(H.Sub(Decoded(n, side, record, t), RowOf(n, if side.Keys? then keys else values, head, t)))
         <= H.Energy(RowMisses(n, side, record, keys, values, head, t))
  {
    if side.Keys? {
      KeysAreDivided(n, keys, head);
      KeyRowError(n, record, keys, values, head, t);
      B.LanesRotate(StoredKeys(n, record, t));
    } else {
      ValuesAreDivided(n, values, head);
      ValueRowError(n, record, keys, values, head, t);
      B.LanesRotate(StoredValues(n, record, t));
    }
  }

  ghost predicate Packed(state: KvarnState, logical: nat)
    reads state
  {
    SINK_TOKENS <= logical < Partition(state.frontier).1
  }

  lemma PackedPlace(state: KvarnState, logical: nat)
    requires state.Valid() && Packed(state, logical)
    ensures logical < state.frontier && TileOf(logical) < RecordCount(state.frontier)
  {
    RowPlacement(state.keyLog, logical, 0);
  }

  /** The misses of the row appended at a packed position, in its own tile's record. */
  ghost function MissesAt(n: Numerics, state: KvarnState, side: Side, logical: nat, head: nat): (e: H.Vec)
    requires state.Valid() && n.Valid() && HoldsTiles(n, state.encode) && Packed(state, logical) && head < KV_HEADS
    reads state, state.sinkKeys, state.sinkValues, state.tailKeys, state.tailValues
    ensures |e| == HEAD_DIM
  {
    PackedPlace(state, logical);
    var r := TileOf(logical);
    PackedTile(n, state, r, head);
    RowMisses(n, side, HeadOf(state.records, r, head), Tile(state.keyLog, r), Tile(state.valueLog, r), head, PlaceOf(logical))
  }

  lemma RowIsOriginal(n: Numerics, x: Plane, logical: nat, head: nat)
    requires SINK_TOKENS <= logical < Partition(|x|).1 && logical < |x| && head < KV_HEADS
    requires SINK_TOKENS + (TileOf(logical) + 1) * TILE_TOKENS <= |x| && WholeTile(Tile(x, TileOf(logical)))
    ensures RowOf(n, Tile(x, TileOf(logical)), head, PlaceOf(logical)) == Denoted(n, x[logical].Head(head).words)
  {
    RowPlacement(x, logical, head);
    var cells, j := Tile(x, TileOf(logical)), PlaceOf(logical) * KV_HEADS + head;
    assert cells[j] == x[logical].Head(head);
    assert |cells[j].words| == HEAD_DIM;
  }

  /** In a valid cache of encoded tiles every packed row decodes from its record, before rounding, to
      within the misses of its stored numbers of the row originally appended. */
  lemma PackedRowDecodes(n: Numerics, state: KvarnState, side: Side, logical: nat, head: nat)
    requires state.Valid() && n.Valid() && n.Divides() && HoldsTiles(n, state.encode) && Packed(state, logical) && head < KV_HEADS
    ensures logical < state.frontier && (TileOf(logical) + 1) * TILE_RECORD_BYTES <= |state.records|
    ensures var row := Denoted(n, Log(state, side)[logical].Head(head).words);
            var decoded := Decoded(n, side, HeadOf(state.records, TileOf(logical), head), PlaceOf(logical));
            |row| == HEAD_DIM && H.Energy(H.Sub(decoded, row)) <= H.Energy(MissesAt(n, state, side, logical, head))
  {
    PackedPlace(state, logical);
    var r := TileOf(logical);
    PackedTile(n, state, r, head);
    HeadError(n, side, HeadOf(state.records, r, head), Tile(state.keyLog, r), Tile(state.valueLog, r), head, PlaceOf(logical));
    RowIsOriginal(n, Log(state, side), logical, head);
  }

  // ----- with the final rounding

  /** How far rounding to BF16 moves each number of a row. */
  function Roundings(n: Numerics, round: real -> bv16, x: H.Vec): (e: H.Vec)
    ensures |e| == |x|
  {
    H.Sub(Denoted(n, Rounded(round, x)), x)
  }

  lemma RoundedError(n: Numerics, round: real -> bv16, x: H.Vec, row: H.Vec)
    requires |x| == |row|
    ensures H.Energy(H.Sub(Denoted(n, Rounded(round, x)), row)) <= 2.0 * H.Energy(Roundings(n, round, x)) + 2.0 * H.Energy(H.Sub(x, row))
  {
    var moved, missed := Roundings(n, round, x), H.Sub(x, row);
    assert H.Sub(Denoted(n, Rounded(round, x)), row) == H.Add(moved, missed);
    H.EnergyOfSum(moved, missed);
  }

  /** What the decoder gathers for a packed row of a valid cache of encoded tiles: a full row, off
      from the row appended by no more than the misses of its stored numbers and its final rounding. */
  lemma GatherPacked(n: Numerics, round: real -> bv16, state: KvarnState, side: Side, logical: nat, head: nat)
    requires state.Valid() && n.Valid() && n.Divides() && HoldsTiles(n, state.encode) && Packed(state, logical) && head < KV_HEADS
    ensures Gatherable(state.Stored()) && logical < state.frontier && (TileOf(logical) + 1) * TILE_RECORD_BYTES <= |state.records|
    ensures var words, row := Gathered(n, round, state.Stored(), side, logical, true, head), Log(state, side)[logical].Head(head).words;
            var decoded := Decoded(n, side, HeadOf(state.records, TileOf(logical), head), PlaceOf(logical));
            && |words| == |row| == HEAD_DIM
            && H.Energy(H.Sub(Denoted(n, words), Denoted(n, row)))
               <= 2.0 * H.Energy(Roundings(n, round, decoded)) + 2.0 * H.Energy(MissesAt(n, state, side, logical, head))
  {
    BodyAgrees(state);
    PackedRowDecodes(n, state, side, logical, head);
    var decoded := Decoded(n, side, HeadOf(state.records, TileOf(logical), head), PlaceOf(logical));
    RoundedError(n, round, decoded, Denoted(n, Log(state, side)[logical].Head(head).words));
    assert Gathered(n, round, state.Stored(), side, logical, true, head) == Rounded(round, decoded);
  }
}
