/** The pure part of the KVarN cache: where a plain, append-only sequence of token rows
    lives once it is split into a sink, packed tile records and an exact tail ring.

    A *plane* is the sequence of all rows ever appended for keys, or for values. The physical
    buffers are functions of the plane: `Sink`, `Ring` and, through the encoder, the records. */
module KvarnLayout {
  import opened Wrappers

  const KV_HEADS: nat := 2
  const HEAD_DIM: nat := 256
  const TILE_TOKENS: nat := 128
  const SINK_TOKENS: nat := 128
  const EXACT_SUFFIX: nat := 8192
  const TAIL_CAPACITY: nat := 8320
  const TILE_RECORD_BYTES: nat := 70144
  const MAX_CONTEXT_TOKENS: nat := 262144

  type Byte = bv8

  /** One head's BF16 channel row: the unit copied between the buffers. */
  datatype HeadRow = HeadRow(words: seq<bv16>)

  /** The rows of one token, one per head. */
  datatype TokenRow = TokenRow(first: HeadRow, second: HeadRow) {
    function Head(h: nat): HeadRow
      requires h < KV_HEADS
    {
      if h == 0 then first else second
    }
  }

  type Plane = seq<TokenRow>

  function ZeroRow(): HeadRow {
    HeadRow(seq(HEAD_DIM, _ => 0))
  }

  /** Encodes 128 token-major rows of keys and of values; None when the encoder fails. */
  type Encoder = (seq<HeadRow>, seq<HeadRow>) -> Option<seq<Byte>>

  // ----- frontier arithmetic

  /** Exact sink end, packed body end and exact tail start. */
  function Partition(frontier: nat): (p: (nat, nat, nat))
    ensures p.0 <= p.1 == p.2 <= frontier
    ensures frontier - p.2 < TAIL_CAPACITY
  {
    var sink := if frontier < SINK_TOKENS then frontier else SINK_TOKENS;
    var body :=
      if frontier <= SINK_TOKENS then frontier
      else
        var eligible := if frontier <= SINK_TOKENS + EXACT_SUFFIX then 0 else frontier - (SINK_TOKENS + EXACT_SUFFIX);
        SINK_TOKENS + eligible / TILE_TOKENS * TILE_TOKENS;
    (sink, body, body)
  }

  function SaturatingSub(a: nat, b: nat): nat {
    if a < b then 0 else a - b
  }

  /** How many tiles are packed at a frontier, in closed form. */
  function RecordCount(frontier: nat): nat {
    SaturatingSub(frontier, SINK_TOKENS + EXACT_SUFFIX) / TILE_TOKENS
  }

  /** The same count as the cache computes it, from the packed body end. */
  function PackedTiles(frontier: nat): (n: nat)
    ensures n == RecordCount(frontier)
  {
    SaturatingSub(Partition(frontier).1, SINK_TOKENS) / TILE_TOKENS
  }

  /** The frontier at which the next tile seals. */
  function NextSeal(records: nat): nat {
    SINK_TOKENS + EXACT_SUFFIX + (records + 1) * TILE_TOKENS
  }

  /** The packed body is the longest run of whole tiles that leaves the exact suffix unpacked. */
  lemma BodyIsMaximal(frontier: nat, tiles: nat)
    ensures tiles <= RecordCount(frontier) <==> tiles == 0 || SINK_TOKENS + tiles * TILE_TOKENS + EXACT_SUFFIX <= frontier
    ensures frontier > SINK_TOKENS ==> Partition(frontier).1 == SINK_TOKENS + RecordCount(frontier) * TILE_TOKENS
    ensures frontier < NextSeal(RecordCount(frontier))
  {
  }

  // ----- physical placement of a plane

  /** The exact first 128 rows, head-major; cells not written yet hold zero. */
  function Sink(x: Plane): (cells: seq<HeadRow>)
    ensures |cells| == KV_HEADS * SINK_TOKENS
  {
    seq(KV_HEADS * SINK_TOKENS, j requires 0 <= j < KV_HEADS * SINK_TOKENS => SinkCell(x, j / SINK_TOKENS, j % SINK_TOKENS))
  }

  function SinkCell(x: Plane, head: nat, i: nat): HeadRow
    requires head < KV_HEADS && i < SINK_TOKENS
  {
    if i < |x| then x[i].Head(head) else ZeroRow()
  }

  /** Among the first n rows past the sink, the last one that falls in ring slot s. */
  function LastInSlot(n: nat, s: nat): (i: nat)
    requires s < n && s < TAIL_CAPACITY
    ensures i < n && i % TAIL_CAPACITY == s && n - i <= TAIL_CAPACITY
  {
    s + (n - 1 - s) / TAIL_CAPACITY * TAIL_CAPACITY
  }

  function RingCell(x: Plane, head: nat, s: nat): HeadRow
    requires head < KV_HEADS && s < TAIL_CAPACITY
  {
    if SINK_TOKENS + s < |x| then x[SINK_TOKENS + LastInSlot(|x| - SINK_TOKENS, s)].Head(head) else ZeroRow()
  }

  /** The exact tail ring, head-major: each slot holds the newest row that fell in it. */
  function Ring(x: Plane): (cells: seq<HeadRow>)
    ensures |cells| == KV_HEADS * TAIL_CAPACITY
  {
    seq(KV_HEADS * TAIL_CAPACITY, j requires 0 <= j < KV_HEADS * TAIL_CAPACITY => RingCell(x, j / TAIL_CAPACITY, j % TAIL_CAPACITY))
  }

  /** The 128 rows of tile r, token-major, as the encoder takes them. */
  function Tile(x: Plane, r: nat): (cells: seq<HeadRow>)
    requires SINK_TOKENS + (r + 1) * TILE_TOKENS <= |x|
    ensures |cells| == TILE_TOKENS * KV_HEADS
  {
    seq(TILE_TOKENS * KV_HEADS, j requires 0 <= j < TILE_TOKENS * KV_HEADS =>
      x[SINK_TOKENS + r * TILE_TOKENS + j / KV_HEADS].Head(j % KV_HEADS))
  }

  ghost predicate TileEncoded(records: seq<Byte>, encode: Encoder, keys: Plane, values: Plane, r: nat)
    requires |keys| == |values|
    requires r < RecordCount(|keys|) && |records| == RecordCount(|keys|) * TILE_RECORD_BYTES
  {
    encode(Tile(keys, r), Tile(values, r)) == Some(records[r * TILE_RECORD_BYTES..(r + 1) * TILE_RECORD_BYTES])
  }

  /** Each record is the encoding of the 128 original rows of its tile, and there are no others. */
  ghost predicate RecordsMatch(records: seq<Byte>, encode: Encoder, keys: Plane, values: Plane)
    requires |keys| == |values|
  {
    && |records| == RecordCount(|keys|) * TILE_RECORD_BYTES
    && forall r :: 0 <= r < RecordCount(|keys|) ==> TileEncoded(records, encode, keys, values, r)
  }

  /** All the logical contents of a cache. */
  datatype Contents = Contents(
    frontier: nat, records: seq<Byte>,
    sinkKeys: seq<HeadRow>, sinkValues: seq<HeadRow>,
    tailKeys: seq<HeadRow>, tailValues: seq<HeadRow>)

  /** The cache agrees with the plain sequences of rows appended to it. */
  ghost predicate Represents(c: Contents, encode: Encoder, keys: Plane, values: Plane) {
    && |keys| == |values| == c.frontier
    && c.sinkKeys == Sink(keys) && c.sinkValues == Sink(values)
    && c.tailKeys == Ring(keys) && c.tailValues == Ring(values)
    && RecordsMatch(c.records, encode, keys, values)
  }

  // ----- what the placement guarantees

  /** Row i is readable where its position says: sink, packed tile, or ring slot. No row that
      is not packed yet has been overwritten. */
  lemma RowPlacement(x: Plane, i: nat, head: nat)
    requires i < |x| && head < KV_HEADS
    ensures i < SINK_TOKENS ==> Sink(x)[head * SINK_TOKENS + i] == x[i].Head(head)
    ensures SINK_TOKENS <= i < Partition(|x|).1 ==>
              var r := (i - SINK_TOKENS) / TILE_TOKENS;
              r < RecordCount(|x|) && Tile(x, r)[(i - SINK_TOKENS) % TILE_TOKENS * KV_HEADS + head] == x[i].Head(head)
    ensures SINK_TOKENS <= i && Partition(|x|).1 <= i ==>
              Ring(x)[head * TAIL_CAPACITY + (i - SINK_TOKENS) % TAIL_CAPACITY] == x[i].Head(head)
  {
    if SINK_TOKENS <= i && |x| - i <= TAIL_CAPACITY {
      RingHoldsRecent(x, i, head);
    }
    if i < SINK_TOKENS {
      assert (head * SINK_TOKENS + i) / SINK_TOKENS == head && (head * SINK_TOKENS + i) % SINK_TOKENS == i;
    }
  }

  /** The ring still holds each of the last 8320 rows. */
  lemma RingHoldsRecent(x: Plane, i: nat, head: nat)
    requires SINK_TOKENS <= i < |x| && head < KV_HEADS
    requires |x| - i <= TAIL_CAPACITY
    ensures Ring(x)[head * TAIL_CAPACITY + (i - SINK_TOKENS) % TAIL_CAPACITY] == x[i].Head(head)
  {
    var n, m := |x| - SINK_TOKENS, i - SINK_TOKENS;
    var s := m % TAIL_CAPACITY;
    assert LastInSlot(n, s) == m;
    var j := head * TAIL_CAPACITY + s;
    assert j / TAIL_CAPACITY == head && j % TAIL_CAPACITY == s;
  }

  /** Contents are determined by the rows alone, so every way of splitting the same rows into
      accepted appends ends with the same sink, ring, records and frontier. */
  lemma SplitIndependence(a: Contents, b: Contents, encode: Encoder, keys: Plane, values: Plane)
    requires Represents(a, encode, keys, values) && Represents(b, encode, keys, values)
    ensures a == b
  {
    var n := RecordCount(|keys|);
    forall k | 0 <= k < |a.records| ensures a.records[k] == b.records[k] {
      var r := k / TILE_RECORD_BYTES;
      assert TileEncoded(a.records, encode, keys, values, r) && TileEncoded(b.records, encode, keys, values, r);
      var at := k - r * TILE_RECORD_BYTES;
      assert a.records[r * TILE_RECORD_BYTES..(r + 1) * TILE_RECORD_BYTES][at] == b.records[r * TILE_RECORD_BYTES..(r + 1) * TILE_RECORD_BYTES][at];
    }
    assert a.records == b.records;
  }

  // ----- one more row

  /** Write the first `heads` heads of a row to a slot of a head-major buffer. */
  function PlaceHeads(cells: seq<HeadRow>, stride: nat, slot: nat, row: TokenRow, heads: nat): (r: seq<HeadRow>)
    requires |cells| == KV_HEADS * stride && slot < stride && heads <= KV_HEADS
    ensures |r| == |cells|
  {
    if heads == 0 then cells
    else
      assert heads == 1 || heads == 2;
      PlaceHeads(cells, stride, slot, row, heads - 1)[(heads - 1) * stride + slot := row.Head(heads - 1)]
  }

  lemma PlacedCell(cells: seq<HeadRow>, stride: nat, slot: nat, row: TokenRow, j: nat)
    requires |cells| == KV_HEADS * stride && slot < stride && j < |cells|
    ensures PlaceHeads(cells, stride, slot, row, KV_HEADS)[j]
         == if j == slot then row.first else if j == stride + slot then row.second else cells[j]
  {
    var first := PlaceHeads(cells, stride, slot, row, 1);
    assert first == PlaceHeads(cells, stride, slot, row, 0)[slot := row.first];
    assert PlaceHeads(cells, stride, slot, row, 2) == first[stride + slot := row.second];
  }

  lemma SinkCellStep(x: Plane, row: TokenRow, j: nat)
    requires j < KV_HEADS * SINK_TOKENS
    ensures Sink(x + [row])[j]
         == if j == |x| < SINK_TOKENS then row.first else if j - SINK_TOKENS == |x| then row.second else Sink(x)[j]
  {
    assert Sink(x + [row])[j] == SinkCell(x + [row], j / SINK_TOKENS, j % SINK_TOKENS);
    assert Sink(x)[j] == SinkCell(x, j / SINK_TOKENS, j % SINK_TOKENS);
  }

  lemma LastInSlotStep(n: nat, s: nat)
    requires s < TAIL_CAPACITY
    ensures s == n % TAIL_CAPACITY ==> s < n + 1 && LastInSlot(n + 1, s) == n
    ensures s != n % TAIL_CAPACITY && s < n + 1 ==> s < n && LastInSlot(n + 1, s) == LastInSlot(n, s)
  {
  }

  lemma RingCellStep(x: Plane, row: TokenRow, j: nat)
    requires j < KV_HEADS * TAIL_CAPACITY
    ensures |x| < SINK_TOKENS ==> Ring(x + [row])[j] == Ring(x)[j]
    ensures |x| >= SINK_TOKENS ==>
              var slot := (|x| - SINK_TOKENS) % TAIL_CAPACITY;
              Ring(x + [row])[j] == if j == slot then row.first else if j == TAIL_CAPACITY + slot then row.second else Ring(x)[j]
  {
    var head, s := if j < TAIL_CAPACITY then 0 else 1, if j < TAIL_CAPACITY then j else j - TAIL_CAPACITY;
    assert head == j / TAIL_CAPACITY && s == j % TAIL_CAPACITY;
    if |x| >= SINK_TOKENS {
      LastInSlotStep(|x| - SINK_TOKENS, s);
    }
    assert Ring(x + [row])[j] == RingCell(x + [row], head, s);
    assert Ring(x)[j] == RingCell(x, head, s);
  }

  /** A buffer that differs from another only in one slot's two heads is that slot placed in it. */
  lemma PlacedBuffer(before: seq<HeadRow>, after: seq<HeadRow>, stride: nat, slot: nat, row: TokenRow)
    requires |before| == |after| == KV_HEADS * stride && slot < stride
    requires forall j :: 0 <= j < |before| ==>
               after[j] == if j == slot then row.first else if j == stride + slot then row.second else before[j]
    ensures after == PlaceHeads(before, stride, slot, row, KV_HEADS)
  {
    forall j | 0 <= j < |before| ensures after[j] == PlaceHeads(before, stride, slot, row, KV_HEADS)[j] {
      PlacedCell(before, stride, slot, row, j);
    }
  }

  /** Appending one row writes one sink slot of each head, and none once the sink is full. */
  lemma SinkStep(x: Plane, row: TokenRow)
    ensures |x| < SINK_TOKENS ==> Sink(x + [row]) == PlaceHeads(Sink(x), SINK_TOKENS, |x|, row, KV_HEADS)
    ensures |x| >= SINK_TOKENS ==> Sink(x + [row]) == Sink(x)
  {
    forall j: nat | j < KV_HEADS * SINK_TOKENS {
      SinkCellStep(x, row, j);
    }
    if |x| < SINK_TOKENS {
      PlacedBuffer(Sink(x), Sink(x + [row]), SINK_TOKENS, |x|, row);
    }
  }

  /** Appending one row past the sink writes one ring slot of each head and nothing else. */
  lemma RingStep(x: Plane, row: TokenRow)
    ensures |x| < SINK_TOKENS ==> Ring(x + [row]) == Ring(x)
    ensures |x| >= SINK_TOKENS ==>
              Ring(x + [row]) == PlaceHeads(Ring(x), TAIL_CAPACITY, (|x| - SINK_TOKENS) % TAIL_CAPACITY, row, KV_HEADS)
  {
    forall j: nat | j < KV_HEADS * TAIL_CAPACITY {
      RingCellStep(x, row, j);
    }
    if |x| >= SINK_TOKENS {
      PlacedBuffer(Ring(x), Ring(x + [row]), TAIL_CAPACITY, (|x| - SINK_TOKENS) % TAIL_CAPACITY, row);
    }
  }

  // ----- greedy splitting

  function SafeChunk(frontier: nat, requested: nat): (n: nat)
    requires requested > 0
    ensures 0 < n <= requested
    ensures frontier + n <= NextSeal(RecordCount(frontier))
    ensures n < requested ==> frontier + n == NextSeal(RecordCount(frontier))
  {
    var room := NextSeal(RecordCount(frontier)) - frontier;
    if requested < room then requested else room
  }

  /** An append up to the next seal seals at most that one tile. */
  lemma AtMostOneSeal(frontier: nat, tokens: nat)
    requires frontier + tokens <= NextSeal(RecordCount(frontier))
    ensures RecordCount(frontier) <= RecordCount(frontier + tokens) <= RecordCount(frontier) + 1
    ensures RecordCount(frontier + tokens) == RecordCount(frontier) + 1 <==> frontier + tokens == NextSeal(RecordCount(frontier))
  {
  }
}
