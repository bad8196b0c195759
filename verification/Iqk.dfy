/** Stream geometry of the IQ2_K and IQ3_K projections, and the simple append-only stream splitter:
    a stored row holds six byte streams one after another; a split projection holds each stream
    consecutively across all rows of all experts. */
module Iqk {
  import opened Wrappers
  import opened HostCopy

  const ROWS_PER_THREADGROUP: nat := 16
  const U32_MAX: nat := 0xFFFF_FFFF
  const STREAMS: nat := 6

  datatype Codec = Iq2K | Iq3K
  datatype Geometry = Geometry(codec: Codec, inFeatures: nat, outFeatures: nat)
  datatype Span = Span(rowOffset: nat, rowBytes: nat, slotBytes: nat)
  datatype Plan = Plan(rowBytes: nat, rows: nat, slots: nat, spans: seq<Span>)
  datatype IqkError =
    | NoSlots | SpansMiss | StreamOverflow | SlotOutOfRange | PayloadSize | TooManyExperts
    | AbsentStreamOffset | MisalignedOrOutOfBounds | Overlap | NotWritable | CopyRejected(cause: CopyError)

  predicate ValidGeometry(g: Geometry) {
    && (g.inFeatures == 768 || g.inFeatures == 2560)
    && g.outFeatures > 0 && g.outFeatures % ROWS_PER_THREADGROUP == 0 && g.outFeatures <= U32_MAX
  }

  function BytesPerBlock(c: Codec): nat { if c == Iq2K then 76 else 110 }

  function RowBytes(g: Geometry): nat { g.inFeatures / 256 * BytesPerBlock(g.codec) }

  /** Bytes per row of each stream: qs, qh, scl, sch, sex, dv. IQ2 has no qh and no sch. */
  function StreamLengths(g: Geometry): (widths: seq<nat>)
    ensures |widths| == STREAMS
  {
    var n := g.inFeatures;
    [n / 4, if g.codec == Iq3K then n / 8 else 0, n / 32, if g.codec == Iq3K then n / 128 else 0, n / 128, n / 256 * 2]
  }

  /** Every block of 256 weights keeps two bits a weight, a third one in IQ3, four bits of scale and
      one extra bit for each sixteen, their signs in IQ3, and one two-byte scale of its own. */
  lemma WidthsPerBlock(g: Geometry)
    requires ValidGeometry(g)
    ensures var blocks, w := g.inFeatures / 256, StreamLengths(g);
            && w[0] == 64 * blocks && 8 * w[0] == 2 * g.inFeatures
            && w[1] == (if g.codec == Iq3K then 32 * blocks else 0) && (g.codec == Iq3K ==> 8 * w[1] == g.inFeatures)
            && w[2] == 8 * blocks && 8 * w[2] == 4 * (g.inFeatures / 16)
            && w[3] == (if g.codec == Iq3K then 2 * blocks else 0) && (g.codec == Iq3K ==> 8 * w[3] == g.inFeatures / 16)
            && w[4] == 2 * blocks && 8 * w[4] == g.inFeatures / 16
            && w[5] == 2 * blocks
  {
  }

  /** Rows of streams end to end: how many rows, their stored size, and each stream's width. */
  datatype Layout = Layout(rows: nat, rowBytes: nat, widths: seq<nat>)

  function LayoutOf(g: Geometry): Layout { Layout(g.outFeatures, RowBytes(g), StreamLengths(g)) }

  /** Where a stream's span begins within a row: after the spans before it. */
  function Offset(widths: seq<nat>, stream: nat): nat
    requires stream <= |widths|
  {
    if stream == 0 then 0 else Offset(widths, stream - 1) + widths[stream - 1]
  }

  ghost predicate Fills(l: Layout) {
    && |l.widths| == STREAMS && Offset(l.widths, STREAMS) == l.rowBytes
    && l.rows > 0 && l.rowBytes > 0 && l.rows * l.rowBytes <= USIZE_MAX
  }

  lemma {:induction false} OffsetsGrow(widths: seq<nat>, i: nat, j: nat)
    requires i < j <= |widths|
    ensures Offset(widths, i) + widths[i] <= Offset(widths, j)
  {
    if i + 1 < j { OffsetsGrow(widths, i, j - 1); }
  }

  lemma SixOffsets(widths: seq<nat>)
    requires |widths| == STREAMS
    ensures Offset(widths, STREAMS) == widths[0] + widths[1] + widths[2] + widths[3] + widths[4] + widths[5]
  {
    var n := STREAMS;
    assert Offset(widths, n - 5) == widths[0];
    assert Offset(widths, n - 4) == Offset(widths, n - 5) + widths[1];
    assert Offset(widths, n - 3) == Offset(widths, n - 4) + widths[2];
    assert Offset(widths, n - 2) == Offset(widths, n - 3) + widths[3];
    assert Offset(widths, n - 1) == Offset(widths, n - 2) + widths[4];
  }

  /** The six spans fill a stored row exactly, for either codec and any whole number of blocks. */
  lemma SpansFillRow(g: Geometry)
    requires g.inFeatures % 256 == 0
    ensures Offset(StreamLengths(g), STREAMS) == RowBytes(g)
  {
    WholeBlocks(g.inFeatures, g.inFeatures / 256);
    SixOffsets(StreamLengths(g));
  }

  lemma WholeBlocks(n: nat, blocks: nat)
    requires n == 256 * blocks
    ensures n / 4 == 64 * blocks && n / 8 == 32 * blocks && n / 32 == 8 * blocks && n / 128 == 2 * blocks && n / 256 * 2 == 2 * blocks
  {
  }

  lemma GeometryFills(g: Geometry)
    requires ValidGeometry(g)
    ensures Fills(LayoutOf(g))
  {
    SpansFillRow(g);
  }

  function PayloadBytes(l: Layout): nat { l.rows * l.rowBytes }

  function SlotBytes(l: Layout, stream: nat): nat
    requires stream < |l.widths|
  {
    l.rows * l.widths[stream]
  }

  lemma SpanWithin(l: Layout, stream: nat)
    requires Fills(l) && stream < STREAMS
    ensures Offset(l.widths, stream) + l.widths[stream] <= l.rowBytes && SlotBytes(l, stream) <= USIZE_MAX
  {
    OffsetsGrow(l.widths, stream, STREAMS);
    ProductGrows(l.rows, l.widths[stream], l.rowBytes);
  }

  lemma {:induction false} ProductGrows(n: nat, a: nat, b: nat)
    requires a <= b
    ensures n * a <= n * b
  {
    if n > 0 { ProductGrows(n - 1, a, b); }
    assert n * a == (n - 1) * a + a && n * b == (n - 1) * b + b;
  }

  // ----- the copy plan

  function SpanOf(l: Layout, stream: nat): Span
    requires stream < |l.widths|
  {
    Span(Offset(l.widths, stream), l.widths[stream], SlotBytes(l, stream))
  }

  ghost predicate IsPlan(p: Plan, l: Layout, slots: nat) {
    && p.rowBytes == l.rowBytes && p.rows == l.rows && p.slots == slots && |p.spans| == |l.widths| == STREAMS
    && forall i :: 0 <= i < STREAMS ==> p.spans[i] == SpanOf(l, i)
  }

  /** Lay the spans end to end; with a slot to copy to, the layout always fills the row. */
  method NewPlan(g: Geometry, slots: nat) returns (r: Result<Plan, IqkError>)
    requires ValidGeometry(g)
    ensures r == Err(NoSlots) <==> slots == 0
    ensures slots > 0 ==> r.Ok? && IsPlan(r.value, LayoutOf(g), slots)
  {
    if slots == 0 {
      return Err(NoSlots);
    }
    var widths := StreamLengths(g);
    GeometryFills(g);
    var spans: seq<Span>, offset := [], 0;
    for index := 0 to STREAMS
      invariant |spans| == index && offset == Offset(widths, index)
      invariant forall i :: 0 <= i < index ==> spans[i] == SpanOf(LayoutOf(g), i)
    {
      SpanWithin(LayoutOf(g), index);
      if g.outFeatures * widths[index] > USIZE_MAX {
        return Err(StreamOverflow);
      }
      spans := spans + [Span(offset, widths[index], g.outFeatures * widths[index])];
      offset := offset + widths[index];
    }
    if offset != RowBytes(g) {
      return Err(SpansMiss);
    }
    return Ok(Plan(offset, g.outFeatures, slots, spans));
  }

  // ----- the splitter

  predicate IsPayload(l: Layout, payload: seq<Byte>) { |payload| == PayloadBytes(l) }

  /** One stream of one expert: that stream's span of each of its rows. */
  function StreamOf(l: Layout, payload: seq<Byte>, stream: nat): (s: seq<Byte>)
    requires Fills(l) && IsPayload(l, payload) && stream < STREAMS
    ensures |s| == SlotBytes(l, stream)
  {
    SpanWithin(l, stream);
    Strided(payload, l.rows, l.rowBytes, Offset(l.widths, stream), l.widths[stream])
  }

  ghost predicate ArePayloads(l: Layout, payloads: seq<seq<Byte>>) {
    forall s :: 0 <= s < |payloads| ==> IsPayload(l, payloads[s])
  }

  ghost function Pieces(l: Layout, payloads: seq<seq<Byte>>, stream: nat): (blocks: seq<seq<Byte>>)
    requires Fills(l) && ArePayloads(l, payloads) && stream < STREAMS
    ensures |blocks| == |payloads| && AllOfSize(blocks, SlotBytes(l, stream))
    ensures forall s :: 0 <= s < |payloads| ==> blocks[s] == StreamOf(l, payloads[s], stream)
  {
    seq(|payloads|, s requires 0 <= s < |payloads| => StreamOf(l, payloads[s], stream))
  }

  /** One stream of a list of experts, in order. */
  ghost function Joined(l: Layout, payloads: seq<seq<Byte>>, stream: nat): (s: seq<Byte>)
    requires Fills(l) && ArePayloads(l, payloads) && stream < STREAMS
    ensures |s| == |payloads| * SlotBytes(l, stream)
  {
    Concat(Pieces(l, payloads, stream), SlotBytes(l, stream))
  }

  lemma JoinedGrows(l: Layout, payloads: seq<seq<Byte>>, payload: seq<Byte>, stream: nat)
    requires Fills(l) && ArePayloads(l, payloads) && IsPayload(l, payload) && stream < STREAMS
    ensures ArePayloads(l, payloads + [payload])
    ensures Joined(l, payloads + [payload], stream) == Joined(l, payloads, stream) + StreamOf(l, payload, stream)
  {
    var blocks := Pieces(l, payloads + [payload], stream);
    assert blocks[..|payloads|] == Pieces(l, payloads, stream);
  }

  class SplitStreams {
    const layout: Layout
    var experts: nat
    var streams: seq<seq<Byte>>
    // every expert appended
    ghost var payloads: seq<seq<Byte>>

    ghost predicate Valid()
      reads this
    {
      && Fills(layout) && |streams| == STREAMS
      && ArePayloads(layout, payloads) && experts == |payloads| <= U32_MAX
      && forall i :: 0 <= i < STREAMS ==> streams[i] == Joined(layout, payloads, i)
    }

    constructor (geometry: Geometry)
      requires ValidGeometry(geometry)
      ensures Valid() && layout == LayoutOf(geometry) && payloads == []
    {
      layout := LayoutOf(geometry);
      experts, payloads := 0, [];
      streams := [[], [], [], [], [], []];
      new;
      GeometryFills(geometry);
    }

    /** Append one expert: each row's spans go to the six streams in turn. */
    method AppendRows(rows: seq<Byte>) returns (r: Result<(), IqkError>)
      requires Valid()
      modifies this
      ensures Valid()
      ensures r.Ok? <==> IsPayload(layout, rows) && old(experts) < U32_MAX
      ensures payloads == if r.Ok? then old(payloads) + [rows] else old(payloads)
    {
      if |rows| != layout.rows * layout.rowBytes {
        return Err(PayloadSize);
      }
      if experts >= U32_MAX {
        return Err(TooManyExperts);
      }
      var row := 0;
      ghost var before := streams;
      assert AppendedTo(layout, before, streams, rows, 0);
      while row < layout.rows
        invariant row <= layout.rows
        invariant AppendedTo(layout, before, streams, rows, row)
        modifies this`streams
      {
        AppendRow(rows, row, before);
        row := row + 1;
      }
      forall i | 0 <= i < STREAMS
        ensures streams[i] == Joined(layout, payloads, i) + StreamOf(layout, rows, i)
        ensures ArePayloads(layout, payloads + [rows]) && Joined(layout, payloads + [rows], i) == streams[i]
      {
        JoinedGrows(layout, payloads, rows, i);
      }
      experts := experts + 1;
      payloads := payloads + [rows];
      return Ok(());
    }

    method AppendRow(rows: seq<Byte>, row: nat, ghost before: seq<seq<Byte>>)
      requires Fills(layout) && IsPayload(layout, rows) && row < layout.rows
      requires AppendedTo(layout, before, streams, rows, row)
      modifies this`streams
      ensures AppendedTo(layout, before, streams, rows, row + 1)
    {
      var at := row * layout.rowBytes;
      ghost var start, now, goal := at, streams, WithPart(layout, before, rows, row + 1);
      RowGrows(layout, before, now, rows, row, start, goal);
      for stream := 0 to STREAMS
        invariant |streams| == STREAMS && at == start + Offset(layout.widths, stream)
        invariant forall i :: 0 <= i < stream ==> streams[i] == goal[i]
        invariant forall i :: stream <= i < STREAMS ==> streams[i] == now[i]
      {
        assert GrowsBySpan(layout, start, rows, now, goal, stream);
        var width := layout.widths[stream];
        streams := streams[stream := streams[stream] + rows[at..at + width]];
        at := at + width;
      }
    }
  }

  /** A stream grows to its goal by its span of the row that starts at `start`. */
  ghost predicate GrowsBySpan(l: Layout, start: nat, payload: seq<Byte>, now: seq<seq<Byte>>, goal: seq<seq<Byte>>, stream: nat)
    requires |l.widths| == |now| == |goal| == STREAMS && stream < STREAMS
  {
    var at := start + Offset(l.widths, stream);
    at + l.widths[stream] <= |payload| && now[stream] + payload[at..at + l.widths[stream]] == goal[stream]
  }

  ghost function WithPart(l: Layout, before: seq<seq<Byte>>, payload: seq<Byte>, rows: nat): (goal: seq<seq<Byte>>)
    requires Fills(l) && IsPayload(l, payload) && rows <= l.rows && |before| == STREAMS
    ensures AppendedTo(l, before, goal, payload, rows)
  {
    seq(STREAMS, i requires 0 <= i < STREAMS => before[i] + Part(l, payload, rows, i))
  }

  lemma RowGrows(l: Layout, before: seq<seq<Byte>>, now: seq<seq<Byte>>, payload: seq<Byte>, row: nat, start: nat, goal: seq<seq<Byte>>)
    requires Fills(l) && IsPayload(l, payload) && row < l.rows && AppendedTo(l, before, now, payload, row)
    requires start == row * l.rowBytes && goal == WithPart(l, before, payload, row + 1)
    ensures forall i :: 0 <= i < STREAMS ==> GrowsBySpan(l, start, payload, now, goal, i)
  {
    forall i | 0 <= i < STREAMS ensures GrowsBySpan(l, start, payload, now, goal, i) {
      PartGrows(l, payload, row, i, before[i]);
    }
  }

  /** One stream's spans of the first rows of a payload. */
  function Part(l: Layout, payload: seq<Byte>, rows: nat, stream: nat): seq<Byte>
    requires Fills(l) && IsPayload(l, payload) && rows <= l.rows && stream < STREAMS
  {
    SpanWithin(l, stream);
    assert rows * l.rowBytes <= PayloadBytes(l) by { if rows < l.rows { RowWithin(rows, l.rows, l.rowBytes); } }
    Strided(payload, rows, l.rowBytes, Offset(l.widths, stream), l.widths[stream])
  }

  lemma PartGrows(l: Layout, payload: seq<Byte>, row: nat, stream: nat, before: seq<Byte>)
    requires Fills(l) && IsPayload(l, payload) && row < l.rows && stream < STREAMS
    ensures var at := row * l.rowBytes + Offset(l.widths, stream);
            && at + l.widths[stream] <= |payload|
            && (before + Part(l, payload, row, stream)) + payload[at..at + l.widths[stream]] == before + Part(l, payload, row + 1, stream)
  {
    SpanWithin(l, stream);
    RowWithin(row, l.rows, l.rowBytes);
  }

  ghost predicate AppendedTo(l: Layout, before: seq<seq<Byte>>, streams: seq<seq<Byte>>, payload: seq<Byte>, rows: nat)
    requires Fills(l) && IsPayload(l, payload) && rows <= l.rows
  {
    && |before| == STREAMS && |streams| == STREAMS
    && forall i :: 0 <= i < STREAMS ==> streams[i] == before[i] + Part(l, payload, rows, i)
  }

  // ----- slots of a joined stream

  lemma JoinedSlot(l: Layout, payloads: seq<seq<Byte>>, stream: nat, slot: nat)
    requires Fills(l) && ArePayloads(l, payloads) && stream < STREAMS && slot < |payloads|
    ensures slot * SlotBytes(l, stream) + SlotBytes(l, stream) <= |payloads| * SlotBytes(l, stream)
    ensures Joined(l, payloads, stream)[slot * SlotBytes(l, stream)..slot * SlotBytes(l, stream) + SlotBytes(l, stream)]
            == StreamOf(l, payloads[slot], stream)
  {
    ConcatBlock(Pieces(l, payloads, stream), SlotBytes(l, stream), slot);
  }

  // ----- recovering the rows

  /** The first spans of a row, end to end. */
  function Flatten(spans: seq<seq<Byte>>): seq<Byte> {
    if spans == [] then [] else Flatten(spans[..|spans| - 1]) + spans[|spans| - 1]
  }

  /** One row's span of a split stream. */
  function RowSpan(l: Layout, piece: seq<Byte>, stream: nat, row: nat): seq<Byte>
    requires stream < |l.widths| && row < l.rows && |piece| == SlotBytes(l, stream)
  {
    RowWithin(row, l.rows, l.widths[stream]);
    piece[row * l.widths[stream]..row * l.widths[stream] + l.widths[stream]]
  }

  lemma RowSpanIsStored(l: Layout, payload: seq<Byte>, stream: nat, row: nat)
    requires Fills(l) && IsPayload(l, payload) && row < l.rows && stream < STREAMS
    ensures var at := row * l.rowBytes + Offset(l.widths, stream);
            at + l.widths[stream] <= |payload| && RowSpan(l, StreamOf(l, payload, stream), stream, row) == payload[at..at + l.widths[stream]]
  {
    SpanWithin(l, stream);
    StridedRow(payload, l.rows, l.rowBytes, Offset(l.widths, stream), l.widths[stream], row);
  }

  ghost predicate HoldsSpan(span: seq<Byte>, widths: seq<nat>, row: seq<Byte>, stream: nat)
    requires stream < |widths|
  {
    var start := Offset(widths, stream);
    start + widths[stream] <= |row| && span == row[start..start + widths[stream]]
  }

  lemma {:induction false} SpansRejoin(widths: seq<nat>, row: seq<Byte>, spans: seq<seq<Byte>>)
    requires |spans| <= |widths|
    requires forall i :: 0 <= i < |spans| ==> HoldsSpan(spans[i], widths, row, i)
    ensures Offset(widths, |spans|) <= |row| && Flatten(spans) == row[..Offset(widths, |spans|)]
  {
    if spans != [] {
      var n := |spans| - 1;
      SpansRejoin(widths, row, spans[..n]);
      assert HoldsSpan(spans[n], widths, row, n);
      GlueSlices(row, 0, Offset(widths, n), Offset(widths, n) + widths[n]);
    }
  }

  /** A stored row of a payload. */
  function Row(l: Layout, payload: seq<Byte>, row: nat): (bytes: seq<Byte>)
    requires IsPayload(l, payload) && row < l.rows
    ensures |bytes| == l.rowBytes
  {
    RowWithin(row, l.rows, l.rowBytes);
    payload[row * l.rowBytes..row * l.rowBytes + l.rowBytes]
  }

  lemma RowSlice(l: Layout, payload: seq<Byte>, row: nat, start: nat, width: nat)
    requires IsPayload(l, payload) && row < l.rows && start + width <= l.rowBytes
    ensures var at := row * l.rowBytes + start;
            at + width <= |payload| && Row(l, payload, row)[start..start + width] == payload[at..at + width]
  {
    RowWithin(row, l.rows, l.rowBytes);
    RowIsSlice(l, payload, row, row * l.rowBytes);
    SliceInside(payload, row * l.rowBytes, l.rowBytes, start, width, Row(l, payload, row));
  }

  lemma RowIsSlice(l: Layout, payload: seq<Byte>, row: nat, at: nat)
    requires IsPayload(l, payload) && row < l.rows && at == row * l.rowBytes
    ensures at + l.rowBytes <= |payload| && Row(l, payload, row) == payload[at..at + l.rowBytes]
  {
    RowWithin(row, l.rows, l.rowBytes);
  }

  lemma SliceInside(s: seq<Byte>, at: nat, size: nat, start: nat, width: nat, inner: seq<Byte>)
    requires at + size <= |s| && start + width <= size && inner == s[at..at + size]
    ensures at + start + width <= |s| && inner[start..start + width] == s[at + start..at + start + width]
  {
    SliceOfSlice(s, at, size, start, width);
  }

  lemma SliceOfSlice(s: seq<Byte>, at: nat, size: nat, start: nat, width: nat)
    requires at + size <= |s| && start + width <= size
    ensures s[at..at + size][start..start + width] == s[at + start..at + start + width]
  {
    var inner := s[at..at + size];
    var left, right := inner[start..start + width], s[at + start..at + start + width];
    forall k | 0 <= k < width ensures left[k] == right[k] {
      assert inner[start + k] == s[at + (start + k)];
    }
  }

  lemma RowSpanHeld(l: Layout, payload: seq<Byte>, stream: nat, row: nat)
    requires Fills(l) && IsPayload(l, payload) && row < l.rows && stream < STREAMS
    ensures HoldsSpan(RowSpan(l, StreamOf(l, payload, stream), stream, row), l.widths, Row(l, payload, row), stream)
  {
    SpanWithin(l, stream);
    RowSpanIsStored(l, payload, stream, row);
    RowSlice(l, payload, row, Offset(l.widths, stream), l.widths[stream]);
  }

  function RowSpans(l: Layout, streams: seq<seq<Byte>>, row: nat): (spans: seq<seq<Byte>>)
    requires |streams| == |l.widths| == STREAMS && row < l.rows
    requires forall i :: 0 <= i < STREAMS ==> |streams[i]| == SlotBytes(l, i)
  {
    seq(STREAMS, i requires 0 <= i < STREAMS => RowSpan(l, streams[i], i, row))
  }

  function Split(l: Layout, payload: seq<Byte>): (streams: seq<seq<Byte>>)
    requires Fills(l) && IsPayload(l, payload)
    ensures |streams| == STREAMS && forall i :: 0 <= i < STREAMS ==> streams[i] == StreamOf(l, payload, i)
  {
    seq(STREAMS, i requires 0 <= i < STREAMS => StreamOf(l, payload, i))
  }

  /** Splitting loses nothing: every stored row of an expert is its spans of the six split streams,
      end to end. */
  lemma RowRecovered(l: Layout, payload: seq<Byte>, row: nat)
    requires Fills(l) && IsPayload(l, payload) && row < l.rows
    ensures Flatten(RowSpans(l, Split(l, payload), row)) == Row(l, payload, row)
  {
    var spans := RowSpans(l, Split(l, payload), row);
    forall i | 0 <= i < STREAMS ensures HoldsSpan(spans[i], l.widths, Row(l, payload, row), i) {
      RowSpanHeld(l, payload, i, row);
    }
    SpansRejoin(l.widths, Row(l, payload, row), spans);
    var n := STREAMS;
    assert Offset(l.widths, n) == l.rowBytes;
  }

  /** So split streams determine every payload. */
  lemma SplitDetermines(l: Layout, a: seq<Byte>, b: seq<Byte>)
    requires Fills(l) && IsPayload(l, a) && IsPayload(l, b) && Split(l, a) == Split(l, b)
    ensures a == b
  {
    forall k | 0 <= k < |a| ensures a[k] == b[k] {
      SameByte(l, a, b, k);
    }
  }

  lemma SameRow(l: Layout, a: seq<Byte>, b: seq<Byte>, row: nat)
    requires Fills(l) && IsPayload(l, a) && IsPayload(l, b) && Split(l, a) == Split(l, b) && row < l.rows
    ensures Row(l, a, row) == Row(l, b, row)
  {
    RowRecovered(l, a, row);
    RowRecovered(l, b, row);
  }

  lemma ByteOfRow(l: Layout, payload: seq<Byte>, row: nat, at: nat, k: nat)
    requires IsPayload(l, payload) && row < l.rows && at == row * l.rowBytes <= k < at + l.rowBytes
    ensures k < |payload| && Row(l, payload, row)[k - at] == payload[k]
  {
    RowWithin(row, l.rows, l.rowBytes);
  }

  lemma SameByte(l: Layout, a: seq<Byte>, b: seq<Byte>, k: nat)
    requires Fills(l) && IsPayload(l, a) && IsPayload(l, b) && Split(l, a) == Split(l, b) && k < |a|
    ensures a[k] == b[k]
  {
    var row, at := RowOfByte(k, l.rows, l.rowBytes);
    SameRow(l, a, b, row);
    ByteOfRow(l, a, row, at, k);
    ByteOfRow(l, b, row, at, k);
  }

  lemma RowOfByte(k: nat, rows: nat, rowBytes: nat) returns (row: nat, at: nat)
    requires rowBytes > 0 && k < rows * rowBytes
    ensures row < rows && at == row * rowBytes <= k < at + rowBytes
  {
    row := k / rowBytes;
    at := row * rowBytes;
    assert at <= k < at + rowBytes;
    if row >= rows {
      ProductGrows(rowBytes, rows, row);
      assert false;
    }
  }
}
