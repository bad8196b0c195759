/** One tile through the whole codec, over the reals: each head's rows are rotated, balanced,
    quantised and packed; a packed row is decoded by undoing those steps. */
module TileCodec {
  import opened Wrappers
  import opened KvarnLayout
  import opened KvarnRestore
  import Kvarn
  import H = Hadamard
  import Q = Quantize
  import T = TileRecord

  const ELEMENTS: nat := 32768

  /** A balanced matrix, and the factors taken out of its columns and its rows. */
  datatype Balanced = Balanced(matrix: seq<real>, columns: seq<real>, rows: seq<real>)
  {
    predicate Shaped(rowCount: nat, columnCount: nat) {
      |matrix| == rowCount * columnCount && |columns| == columnCount && |rows| == rowCount
    }
  }

  /** The arithmetic a codec is built from: what BF16 words and FP16 values denote, how a value
      narrows to FP16, and the normaliser, which may fail. */
  datatype Numerics = Numerics(
    value: bv16 -> real, narrow: real -> T.Half, widen: T.Half -> real,
    normalize: (seq<real>, nat, nat) -> Option<Balanced>)
  {
    ghost predicate Valid() {
      forall m, r, c :: normalize(m, r, c).Some? ==> normalize(m, r, c).value.Shaped(r, c)
    }

    /** The normaliser only ever divides rows and columns by positive factors. */
    ghost predicate Divides() {
      forall m, r: nat, c: nat :: |m| == r * c && normalize(m, r, c).Some? ==> DividedMatrix(m, normalize(m, r, c).value, r, c)
    }
  }

  /** A matrix divided, element by element, by its column's and its row's positive factor. */
  ghost predicate DividedMatrix(m: seq<real>, b: Balanced, rows: nat, columns: nat) {
    b.Shaped(rows, columns) &&
    forall r: nat, c: nat :: r < rows && c < columns ==> DividedAt(m, b, r, c, columns)
  }

  ghost predicate DividedAt(m: seq<real>, b: Balanced, r: nat, c: nat, columns: nat) {
    && r < |b.rows| && c < |b.columns| && r * columns + c < |m| == |b.matrix|
    && Divided(m[r * columns + c], b.matrix[r * columns + c], b.columns[c], b.rows[r])
  }

  // ----- the rows of a tile

  /** All 128 token-major rows of both heads, each of full width. */
  predicate WholeTile(cells: seq<HeadRow>) {
    |cells| == TILE_TOKENS * KV_HEADS && forall j :: 0 <= j < |cells| ==> |cells[j].words| == HEAD_DIM
  }

  function RowOf(n: Numerics, cells: seq<HeadRow>, head: nat, t: nat): (row: H.Vec)
    requires WholeTile(cells) && head < KV_HEADS && t < TILE_TOKENS
    ensures |row| == HEAD_DIM
  {
    var words := cells[t * KV_HEADS + head].words;
    seq(HEAD_DIM, c requires 0 <= c < HEAD_DIM => n.value(words[c]))
  }

  ghost predicate TileRows(rows: seq<H.Vec>) {
    |rows| == TILE_TOKENS && forall t :: 0 <= t < TILE_TOKENS ==> |rows[t]| == HEAD_DIM
  }

  ghost function RotatedRows(n: Numerics, cells: seq<HeadRow>, head: nat): (rows: seq<H.Vec>)
    requires WholeTile(cells) && head < KV_HEADS
    ensures TileRows(rows)
  {
    seq(TILE_TOKENS, t requires 0 <= t < TILE_TOKENS => H.Rotated(RowOf(n, cells, head, t)))
  }

  ghost function TokenMajor(rows: seq<H.Vec>): (m: seq<real>)
    requires TileRows(rows)
    ensures |m| == ELEMENTS
  {
    seq(ELEMENTS, i requires 0 <= i < ELEMENTS => rows[i / HEAD_DIM][i % HEAD_DIM])
  }

  ghost function ChannelMajor(rows: seq<H.Vec>): (m: seq<real>)
    requires TileRows(rows)
    ensures |m| == ELEMENTS
  {
    seq(ELEMENTS, i requires 0 <= i < ELEMENTS => rows[i % TILE_TOKENS][i / TILE_TOKENS])
  }

  method RotateRow(source: H.Vec) returns (row: H.Vec)
    requires |source| == HEAD_DIM
    ensures row == H.Rotated(source)
  {
    var buffer := new real[HEAD_DIM](c requires 0 <= c < HEAD_DIM => source[c]);
    assert buffer[..] == source;
    H.Rotate(buffer);
    row := buffer[..];
  }

  /** The first rows are in place, token-major. */
  ghost predicate RowsPlaced(m: seq<real>, rows: seq<H.Vec>, count: nat)
    requires TileRows(rows) && count <= TILE_TOKENS && |m| == ELEMENTS
  {
    forall i :: 0 <= i < count * HEAD_DIM ==> m[i] == rows[i / HEAD_DIM][i % HEAD_DIM]
  }

  lemma PlacedNext(before: seq<real>, after: seq<real>, rows: seq<H.Vec>, t: nat)
    requires TileRows(rows) && t < TILE_TOKENS && |before| == |after| == ELEMENTS && RowsPlaced(before, rows, t)
    requires forall i :: 0 <= i < t * HEAD_DIM ==> after[i] == before[i]
    requires forall i :: t * HEAD_DIM <= i < t * HEAD_DIM + HEAD_DIM ==> after[i] == rows[t][i - t * HEAD_DIM]
    ensures RowsPlaced(after, rows, t + 1)
  {
    forall i | 0 <= i < (t + 1) * HEAD_DIM ensures after[i] == rows[i / HEAD_DIM][i % HEAD_DIM] {
      if i >= t * HEAD_DIM {
        assert i / HEAD_DIM == t && i % HEAD_DIM == i - t * HEAD_DIM;
      }
    }
  }

  method PlaceRow(buffer: array<real>, token: nat, row: H.Vec, ghost rows: seq<H.Vec>)
    requires TileRows(rows) && token < TILE_TOKENS && row == rows[token] && buffer.Length == ELEMENTS
    requires RowsPlaced(buffer[..], rows, token)
    modifies buffer
    ensures RowsPlaced(buffer[..], rows, token + 1)
  {
    ghost var before := buffer[..];
    var at := token * HEAD_DIM;
    forall c | 0 <= c < HEAD_DIM {
      buffer[at + c] := row[c];
    }
    forall i | at <= i < at + HEAD_DIM ensures buffer[i] == row[i - at] {
      assert buffer[at + (i - at)] == row[i - at];
    }
    PlacedNext(before, buffer[..], rows, token);
  }

  method RotateRows(n: Numerics, cells: seq<HeadRow>, head: nat) returns (rotated: seq<real>)
    requires WholeTile(cells) && head < KV_HEADS
    ensures rotated == TokenMajor(RotatedRows(n, cells, head))
  {
    ghost var rows := RotatedRows(n, cells, head);
    var buffer := new real[ELEMENTS](_ => 0.0);
    for token := 0 to TILE_TOKENS
      invariant RowsPlaced(buffer[..], rows, token)
    {
      var row := RotateRow(RowOf(n, cells, head, token));
      PlaceRow(buffer, token, row, rows);
    }
    rotated := buffer[..];
  }

  method Transpose(rotated: seq<real>, ghost rows: seq<H.Vec>) returns (matrix: seq<real>)
    requires TileRows(rows) && rotated == TokenMajor(rows)
    ensures matrix == ChannelMajor(rows)
  {
    var buffer := new real[ELEMENTS](_ => 0.0);
    for token := 0 to TILE_TOKENS
      invariant forall i :: 0 <= i < ELEMENTS && i % TILE_TOKENS < token ==> buffer[i] == rows[i % TILE_TOKENS][i / TILE_TOKENS]
    {
      for channel := 0 to HEAD_DIM
        invariant forall i :: 0 <= i < ELEMENTS && (i % TILE_TOKENS < token || (i % TILE_TOKENS == token && i / TILE_TOKENS < channel)) ==>
                    buffer[i] == rows[i % TILE_TOKENS][i / TILE_TOKENS]
      {
        var from := token * HEAD_DIM + channel;
        assert from / HEAD_DIM == token && from % HEAD_DIM == channel;
        buffer[channel * TILE_TOKENS + token] := rotated[from];
      }
    }
    matrix := buffer[..];
  }

  // ----- what a head record holds

  function Times(a: real, b: real): real { a * b }

  function HalfAt(record: seq<Byte>, at: nat): T.Half
    requires at + 2 <= |record|
  {
    T.Half(record[at], record[at + 1])
  }

  /** The least value of the row at `start`. */
  ghost function Low(m: seq<real>, start: nat, columns: nat): real
    requires columns > 0 && start + columns <= |m|
  {
    Q.MinOf(m[start..start + columns])
  }

  /** The quantisation step of the row at `start`. */
  ghost function StepOf(m: seq<real>, start: nat, columns: nat): real
    requires columns > 0 && start + columns <= |m|
  {
    Q.ScaleOf(Low(m, start, columns), Q.MaxOf(m[start..start + columns]))
  }

  /** A row's scaled step and low value, and a column's factor, narrowed to FP16. */
  ghost predicate FactorsHeld(n: Numerics, scale: T.Half, zero: T.Half, factor: T.Half, step: real, low: real, row: real, column: real) {
    scale == n.narrow(Times(row, step)) && zero == n.narrow(Times(row, low)) && factor == n.narrow(column)
  }

  /** The record codes the balanced key of a channel and token by the nearest code, at most half the
      channel's step away, and holds the channel's and the token's factors narrowed. */
  ghost predicate KeyHeld(n: Numerics, record: seq<Byte>, b: Balanced, c: nat, t: nat)
    requires |record| == T.HEAD_RECORD_BYTES && b.Shaped(HEAD_DIM, TILE_TOKENS) && c < HEAD_DIM && t < TILE_TOKENS
  {
    var low, step := Low(b.matrix, c * TILE_TOKENS, TILE_TOKENS), StepOf(b.matrix, c * TILE_TOKENS, TILE_TOKENS);
    && Q.WellCoded(b.matrix[c * TILE_TOKENS + t], low, step, T.KeyCode(record, c, t) as int)
    && FactorsHeld(n, HalfAt(record, T.K_SCALE + 2 * c), HalfAt(record, T.K_ZERO + 2 * c), HalfAt(record, T.K_TOKEN_SCALE + 2 * t),
                   step, low, b.rows[c], b.columns[t])
  }

  /** The same for the balanced value of a channel and token, whose rows are the tokens. */
  ghost predicate ValueHeld(n: Numerics, record: seq<Byte>, b: Balanced, c: nat, t: nat)
    requires |record| == T.HEAD_RECORD_BYTES && b.Shaped(TILE_TOKENS, HEAD_DIM) && c < HEAD_DIM && t < TILE_TOKENS
  {
    var low, step := Low(b.matrix, t * HEAD_DIM, HEAD_DIM), StepOf(b.matrix, t * HEAD_DIM, HEAD_DIM);
    && Q.WellCoded(b.matrix[t * HEAD_DIM + c], low, step, T.ValueCode(record, c, t) as int)
    && FactorsHeld(n, HalfAt(record, T.V_TOKEN_SCALE + 2 * t), HalfAt(record, T.V_ZERO + 2 * t), HalfAt(record, T.V_CHANNEL_SCALE + 2 * c),
                   step, low, b.rows[t], b.columns[c])
  }

  ghost function BalancedKeys(n: Numerics, keys: seq<HeadRow>, head: nat): Option<Balanced>
    requires WholeTile(keys) && head < KV_HEADS
  {
    n.normalize(ChannelMajor(RotatedRows(n, keys, head)), HEAD_DIM, TILE_TOKENS)
  }

  ghost function BalancedValues(n: Numerics, values: seq<HeadRow>, head: nat): Option<Balanced>
    requires WholeTile(values) && head < KV_HEADS
  {
    n.normalize(TokenMajor(RotatedRows(n, values, head)), TILE_TOKENS, HEAD_DIM)
  }

  /** Every factor of a balanced matrix, scaled by its row's step and low, narrows to a finite value. */
  ghost predicate FiniteFactors(n: Numerics, b: Balanced, rows: nat, columns: nat)
    requires columns > 0 && b.Shaped(rows, columns)
  {
    && (forall r: nat :: r < rows ==> FiniteRow(n, b, r, columns))
    && (forall c :: 0 <= c < columns ==> T.FiniteHalf(n.narrow(b.columns[c])))
  }

  ghost predicate FiniteRow(n: Numerics, b: Balanced, r: nat, columns: nat)
    requires columns > 0 && r < |b.rows| && |b.matrix| == |b.rows| * columns
  {
    Q.RowStarts(r, |b.rows|, columns);
    && T.FiniteHalf(n.narrow(Times(b.rows[r], StepOf(b.matrix, r * columns, columns))))
    && T.FiniteHalf(n.narrow(Times(b.rows[r], Low(b.matrix, r * columns, columns))))
  }

  // ----- encoding one head

  function CodeBytes(codes: seq<int>): (bytes: seq<Byte>)
    requires forall i :: 0 <= i < |codes| ==> 0 <= codes[i] <= Q.TOP_CODE
    ensures |bytes| == |codes| && T.AllCodes(bytes)
    ensures forall i :: 0 <= i < |codes| ==> bytes[i] as int == codes[i]
  {
    seq(|codes|, i requires 0 <= i < |codes| => codes[i] as bv8)
  }

  function Narrowed(n: Numerics, xs: seq<real>): (halves: seq<T.Half>)
    ensures |halves| == |xs| && forall i :: 0 <= i < |xs| ==> halves[i] == n.narrow(xs[i])
  {
    seq(|xs|, i requires 0 <= i < |xs| => n.narrow(xs[i]))
  }

  function Products(a: seq<real>, b: seq<real>): (c: seq<real>)
    requires |a| == |b|
    ensures |c| == |a| && forall i :: 0 <= i < |a| ==> c[i] == Times(a[i], b[i])
  {
    seq(|a|, i requires 0 <= i < |a| => Times(a[i], b[i]))
  }

  /** A quantised matrix: its codes, and each row's step and low value. */
  datatype Quantized = Quantized(codes: seq<int>, steps: seq<real>, lows: seq<real>)
  {
    ghost predicate Codes(m: seq<real>, rows: nat, columns: nat) {
      && columns > 0 && |codes| == |m| == rows * columns && |steps| == |lows| == rows
      && Q.RowsCoded(m, rows, columns, codes, steps, lows)
      && forall i :: 0 <= i < |codes| ==> 0 <= codes[i] <= Q.TOP_CODE
    }
  }

  lemma CodedAt(m: seq<real>, rows: nat, columns: nat, q: Quantized, row: nat, start: nat, i: nat)
    requires q.Codes(m, rows, columns) && row < rows && start == row * columns && start <= i < start + columns
    ensures start + columns <= |m|
    ensures q.steps[row] == StepOf(m, start, columns) && q.lows[row] == Low(m, start, columns)
    ensures Q.WellCoded(m[i], Low(m, start, columns), StepOf(m, start, columns), q.codes[i])
  {
    Q.RowsCodedAt(m, rows, columns, q.codes, q.steps, q.lows, row);
    Q.RowCodedIsNearest(m, start, columns, q.codes, q.steps[row], q.lows[row], i);
  }

  /** What the key half of a head record is filled from. */
  ghost predicate KeyParts(n: Numerics, p: T.HeadParts, b: Balanced, q: Quantized) {
    && KeyFactors(n, p, b, q) && |b.matrix| == ELEMENTS && q.Codes(b.matrix, HEAD_DIM, TILE_TOKENS)
    && p.keyCodes == CodeBytes(q.codes)
  }

  ghost predicate KeyFactors(n: Numerics, p: T.HeadParts, b: Balanced, q: Quantized) {
    && p.Shaped() && |b.rows| == |q.steps| == |q.lows| == HEAD_DIM && |b.columns| == TILE_TOKENS
    && p.keyScale == Narrowed(n, Products(b.rows, q.steps)) && p.keyZero == Narrowed(n, Products(b.rows, q.lows))
    && p.keyTokenScale == Narrowed(n, b.columns)
  }

  /** What the value half of a head record is filled from. */
  ghost predicate ValueParts(n: Numerics, p: T.HeadParts, b: Balanced, q: Quantized) {
    && ValueFactors(n, p, b, q) && |b.matrix| == ELEMENTS && q.Codes(b.matrix, TILE_TOKENS, HEAD_DIM)
    && p.valueCodes == CodeBytes(q.codes)
  }

  ghost predicate ValueFactors(n: Numerics, p: T.HeadParts, b: Balanced, q: Quantized) {
    && p.Shaped() && |b.rows| == |q.steps| == |q.lows| == TILE_TOKENS && |b.columns| == HEAD_DIM
    && p.valueTokenScale == Narrowed(n, Products(b.rows, q.steps)) && p.valueZero == Narrowed(n, Products(b.rows, q.lows))
    && p.valueChannelScale == Narrowed(n, b.columns)
  }

  lemma KeyCodeIs(n: Numerics, record: seq<Byte>, p: T.HeadParts, b: Balanced, q: Quantized, c: nat, t: nat)
    requires KeyParts(n, p, b, q) && T.ReadsBack(record, p) && c < HEAD_DIM && t < TILE_TOKENS
    ensures T.KeyCode(record, c, t) as int == q.codes[c * TILE_TOKENS + t]
  {
    assert T.KeyCode(record, c, t) == p.keyCodes[c * TILE_TOKENS + t];
  }

  lemma ValueCodeIs(n: Numerics, record: seq<Byte>, p: T.HeadParts, b: Balanced, q: Quantized, c: nat, t: nat)
    requires ValueParts(n, p, b, q) && T.ReadsBack(record, p) && c < HEAD_DIM && t < TILE_TOKENS
    ensures T.ValueCode(record, c, t) as int == q.codes[t * HEAD_DIM + c]
  {
    assert T.ValueCode(record, c, t) == p.valueCodes[t * HEAD_DIM + c];
  }

  lemma SectionHolds(n: Numerics, record: seq<Byte>, base: nat, xs: seq<real>, i: nat)
    requires base + 2 * |xs| <= |record| && T.HalvesAt(record, base, Narrowed(n, xs)) && i < |xs|
    ensures HalfAt(record, base + 2 * i) == n.narrow(xs[i])
  {
    assert T.Half(record[base + 2 * i], record[base + 2 * i + 1]) == Narrowed(n, xs)[i];
  }

  lemma ProductHeld(n: Numerics, record: seq<Byte>, base: nat, a: seq<real>, b: seq<real>, i: nat)
    requires |a| == |b| && base + 2 * |a| <= |record| && i < |a|
    requires T.HalvesAt(record, base, Narrowed(n, Products(a, b)))
    ensures HalfAt(record, base + 2 * i) == n.narrow(Times(a[i], b[i]))
  {
    SectionHolds(n, record, base, Products(a, b), i);
  }

  lemma KeySections(record: seq<Byte>, p: T.HeadParts)
    requires p.Shaped() && T.ReadsBack(record, p)
    ensures |record| == T.HEAD_RECORD_BYTES
    ensures T.HalvesAt(record, T.K_SCALE, p.keyScale) && T.HalvesAt(record, T.K_ZERO, p.keyZero)
    ensures T.HalvesAt(record, T.K_TOKEN_SCALE, p.keyTokenScale)
  {
  }

  lemma ValueSections(record: seq<Byte>, p: T.HeadParts)
    requires p.Shaped() && T.ReadsBack(record, p)
    ensures |record| == T.HEAD_RECORD_BYTES
    ensures T.HalvesAt(record, T.V_TOKEN_SCALE, p.valueTokenScale) && T.HalvesAt(record, T.V_ZERO, p.valueZero)
    ensures T.HalvesAt(record, T.V_CHANNEL_SCALE, p.valueChannelScale)
  {
  }

  lemma SameCode(x: real, low: real, step: real, code: int, same: int)
    requires Q.WellCoded(x, low, step, code) && code == same
    ensures Q.WellCoded(x, low, step, same)
  {
  }

  lemma KeyIsHeld(n: Numerics, record: seq<Byte>, p: T.HeadParts, b: Balanced, q: Quantized, c: nat, t: nat)
    requires KeyParts(n, p, b, q) && T.ReadsBack(record, p) && c < HEAD_DIM && t < TILE_TOKENS
    ensures KeyHeld(n, record, b, c, t)
  {
    KeyIsCoded(n, record, p, b, q, c, t);
    CodedAt(b.matrix, HEAD_DIM, TILE_TOKENS, q, c, c * TILE_TOKENS, c * TILE_TOKENS + t);
    KeyFactorsHeld(n, record, p, b, q, c, t, StepOf(b.matrix, c * TILE_TOKENS, TILE_TOKENS), Low(b.matrix, c * TILE_TOKENS, TILE_TOKENS));
  }

  lemma KeyIsCoded(n: Numerics, record: seq<Byte>, p: T.HeadParts, b: Balanced, q: Quantized, c: nat, t: nat)
    requires KeyParts(n, p, b, q) && T.ReadsBack(record, p) && c < HEAD_DIM && t < TILE_TOKENS
    ensures Q.WellCoded(b.matrix[c * TILE_TOKENS + t], Low(b.matrix, c * TILE_TOKENS, TILE_TOKENS),
                        StepOf(b.matrix, c * TILE_TOKENS, TILE_TOKENS), T.KeyCode(record, c, t) as int)
  {
    CodedAt(b.matrix, HEAD_DIM, TILE_TOKENS, q, c, c * TILE_TOKENS, c * TILE_TOKENS + t);
    KeyCodeIs(n, record, p, b, q, c, t);
    SameCode(b.matrix[c * TILE_TOKENS + t], Low(b.matrix, c * TILE_TOKENS, TILE_TOKENS), StepOf(b.matrix, c * TILE_TOKENS, TILE_TOKENS),
             q.codes[c * TILE_TOKENS + t], T.KeyCode(record, c, t) as int);
  }

  lemma KeyFactorsHeld(n: Numerics, record: seq<Byte>, p: T.HeadParts, b: Balanced, q: Quantized, c: nat, t: nat, step: real, low: real)
    requires KeyFactors(n, p, b, q) && T.ReadsBack(record, p) && c < HEAD_DIM && t < TILE_TOKENS
    requires step == q.steps[c] && low == q.lows[c]
    ensures FactorsHeld(n, HalfAt(record, T.K_SCALE + 2 * c), HalfAt(record, T.K_ZERO + 2 * c), HalfAt(record, T.K_TOKEN_SCALE + 2 * t),
                        step, low, b.rows[c], b.columns[t])
  {
    KeySections(record, p);
    ProductHeld(n, record, T.K_SCALE, b.rows, q.steps, c);
    ProductHeld(n, record, T.K_ZERO, b.rows, q.lows, c);
    SectionHolds(n, record, T.K_TOKEN_SCALE, b.columns, t);
  }

  lemma ValueIsHeld(n: Numerics, record: seq<Byte>, p: T.HeadParts, b: Balanced, q: Quantized, c: nat, t: nat)
    requires ValueParts(n, p, b, q) && T.ReadsBack(record, p) && c < HEAD_DIM && t < TILE_TOKENS
    ensures ValueHeld(n, record, b, c, t)
  {
    ValueIsCoded(n, record, p, b, q, c, t);
    CodedAt(b.matrix, TILE_TOKENS, HEAD_DIM, q, t, t * HEAD_DIM, t * HEAD_DIM + c);
    ValueFactorsHeld(n, record, p, b, q, c, t, StepOf(b.matrix, t * HEAD_DIM, HEAD_DIM), Low(b.matrix, t * HEAD_DIM, HEAD_DIM));
  }

  lemma ValueIsCoded(n: Numerics, record: seq<Byte>, p: T.HeadParts, b: Balanced, q: Quantized, c: nat, t: nat)
    requires ValueParts(n, p, b, q) && T.ReadsBack(record, p) && c < HEAD_DIM && t < TILE_TOKENS
    ensures Q.WellCoded(b.matrix[t * HEAD_DIM + c], Low(b.matrix, t * HEAD_DIM, HEAD_DIM),
                        StepOf(b.matrix, t * HEAD_DIM, HEAD_DIM), T.ValueCode(record, c, t) as int)
  {
    CodedAt(b.matrix, TILE_TOKENS, HEAD_DIM, q, t, t * HEAD_DIM, t * HEAD_DIM + c);
    ValueCodeIs(n, record, p, b, q, c, t);
    SameCode(b.matrix[t * HEAD_DIM + c], Low(b.matrix, t * HEAD_DIM, HEAD_DIM), StepOf(b.matrix, t * HEAD_DIM, HEAD_DIM),
             q.codes[t * HEAD_DIM + c], T.ValueCode(record, c, t) as int);
  }

  lemma ValueFactorsHeld(n: Numerics, record: seq<Byte>, p: T.HeadParts, b: Balanced, q: Quantized, c: nat, t: nat, step: real, low: real)
    requires ValueFactors(n, p, b, q) && T.ReadsBack(record, p) && c < HEAD_DIM && t < TILE_TOKENS
    requires step == q.steps[t] && low == q.lows[t]
    ensures FactorsHeld(n, HalfAt(record, T.V_TOKEN_SCALE + 2 * t), HalfAt(record, T.V_ZERO + 2 * t), HalfAt(record, T.V_CHANNEL_SCALE + 2 * c),
                        step, low, b.rows[t], b.columns[c])
  {
    ValueSections(record, p);
    ProductHeld(n, record, T.V_TOKEN_SCALE, b.rows, q.steps, t);
    ProductHeld(n, record, T.V_ZERO, b.rows, q.lows, t);
    SectionHolds(n, record, T.V_CHANNEL_SCALE, b.columns, c);
  }

  method QuantizeMatrix(m: seq<real>, rows: nat, columns: nat) returns (q: Quantized)
    requires columns > 0 && |m| == rows * columns
    ensures q.Codes(m, rows, columns)
  {
    var codes, steps, lows := Q.QuantizeRows(m, rows, columns);
    q := Quantized(codes, steps, lows);
  }

  lemma FactorsFinite(n: Numerics, b: Balanced, q: Quantized, rows: nat, columns: nat)
    requires b.Shaped(rows, columns) && q.Codes(b.matrix, rows, columns)
    ensures FiniteFactors(n, b, rows, columns) <==>
              && T.AllFinite(Narrowed(n, Products(b.rows, q.steps))) && T.AllFinite(Narrowed(n, Products(b.rows, q.lows)))
              && T.AllFinite(Narrowed(n, b.columns))
  {
    var steps, lows := Narrowed(n, Products(b.rows, q.steps)), Narrowed(n, Products(b.rows, q.lows));
    forall r: nat | r < rows ensures FiniteRow(n, b, r, columns) <==> T.FiniteHalf(steps[r]) && T.FiniteHalf(lows[r]) {
      Q.RowStarts(r, rows, columns);
      CodedAt(b.matrix, rows, columns, q, r, r * columns, r * columns);
    }
    if FiniteFactors(n, b, rows, columns) {
      forall r | 0 <= r < rows ensures T.FiniteHalf(steps[r]) && T.FiniteHalf(lows[r]) {
        assert FiniteRow(n, b, r, columns);
      }
    }
  }

  /** The keys and values of a head can be encoded: both are balanced, and every factor is finite. */
  ghost predicate Encodable(n: Numerics, keys: seq<HeadRow>, values: seq<HeadRow>, head: nat)
    requires n.Valid() && WholeTile(keys) && WholeTile(values) && head < KV_HEADS
  {
    var k, v := BalancedKeys(n, keys, head), BalancedValues(n, values, head);
    && k.Some? && FiniteFactors(n, k.value, HEAD_DIM, TILE_TOKENS)
    && v.Some? && FiniteFactors(n, v.value, TILE_TOKENS, HEAD_DIM)
  }

  /** The record holds the balanced keys and values of a head. */
  ghost predicate HeadHeld(n: Numerics, record: seq<Byte>, keys: seq<HeadRow>, values: seq<HeadRow>, head: nat)
    requires n.Valid() && WholeTile(keys) && WholeTile(values) && head < KV_HEADS
  {
    var k, v := BalancedKeys(n, keys, head), BalancedValues(n, values, head);
    && |record| == T.HEAD_RECORD_BYTES && k.Some? && v.Some?
    && (forall c: nat, t: nat :: c < HEAD_DIM && t < TILE_TOKENS ==> KeyHeld(n, record, k.value, c, t))
    && (forall c: nat, t: nat :: c < HEAD_DIM && t < TILE_TOKENS ==> ValueHeld(n, record, v.value, c, t))
  }

  /** Pack two quantised matrices with their factors. */
  method PackHead(n: Numerics, k: Balanced, keyCodes: Quantized, v: Balanced, valueCodes: Quantized) returns (r: Option<seq<Byte>>)
    requires k.Shaped(HEAD_DIM, TILE_TOKENS) && v.Shaped(TILE_TOKENS, HEAD_DIM)
    requires keyCodes.Codes(k.matrix, HEAD_DIM, TILE_TOKENS) && valueCodes.Codes(v.matrix, TILE_TOKENS, HEAD_DIM)
    ensures r.Some? <==> FiniteFactors(n, k, HEAD_DIM, TILE_TOKENS) && FiniteFactors(n, v, TILE_TOKENS, HEAD_DIM)
    ensures r.Some? ==> HeadRecord(r.value) && |r.value| == T.HEAD_RECORD_BYTES
    ensures r.Some? ==> forall c: nat, t: nat :: c < HEAD_DIM && t < TILE_TOKENS ==> KeyHeld(n, r.value, k, c, t)
    ensures r.Some? ==> forall c: nat, t: nat :: c < HEAD_DIM && t < TILE_TOKENS ==> ValueHeld(n, r.value, v, c, t)
  {
    var p := T.HeadParts(
      CodeBytes(keyCodes.codes), Narrowed(n, Products(k.rows, keyCodes.steps)), Narrowed(n, Products(k.rows, keyCodes.lows)),
      Narrowed(n, k.columns),
      CodeBytes(valueCodes.codes), Narrowed(n, v.columns), Narrowed(n, Products(v.rows, valueCodes.steps)),
      Narrowed(n, Products(v.rows, valueCodes.lows)));
    FactorsFinite(n, k, keyCodes, HEAD_DIM, TILE_TOKENS);
    FactorsFinite(n, v, valueCodes, TILE_TOKENS, HEAD_DIM);
    r := T.EncodeHead(p);
    if r.Some? {
      AllHeld(n, r.value, p, k, keyCodes, v, valueCodes);
    }
  }

  lemma AllHeld(n: Numerics, record: seq<Byte>, p: T.HeadParts, k: Balanced, keyCodes: Quantized, v: Balanced, valueCodes: Quantized)
    requires KeyParts(n, p, k, keyCodes) && ValueParts(n, p, v, valueCodes) && T.ReadsBack(record, p)
    ensures forall c: nat, t: nat :: c < HEAD_DIM && t < TILE_TOKENS ==> KeyHeld(n, record, k, c, t)
    ensures forall c: nat, t: nat :: c < HEAD_DIM && t < TILE_TOKENS ==> ValueHeld(n, record, v, c, t)
  {
    forall c: nat, t: nat | c < HEAD_DIM && t < TILE_TOKENS
      ensures KeyHeld(n, record, k, c, t) && ValueHeld(n, record, v, c, t)
    {
      KeyIsHeld(n, record, p, k, keyCodes, c, t);
      ValueIsHeld(n, record, p, v, valueCodes, c, t);
    }
  }

  /** Encode one head of a tile: rotate, balance, quantise, pack. */
  method EncodeHead(n: Numerics, keys: seq<HeadRow>, values: seq<HeadRow>, head: nat) returns (r: Option<seq<Byte>>)
    requires n.Valid() && WholeTile(keys) && WholeTile(values) && head < KV_HEADS
    ensures r.Some? <==> Encodable(n, keys, values, head)
    ensures r.Some? ==> HeadRecord(r.value) && HeadHeld(n, r.value, keys, values, head)
  {
    var keyRotated := RotateRows(n, keys, head);
    var valueRotated := RotateRows(n, values, head);
    var keyMatrix := Transpose(keyRotated, RotatedRows(n, keys, head));
    var k := n.normalize(keyMatrix, HEAD_DIM, TILE_TOKENS);
    if k.None? {
      return None;
    }
    var keyCodes := QuantizeMatrix(k.value.matrix, HEAD_DIM, TILE_TOKENS);
    var v := n.normalize(valueRotated, TILE_TOKENS, HEAD_DIM);
    if v.None? {
      return None;
    }
    var valueCodes := QuantizeMatrix(v.value.matrix, TILE_TOKENS, HEAD_DIM);
    r := PackHead(n, k.value, keyCodes, v.value, valueCodes);
  }

  // ----- encoding a tile

  /** The record holds both heads of a tile. */
  ghost predicate TileHeld(n: Numerics, record: seq<Byte>, keys: seq<HeadRow>, values: seq<HeadRow>)
    requires n.Valid()
  {
    && WholeTile(keys) && WholeTile(values) && |record| == TILE_RECORD_BYTES
    && HeadHeld(n, record[..T.HEAD_RECORD_BYTES], keys, values, 0)
    && HeadHeld(n, record[T.HEAD_RECORD_BYTES..], keys, values, 1)
  }

  /** Encode a tile: the two head records end to end, or nothing. */
  method EncodeTile(n: Numerics, keys: seq<HeadRow>, values: seq<HeadRow>) returns (r: Option<seq<Byte>>)
    requires n.Valid()
    ensures r.Some? <==>
              && WholeTile(keys) && WholeTile(values) && Kvarn.FiniteRows(keys) && Kvarn.FiniteRows(values)
              && Encodable(n, keys, values, 0) && Encodable(n, keys, values, 1)
    ensures r.Some? ==>
              EncodedTile(r.value) && FiniteMetadata(r.value) && TileHeld(n, r.value, keys, values)
  {
    if !WholeTile(keys) || !WholeTile(values) || !Kvarn.FiniteRows(keys) || !Kvarn.FiniteRows(values) {
      return None;
    }
    var first := EncodeHead(n, keys, values, 0);
    if first.None? {
      return None;
    }
    var second := EncodeHead(n, keys, values, 1);
    if second.None? {
      return None;
    }
    EncodedTileFinite(first.value, second.value);
    r := Some(first.value + second.value);
    assert TwoHeads(r.value, first.value, second.value);
    assert r.value[..T.HEAD_RECORD_BYTES] == first.value && r.value[T.HEAD_RECORD_BYTES..] == second.value;
  }

  // ----- decoding a row, and how far it lands from the original

  function Unpacked(code: int, scale: real, zero: real, factor: real): real {
    (code as real * scale + zero) * factor
  }

  /** A key as the record stores it: its code times the channel's scale, plus the channel's zero,
      times the token's scale. */
  function StoredKey(n: Numerics, record: seq<Byte>, c: nat, t: nat): real
    requires |record| == T.HEAD_RECORD_BYTES && c < HEAD_DIM && t < TILE_TOKENS
  {
    Unpacked(T.KeyCode(record, c, t) as int, n.widen(HalfAt(record, T.K_SCALE + 2 * c)),
             n.widen(HalfAt(record, T.K_ZERO + 2 * c)), n.widen(HalfAt(record, T.K_TOKEN_SCALE + 2 * t)))
  }

  /** A value as the record stores it, with the scale and zero of its token. */
  function StoredValue(n: Numerics, record: seq<Byte>, c: nat, t: nat): real
    requires |record| == T.HEAD_RECORD_BYTES && c < HEAD_DIM && t < TILE_TOKENS
  {
    Unpacked(T.ValueCode(record, c, t) as int, n.widen(HalfAt(record, T.V_TOKEN_SCALE + 2 * t)),
             n.widen(HalfAt(record, T.V_ZERO + 2 * t)), n.widen(HalfAt(record, T.V_CHANNEL_SCALE + 2 * c)))
  }

  function StoredKeys(n: Numerics, record: seq<Byte>, t: nat): (y: H.Vec)
    requires |record| == T.HEAD_RECORD_BYTES && t < TILE_TOKENS
    ensures |y| == HEAD_DIM
  {
    seq(HEAD_DIM, c requires 0 <= c < HEAD_DIM => StoredKey(n, record, c, t))
  }

  function StoredValues(n: Numerics, record: seq<Byte>, t: nat): (y: H.Vec)
    requires |record| == T.HEAD_RECORD_BYTES && t < TILE_TOKENS
    ensures |y| == HEAD_DIM
  {
    seq(HEAD_DIM, c requires 0 <= c < HEAD_DIM => StoredValue(n, record, c, t))
  }

  /** The most a stored number can miss: a thirtieth of its balanced row's spread, scaled by its
      factors, and whatever narrowing the record's factors to FP16 moved it. */
  ghost function Miss(stored: real, weight: real, spread: real, low: real, step: real, code: int): real {
    weight * spread / 30.0 + Q.Distance(stored, weight * Q.Decode(low, step, code))
  }

  ghost function KeyMiss(n: Numerics, record: seq<Byte>, b: Balanced, c: nat, t: nat): real
    requires |record| == T.HEAD_RECORD_BYTES && b.Shaped(HEAD_DIM, TILE_TOKENS) && c < HEAD_DIM && t < TILE_TOKENS
  {
    Miss(StoredKey(n, record, c, t), Times(b.rows[c], b.columns[t]), Q.SpreadOf(b.matrix, c * TILE_TOKENS, TILE_TOKENS),
         Low(b.matrix, c * TILE_TOKENS, TILE_TOKENS), StepOf(b.matrix, c * TILE_TOKENS, TILE_TOKENS), T.KeyCode(record, c, t) as int)
  }

  ghost function ValueMiss(n: Numerics, record: seq<Byte>, b: Balanced, c: nat, t: nat): real
    requires |record| == T.HEAD_RECORD_BYTES && b.Shaped(TILE_TOKENS, HEAD_DIM) && c < HEAD_DIM && t < TILE_TOKENS
  {
    Miss(StoredValue(n, record, c, t), Times(b.rows[t], b.columns[c]), Q.SpreadOf(b.matrix, t * HEAD_DIM, HEAD_DIM),
         Low(b.matrix, t * HEAD_DIM, HEAD_DIM), StepOf(b.matrix, t * HEAD_DIM, HEAD_DIM), T.ValueCode(record, c, t) as int)
  }

  ghost function KeyMisses(n: Numerics, record: seq<Byte>, b: Balanced, t: nat): (e: H.Vec)
    requires |record| == T.HEAD_RECORD_BYTES && b.Shaped(HEAD_DIM, TILE_TOKENS) && t < TILE_TOKENS
    ensures |e| == HEAD_DIM
  {
    seq(HEAD_DIM, c requires 0 <= c < HEAD_DIM => KeyMiss(n, record, b, c, t))
  }

  ghost function ValueMisses(n: Numerics, record: seq<Byte>, b: Balanced, t: nat): (e: H.Vec)
    requires |record| == T.HEAD_RECORD_BYTES && b.Shaped(TILE_TOKENS, HEAD_DIM) && t < TILE_TOKENS
    ensures |e| == HEAD_DIM
  {
    seq(HEAD_DIM, c requires 0 <= c < HEAD_DIM => ValueMiss(n, record, b, c, t))
  }

  /** A normaliser divides every element by its column's and its row's positive factor. */
  ghost predicate Divided(x: real, balanced: real, column: real, row: real) {
    column > 0.0 && row > 0.0 && balanced == x / column / row
  }

  ghost predicate KeysDivided(n: Numerics, keys: seq<HeadRow>, head: nat, b: Balanced)
    requires WholeTile(keys) && head < KV_HEADS && b.Shaped(HEAD_DIM, TILE_TOKENS)
  {
    forall c: nat, t: nat :: c < HEAD_DIM && t < TILE_TOKENS ==>
      Divided(H.Rotated(RowOf(n, keys, head, t))[c], b.matrix[c * TILE_TOKENS + t], b.columns[t], b.rows[c])
  }

  ghost predicate ValuesDivided(n: Numerics, values: seq<HeadRow>, head: nat, b: Balanced)
    requires WholeTile(values) && head < KV_HEADS && b.Shaped(TILE_TOKENS, HEAD_DIM)
  {
    forall c: nat, t: nat :: c < HEAD_DIM && t < TILE_TOKENS ==>
      Divided(H.Rotated(RowOf(n, values, head, t))[c], b.matrix[t * HEAD_DIM + c], b.columns[c], b.rows[t])
  }

  /** A code read back from a record decodes to within a thirtieth of its balanced row's spread. */
  lemma HeldWithinSpread(n: Numerics, record: seq<Byte>, k: Balanced, v: Balanced, c: nat, t: nat)
    requires |record| == T.HEAD_RECORD_BYTES && k.Shaped(HEAD_DIM, TILE_TOKENS) && v.Shaped(TILE_TOKENS, HEAD_DIM)
    requires c < HEAD_DIM && t < TILE_TOKENS && KeyHeld(n, record, k, c, t) && ValueHeld(n, record, v, c, t)
    ensures var start := c * TILE_TOKENS;
            30.0 * Q.Distance(Q.Decode(Low(k.matrix, start, TILE_TOKENS), StepOf(k.matrix, start, TILE_TOKENS), T.KeyCode(record, c, t) as int),
                              k.matrix[start + t])
            <= Q.SpreadOf(k.matrix, start, TILE_TOKENS)
    ensures var start := t * HEAD_DIM;
            30.0 * Q.Distance(Q.Decode(Low(v.matrix, start, HEAD_DIM), StepOf(v.matrix, start, HEAD_DIM), T.ValueCode(record, c, t) as int),
                              v.matrix[start + c])
            <= Q.SpreadOf(v.matrix, start, HEAD_DIM)
  {
  }

  lemma DistanceWeighted(a: real, b: real, weight: real)
    requires weight > 0.0
    ensures Q.Distance(weight * a, weight * b) == weight * Q.Distance(a, b)
  {
    Q.MulMonotone(if a < b then a else b, if a < b then b else a, weight);
  }

  lemma Undivided(x: real, balanced: real, column: real, row: real)
    requires Divided(x, balanced, column, row)
    ensures row * column > 0.0 && (row * column) * balanced == x
  {
    var half := x / column;
    assert half * column == x;
    assert balanced * row == half;
  }

  lemma StoredMiss(x: real, balanced: real, column: real, row: real, spread: real, low: real, step: real, code: int, stored: real)
    requires Divided(x, balanced, column, row) && Q.WellCoded(balanced, low, step, code) && 15.0 * step == spread
    ensures Q.Distance(stored, x) <= Miss(stored, Times(row, column), spread, low, step, code)
  {
    Undivided(x, balanced, column, row);
    WeightedMiss(balanced, row * column, spread, low, step, code, stored);
  }

  lemma WeightedMiss(balanced: real, weight: real, spread: real, low: real, step: real, code: int, stored: real)
    requires weight > 0.0 && Q.WellCoded(balanced, low, step, code) && 15.0 * step == spread
    ensures Q.Distance(stored, weight * balanced) <= Miss(stored, weight, spread, low, step, code)
  {
    var decoded := Q.Decode(low, step, code);
    DistanceWeighted(decoded, balanced, weight);
    TwiceWeighted(weight, Q.Distance(decoded, balanced), step, spread);
    assert Q.Distance(stored, weight * balanced) <= Q.Distance(stored, weight * decoded) + Q.Distance(weight * decoded, weight * balanced);
  }

  lemma TwiceWeighted(weight: real, distance: real, step: real, spread: real)
    requires weight > 0.0 && 2.0 * distance <= step && 15.0 * step == spread
    ensures weight * distance <= weight * spread / 30.0
  {
    Q.MulMonotone(30.0 * distance, spread, weight);
  }

  lemma SquareWithin(a: real, e: real)
    requires -e <= a <= e
    ensures a * a <= e * e
  {
    assert (e - a) * (e + a) >= 0.0;
  }

  lemma {:induction false} EnergyWithin(a: H.Vec, e: H.Vec)
    requires |a| == |e| && forall i :: 0 <= i < |a| ==> -e[i] <= a[i] <= e[i]
    ensures H.Energy(a) <= H.Energy(e)
  {
    if a != [] {
      SquareWithin(a[0], e[0]);
      EnergyWithin(a[1..], e[1..]);
    }
  }

  lemma RotatedBackWithin(y: H.Vec, x: H.Vec, e: H.Vec)
    requires |y| == |x| == |e| == HEAD_DIM
    requires forall c :: 0 <= c < HEAD_DIM ==> Q.Distance(y[c], H.Rotated(x)[c]) <= e[c]
    ensures H.Energy(H.Sub(H.Rotated(y), x)) <= H.Energy(e)
  {
    H.RotationKeepsError(y, x);
    DifferencesWithin(y, H.Rotated(x), e);
  }

  lemma DifferencesWithin(y: H.Vec, z: H.Vec, e: H.Vec)
    requires |y| == |z| == |e| && forall c :: 0 <= c < |e| ==> Q.Distance(y[c], z[c]) <= e[c]
    ensures H.Energy(H.Sub(y, z)) <= H.Energy(e)
  {
    forall c | 0 <= c < |e| ensures -e[c] <= H.Sub(y, z)[c] <= e[c] {
      assert Q.Distance(y[c], z[c]) <= e[c];
    }
    EnergyWithin(H.Sub(y, z), e);
  }

  /** A key row decoded from its record misses the row appended by at most the sum, over channels,
      of the squared misses of its stored numbers: the rotation back adds nothing. */
  lemma KeyRowError(n: Numerics, record: seq<Byte>, keys: seq<HeadRow>, values: seq<HeadRow>, head: nat, t: nat)
    requires n.Valid() && WholeTile(keys) && WholeTile(values) && head < KV_HEADS && t < TILE_TOKENS
    requires HeadHeld(n, record, keys, values, head) && KeysDivided(n, keys, head, BalancedKeys(n, keys, head).value)
    ensures H.Energy(H.Sub(H.Rotated(StoredKeys(n, record, t)), RowOf(n, keys, head, t)))
         <= H.Energy(KeyMisses(n, record, BalancedKeys(n, keys, head).value, t))
  {
    var b, x := BalancedKeys(n, keys, head).value, RowOf(n, keys, head, t);
    forall c | 0 <= c < HEAD_DIM
      ensures Q.Distance(StoredKeys(n, record, t)[c], H.Rotated(x)[c]) <= KeyMisses(n, record, b, t)[c]
    {
      KeyMissed(n, record, keys, head, b, c, t);
    }
    RotatedBackWithin(StoredKeys(n, record, t), x, KeyMisses(n, record, b, t));
  }

  lemma KeyMissed(n: Numerics, record: seq<Byte>, keys: seq<HeadRow>, head: nat, b: Balanced, c: nat, t: nat)
    requires WholeTile(keys) && head < KV_HEADS && b.Shaped(HEAD_DIM, TILE_TOKENS) && |record| == T.HEAD_RECORD_BYTES
    requires c < HEAD_DIM && t < TILE_TOKENS && KeyHeld(n, record, b, c, t) && KeysDivided(n, keys, head, b)
    ensures Q.Distance(StoredKey(n, record, c, t), H.Rotated(RowOf(n, keys, head, t))[c]) <= KeyMiss(n, record, b, c, t)
  {
    StoredMiss(H.Rotated(RowOf(n, keys, head, t))[c], b.matrix[c * TILE_TOKENS + t], b.columns[t], b.rows[c],
               Q.SpreadOf(b.matrix, c * TILE_TOKENS, TILE_TOKENS), Low(b.matrix, c * TILE_TOKENS, TILE_TOKENS), StepOf(b.matrix, c * TILE_TOKENS, TILE_TOKENS),
               T.KeyCode(record, c, t) as int, StoredKey(n, record, c, t));
  }

  /** The same bound for a value row. */
  lemma ValueRowError(n: Numerics, record: seq<Byte>, keys: seq<HeadRow>, values: seq<HeadRow>, head: nat, t: nat)
    requires n.Valid() && WholeTile(keys) && WholeTile(values) && head < KV_HEADS && t < TILE_TOKENS
    requires HeadHeld(n, record, keys, values, head) && ValuesDivided(n, values, head, BalancedValues(n, values, head).value)
    ensures H.Energy(H.Sub(H.Rotated(StoredValues(n, record, t)), RowOf(n, values, head, t)))
         <= H.Energy(ValueMisses(n, record, BalancedValues(n, values, head).value, t))
  {
    var b, x := BalancedValues(n, values, head).value, RowOf(n, values, head, t);
    forall c | 0 <= c < HEAD_DIM
      ensures Q.Distance(StoredValues(n, record, t)[c], H.Rotated(x)[c]) <= ValueMisses(n, record, b, t)[c]
    {
      ValueMissed(n, record, values, head, b, c, t);
    }
    RotatedBackWithin(StoredValues(n, record, t), x, ValueMisses(n, record, b, t));
  }

  lemma ValueMissed(n: Numerics, record: seq<Byte>, values: seq<HeadRow>, head: nat, b: Balanced, c: nat, t: nat)
    requires WholeTile(values) && head < KV_HEADS && b.Shaped(TILE_TOKENS, HEAD_DIM) && |record| == T.HEAD_RECORD_BYTES
    requires c < HEAD_DIM && t < TILE_TOKENS && ValueHeld(n, record, b, c, t) && ValuesDivided(n, values, head, b)
    ensures Q.Distance(StoredValue(n, record, c, t), H.Rotated(RowOf(n, values, head, t))[c]) <= ValueMiss(n, record, b, c, t)
  {
    StoredMiss(H.Rotated(RowOf(n, values, head, t))[c], b.matrix[t * HEAD_DIM + c], b.columns[c], b.rows[t],
               Q.SpreadOf(b.matrix, t * HEAD_DIM, HEAD_DIM), Low(b.matrix, t * HEAD_DIM, HEAD_DIM), StepOf(b.matrix, t * HEAD_DIM, HEAD_DIM),
               T.ValueCode(record, c, t) as int, StoredValue(n, record, c, t));
  }

  /** When FP16 holds the factors exactly, a stored number misses by a thirtieth of its row's scaled
      spread at most. */
  lemma ExactFactorsMiss(code: int, spread: real, low: real, step: real, row: real, column: real)
    ensures Miss(Unpacked(code, Times(row, step), Times(row, low), column), Times(row, column), spread, low, step, code)
         == row * column * spread / 30.0
  {
    calc {
      (code as real * (row * step) + row * low) * column;
      (row * (low + code as real * step)) * column;
      (row * column) * (low + code as real * step);
    }
  }

  // ----- a dividing normaliser

  lemma ChannelMajorAt(rows: seq<H.Vec>, c: nat, t: nat)
    requires TileRows(rows) && c < HEAD_DIM && t < TILE_TOKENS
    ensures ChannelMajor(rows)[c * TILE_TOKENS + t] == rows[t][c]
  {
    var i := c * TILE_TOKENS + t;
    assert i / TILE_TOKENS == c && i % TILE_TOKENS == t;
  }

  lemma TokenMajorAt(rows: seq<H.Vec>, c: nat, t: nat)
    requires TileRows(rows) && c < HEAD_DIM && t < TILE_TOKENS
    ensures TokenMajor(rows)[t * HEAD_DIM + c] == rows[t][c]
  {
    var i := t * HEAD_DIM + c;
    assert i / HEAD_DIM == t && i % HEAD_DIM == c;
  }

  lemma KeyIsDivided(rows: seq<H.Vec>, m: seq<real>, b: Balanced, c: nat, t: nat)
    requires TileRows(rows) && m == ChannelMajor(rows) && DividedMatrix(m, b, HEAD_DIM, TILE_TOKENS)
    requires c < HEAD_DIM && t < TILE_TOKENS
    ensures Divided(rows[t][c], b.matrix[c * TILE_TOKENS + t], b.columns[t], b.rows[c])
  {
    assert DividedAt(m, b, c, t, TILE_TOKENS);
    ChannelMajorAt(rows, c, t);
  }

  lemma ValueIsDivided(rows: seq<H.Vec>, m: seq<real>, b: Balanced, c: nat, t: nat)
    requires TileRows(rows) && m == TokenMajor(rows) && DividedMatrix(m, b, TILE_TOKENS, HEAD_DIM)
    requires c < HEAD_DIM && t < TILE_TOKENS
    ensures Divided(rows[t][c], b.matrix[t * HEAD_DIM + c], b.columns[c], b.rows[t])
  {
    assert DividedAt(m, b, t, c, HEAD_DIM);
    TokenMajorAt(rows, c, t);
  }

  lemma KeysAreDivided(n: Numerics, keys: seq<HeadRow>, head: nat)
    requires n.Divides() && WholeTile(keys) && head < KV_HEADS && BalancedKeys(n, keys, head).Some?
    ensures var b := BalancedKeys(n, keys, head).value;
            b.Shaped(HEAD_DIM, TILE_TOKENS) && KeysDivided(n, keys, head, b)
  {
    var rows := RotatedRows(n, keys, head);
    var m, b := ChannelMajor(rows), BalancedKeys(n, keys, head).value;
    assert DividedMatrix(m, b, HEAD_DIM, TILE_TOKENS);
    forall c: nat, t: nat | c < HEAD_DIM && t < TILE_TOKENS
      ensures Divided(H.Rotated(RowOf(n, keys, head, t))[c], b.matrix[c * TILE_TOKENS + t], b.columns[t], b.rows[c])
    {
      KeyIsDivided(rows, m, b, c, t);
    }
  }

  lemma ValuesAreDivided(n: Numerics, values: seq<HeadRow>, head: nat)
    requires n.Divides() && WholeTile(values) && head < KV_HEADS && BalancedValues(n, values, head).Some?
    ensures var b := BalancedValues(n, values, head).value;
            b.Shaped(TILE_TOKENS, HEAD_DIM) && ValuesDivided(n, values, head, b)
  {
    var rows := RotatedRows(n, values, head);
    var m, b := TokenMajor(rows), BalancedValues(n, values, head).value;
    assert DividedMatrix(m, b, TILE_TOKENS, HEAD_DIM);
    forall c: nat, t: nat | c < HEAD_DIM && t < TILE_TOKENS
      ensures Divided(H.Rotated(RowOf(n, values, head, t))[c], b.matrix[t * HEAD_DIM + c], b.columns[c], b.rows[t])
    {
      ValueIsDivided(rows, m, b, c, t);
    }
  }
}
