/** The 4-bit row quantiser, over the reals. */
module Quantize {

  const MIN_SCALE: real := 0.0000000001
  const TOP_CODE: int := 15

  function RoundTiesEven(x: real): (n: int)
    ensures -0.5 <= n as real - x <= 0.5
    ensures n as real - x == 0.5 || n as real - x == -0.5 ==> n % 2 == 0
  {
    var f := x.Floor;
    var d := x - f as real;
    if d < 0.5 then f else if d > 0.5 then f + 1 else if f % 2 == 0 then f else f + 1
  }

  function Clamp(n: int): int {
    if n < 0 then 0 else if n > TOP_CODE then TOP_CODE else n
  }

  function MinOf(row: seq<real>): (m: real)
    requires row != []
    ensures m in row && forall i :: 0 <= i < |row| ==> m <= row[i]
  {
    var last := row[|row| - 1];
    if |row| == 1 then last else
    var m := MinOf(row[..|row| - 1]);
    assert forall i :: 0 <= i < |row| - 1 ==> row[i] == row[..|row| - 1][i];
    if last < m then last else m
  }

  function MaxOf(row: seq<real>): (m: real)
    requires row != []
    ensures m in row && forall i :: 0 <= i < |row| ==> row[i] <= m
  {
    var last := row[|row| - 1];
    if |row| == 1 then last else
    var m := MaxOf(row[..|row| - 1]);
    assert forall i :: 0 <= i < |row| - 1 ==> row[i] == row[..|row| - 1][i];
    if last > m then last else m
  }

  /** How far a row reaches, and at least fifteen of the least steps. */
  function Spread(low: real, high: real): (spread: real)
    requires low <= high
  {
    if high - low < 0.0000000015 then 0.0000000015 else high - low
  }

  /** The step: the fifteen intervals between the sixteen codes are exactly the row's spread. */
  function ScaleOf(low: real, high: real): (scale: real)
    requires low <= high
    ensures scale > 0.0 && 15.0 * scale == Spread(low, high)
  {
    var spread := (high - low) / 15.0;
    if spread < MIN_SCALE then MIN_SCALE else spread
  }

  function Decode(low: real, scale: real, code: int): real {
    low + code as real * scale
  }

  function Distance(a: real, b: real): real {
    if a < b then b - a else a - b
  }

  /** What quantising one value of a row guarantees. */
  ghost predicate WellCoded(v: real, low: real, scale: real, code: int) {
    && 0 <= code <= TOP_CODE
    && 2.0 * Distance(Decode(low, scale, code), v) <= scale
    && forall other: int :: Distance(Decode(low, scale, code), v) <= Distance(Decode(low, scale, other), v)
  }

  lemma RoundIsNearest(q: real, n: int)
    ensures Distance(RoundTiesEven(q) as real, q) <= Distance(n as real, q)
  {
    var f := q.Floor;
    if n <= f {
      assert n as real <= f as real <= q;
    } else {
      assert n as real >= (f + 1) as real > q;
    }
  }

  lemma RoundInRange(q: real)
    requires 0.0 <= q <= 15.0
    ensures 0 <= RoundTiesEven(q) <= TOP_CODE
  {
    var n := RoundTiesEven(q);
    assert -1 < n && n < 16;
  }

  lemma MulMonotone(a: real, b: real, c: real)
    requires a <= b && c > 0.0
    ensures a * c <= b * c
  {
  }

  lemma DistanceScaled(low: real, scale: real, q: real, n: int)
    requires scale > 0.0
    ensures Distance(Decode(low, scale, n), low + q * scale) == Distance(n as real, q) * scale
  {
    MulMonotone(if n as real < q then n as real else q, if n as real < q then q else n as real, scale);
    assert (n as real - q) * scale == n as real * scale - q * scale;
    assert (q - n as real) * scale == q * scale - n as real * scale;
  }

  lemma QuotientInRange(d: real, scale: real)
    requires scale > 0.0 && 0.0 <= d <= 15.0 * scale
    ensures 0.0 <= d / scale <= 15.0 && (d / scale) * scale == d
  {
  }

  function CodeOf(v: real, low: real, scale: real): int
    requires scale > 0.0
  {
    Clamp(RoundTiesEven((v - low) / scale))
  }

  lemma CompareProducts(x: real, y: real, near: real, far: real, scale: real)
    requires scale > 0.0 && near <= far && x == near * scale && y == far * scale
    ensures x <= y
  {
    MulMonotone(near, far, scale);
  }

  lemma NearestAt(low: real, scale: real, q: real, other: int)
    requires scale > 0.0
    ensures Distance(Decode(low, scale, RoundTiesEven(q)), low + q * scale) <= Distance(Decode(low, scale, other), low + q * scale)
  {
    RoundIsNearest(q, other);
    NearerScaled(low, scale, q, RoundTiesEven(q), other);
  }

  lemma NearerScaled(low: real, scale: real, q: real, near: int, far: int)
    requires scale > 0.0 && Distance(near as real, q) <= Distance(far as real, q)
    ensures Distance(Decode(low, scale, near), low + q * scale) <= Distance(Decode(low, scale, far), low + q * scale)
  {
    DistanceScaled(low, scale, q, near);
    DistanceScaled(low, scale, q, far);
    CompareProducts(
      Distance(Decode(low, scale, near), low + q * scale), Distance(Decode(low, scale, far), low + q * scale),
      Distance(near as real, q), Distance(far as real, q), scale);
  }

  lemma HalfStepAt(low: real, scale: real, q: real)
    requires scale > 0.0
    ensures 2.0 * Distance(Decode(low, scale, RoundTiesEven(q)), low + q * scale) <= scale
  {
    var n := RoundTiesEven(q);
    DistanceScaled(low, scale, q, n);
    MulMonotone(Distance(n as real, q), 0.5, scale);
  }

  /** The clamp never changes a code of a value inside the row's range, and the code is the one
      whose decoded value is nearest, at most half a step away. */
  lemma CodeIsNearest(v: real, low: real, high: real)
    requires low <= v <= high
    ensures var scale := ScaleOf(low, high);
            CodeOf(v, low, scale) == RoundTiesEven((v - low) / scale) && WellCoded(v, low, scale, CodeOf(v, low, scale))
  {
    var scale := ScaleOf(low, high);
    QuotientInRange(v - low, scale);
    var q := (v - low) / scale;
    RoundInRange(q);
    assert v == low + q * scale;
    forall other: int
      ensures Distance(Decode(low, scale, RoundTiesEven(q)), v) <= Distance(Decode(low, scale, other), v)
    {
      NearestAt(low, scale, q, other);
    }
    HalfStepAt(low, scale, q);
  }

  /** In terms of the row alone: a value misses by at most a thirtieth of the row's spread. */
  lemma CodeWithinSpread(v: real, low: real, high: real)
    requires low <= v <= high
    ensures var scale := ScaleOf(low, high);
            30.0 * Distance(Decode(low, scale, CodeOf(v, low, scale)), v) <= Spread(low, high)
  {
    CodeIsNearest(v, low, high);
  }

  /** Unless the row is all but constant, its least value is code 0 and its greatest code 15, and both
      decode exactly; so a row uses the whole range of codes. */
  lemma EndsAreExact(low: real, high: real)
    requires low <= high
    ensures var scale := ScaleOf(low, high);
            && CodeOf(low, low, scale) == 0 && Decode(low, scale, 0) == low
            && (high - low >= 0.0000000015 ==> CodeOf(high, low, scale) == TOP_CODE && Decode(low, scale, TOP_CODE) == high)
  {
    var scale := ScaleOf(low, high);
    assert (low - low) / scale == 0.0;
    if high - low >= 0.0000000015 {
      QuotientIs(high - low, scale, 15.0);
    }
  }

  lemma QuotientIs(d: real, scale: real, q: real)
    requires scale > 0.0 && d == q * scale
    ensures d / scale == q
  {
  }

  /** The row of `cols` values at `start` is coded with its own minimum and step. */
  ghost predicate RowCoded(values: seq<real>, start: nat, cols: nat, codes: seq<int>, scale: real, low: real)
    requires cols > 0 && start + cols <= |values| == |codes|
  {
    var xs := values[start..start + cols];
    && low == MinOf(xs)
    && scale == ScaleOf(low, MaxOf(xs))
    && forall i :: start <= i < start + cols ==> codes[i] == CodeOf(values[i], low, scale)
  }

  /** How far the row at `start` reaches. */
  ghost function SpreadOf(values: seq<real>, start: nat, cols: nat): real
    requires cols > 0 && start + cols <= |values|
  {
    var xs := values[start..start + cols];
    SpansRow(xs);
    Spread(MinOf(xs), MaxOf(xs))
  }

  lemma SpansRow(xs: seq<real>)
    requires xs != []
    ensures MinOf(xs) <= xs[0] <= MaxOf(xs)
  {
  }

  /** Every value of a coded row decodes, by the nearest of all codes, to within half a step, which is
      a thirtieth of the row's own spread; the row's least value is its zero and is exact, and so is
      its greatest, by the top code, unless the row is all but constant. */
  lemma RowCodedIsNearest(values: seq<real>, start: nat, cols: nat, codes: seq<int>, scale: real, low: real, i: nat)
    requires cols > 0 && start + cols <= |values| == |codes|
    requires RowCoded(values, start, cols, codes, scale, low)
    requires start <= i < start + cols
    ensures WellCoded(values[i], low, scale, codes[i])
    ensures 30.0 * Distance(Decode(low, scale, codes[i]), values[i]) <= SpreadOf(values, start, cols)
    ensures (forall j :: start <= j < start + cols ==> values[i] <= values[j]) ==> codes[i] == 0 && Decode(low, scale, codes[i]) == values[i]
    ensures (forall j :: start <= j < start + cols ==> values[j] <= values[i]) && values[i] - low >= 0.0000000015 ==>
              codes[i] == TOP_CODE && Decode(low, scale, codes[i]) == values[i]
  {
    var xs := values[start..start + cols];
    assert values[i] == xs[i - start];
    CodeIsNearest(values[i], low, MaxOf(xs));
    CodeWithinSpread(values[i], low, MaxOf(xs));
    EndsAreExact(low, MaxOf(xs));
    if forall j :: start <= j < start + cols ==> values[i] <= values[j] {
      var k :| 0 <= k < cols && xs[k] == low;
      assert values[i] <= values[start + k] == low;
    }
    if forall j :: start <= j < start + cols ==> values[j] <= values[i] {
      var k :| 0 <= k < cols && xs[k] == MaxOf(xs);
      assert values[i] >= values[start + k];
    }
  }

  /** Code one row in place. */
  method QuantizeRow(values: seq<real>, start: nat, cols: nat, codes: array<int>) returns (scale: real, low: real)
    requires cols > 0 && start + cols <= |values| == codes.Length
    modifies codes
    ensures RowCoded(values, start, cols, codes[..], scale, low)
    ensures forall i :: 0 <= i < codes.Length && !(start <= i < start + cols) ==> codes[i] == old(codes[i])
  {
    var xs := values[start..start + cols];
    low := MinOf(xs);
    var high := MaxOf(xs);
    scale := ScaleOf(low, high);
    for col := 0 to cols
      invariant forall i :: start <= i < start + col ==> codes[i] == CodeOf(values[i], low, scale)
      invariant forall i :: 0 <= i < codes.Length && !(start <= i < start + col) ==> codes[i] == old(codes[i])
    {
      assert values[start + col] == xs[col];
      codes[start + col] := CodeOf(xs[col], low, scale);
    }
  }

  lemma {:induction false} RowStarts(a: nat, b: nat, cols: nat)
    requires a < b
    ensures a * cols + cols <= b * cols
    ensures (b + 1) * cols == b * cols + cols
  {
    if a + 1 < b { RowStarts(a, b - 1, cols); }
    assert b * cols == (b - 1) * cols + cols;
  }

  lemma RowCodedKept(values: seq<real>, start: nat, cols: nat, before: seq<int>, after: seq<int>, scale: real, low: real)
    requires cols > 0 && start + cols <= |values| == |before| == |after|
    requires RowCoded(values, start, cols, before, scale, low)
    requires forall i :: start <= i < start + cols ==> after[i] == before[i]
    ensures RowCoded(values, start, cols, after, scale, low)
  {
  }

  ghost predicate RowsCoded(values: seq<real>, rows: nat, cols: nat, codes: seq<int>, scales: seq<real>, zeros: seq<real>)
    requires cols > 0 && |values| == |codes| && |scales| == |zeros| == rows
  {
    forall row :: 0 <= row < rows ==>
      row * cols + cols <= |values| && RowCoded(values, row * cols, cols, codes, scales[row], zeros[row])
  }

  lemma RowsCodedAt(values: seq<real>, rows: nat, cols: nat, codes: seq<int>, scales: seq<real>, zeros: seq<real>, row: nat)
    requires cols > 0 && |values| == |codes| && |scales| == |zeros| == rows
    requires RowsCoded(values, rows, cols, codes, scales, zeros) && row < rows
    ensures row * cols + cols <= |values| && RowCoded(values, row * cols, cols, codes, scales[row], zeros[row])
  {
  }

  lemma RowsCodedStep(values: seq<real>, row: nat, cols: nat, before: seq<int>, after: seq<int>,
                      scales: seq<real>, zeros: seq<real>, scale: real, low: real)
    requires cols > 0 && |values| == |before| == |after| && |scales| == |zeros| == row
    requires row * cols + cols <= |values|
    requires RowsCoded(values, row, cols, before, scales, zeros)
    requires RowCoded(values, row * cols, cols, after, scale, low)
    requires forall i :: 0 <= i < row * cols ==> after[i] == before[i]
    ensures RowsCoded(values, row + 1, cols, after, scales + [scale], zeros + [low])
  {
    forall r | 0 <= r < row + 1
      ensures r * cols + cols <= |values| && RowCoded(values, r * cols, cols, after, (scales + [scale])[r], (zeros + [low])[r])
    {
      if r < row {
        RowStarts(r, row, cols);
        RowCodedKept(values, r * cols, cols, before, after, scales[r], zeros[r]);
      }
    }
  }

  /** Quantise every row; each is coded with its own low value and step. */
  method QuantizeRows(values: seq<real>, rows: nat, cols: nat) returns (codes: seq<int>, scales: seq<real>, zeros: seq<real>)
    requires cols > 0 && |values| == rows * cols
    ensures |codes| == |values| && |scales| == |zeros| == rows
    ensures forall i :: 0 <= i < |codes| ==> 0 <= codes[i] <= TOP_CODE
    ensures RowsCoded(values, rows, cols, codes, scales, zeros)
  {
    var buffer := new int[|values|](_ => 0);
    scales, zeros := [], [];
    for row := 0 to rows
      invariant |scales| == |zeros| == row
      invariant forall i :: 0 <= i < buffer.Length ==> 0 <= buffer[i] <= TOP_CODE
      invariant RowsCoded(values, row, cols, buffer[..], scales, zeros)
    {
      RowStarts(row, rows, cols);
      ghost var before := buffer[..];
      var scale, low := QuantizeRow(values, row * cols, cols, buffer);
      RowsCodedStep(values, row, cols, before, buffer[..], scales, zeros, scale, low);
      scales, zeros := scales + [scale], zeros + [low];
    }
    codes := buffer[..];
  }
}
