/** Checked strided copies into a span of a host buffer. */
module HostCopy {
  import opened Wrappers

  type Byte = x: int | 0 <= x < 256
  const USIZE_MAX: nat := 0xFFFF_FFFF_FFFF_FFFF

  datatype CopyError = Empty | SpanExceedsRow | CountOverflow | SourceSizeDiffers | DestinationSizeDiffers

  /** One span of each of the first `rows` source rows, one after another. */
  function Strided(source: seq<Byte>, rows: nat, rowBytes: nat, offset: nat, width: nat): (s: seq<Byte>)
    requires rows * rowBytes <= |source| && offset + width <= rowBytes
    ensures |s| == rows * width
  {
    if rows == 0 then []
    else
      assert (rows - 1) * rowBytes + rowBytes == rows * rowBytes;
      assert (rows - 1) * width + width == rows * width;
      var start := (rows - 1) * rowBytes + offset;
      Strided(source, rows - 1, rowBytes, offset, width) + source[start..start + width]
  }

  lemma {:induction false} RowWithin(row: nat, rows: nat, bytes: nat)
    requires row < rows
    ensures row * bytes + bytes <= rows * bytes
  {
    if row + 1 < rows { RowWithin(row, rows - 1, bytes); }
    assert rows * bytes == (rows - 1) * bytes + bytes;
  }

  /** The span of any one row can be found again where the copy put it. */
  lemma {:induction false} StridedRow(source: seq<Byte>, rows: nat, rowBytes: nat, offset: nat, width: nat, row: nat)
    requires rows * rowBytes <= |source| && offset + width <= rowBytes && row < rows
    ensures row * width + width <= rows * width && row * rowBytes + rowBytes <= rows * rowBytes
    ensures Strided(source, rows, rowBytes, offset, width)[row * width..row * width + width]
            == source[row * rowBytes + offset..row * rowBytes + offset + width]
  {
    RowWithin(row, rows, width);
    RowWithin(row, rows, rowBytes);
    StridedRowAt(source, rows, rowBytes, offset, width, row, row * width, row * rowBytes + offset);
  }

  lemma {:induction false} StridedRowAt(source: seq<Byte>, rows: nat, rowBytes: nat, offset: nat, width: nat, row: nat, at: nat, start: nat)
    requires rows * rowBytes <= |source| && offset + width <= rowBytes && row < rows
    requires at == row * width && start == row * rowBytes + offset && start + width <= |source|
    ensures at + width <= |Strided(source, rows, rowBytes, offset, width)|
    ensures Strided(source, rows, rowBytes, offset, width)[at..at + width] == source[start..start + width]
  {
    var last := StridedLast(source, rows, rowBytes, offset, width);
    if row < rows - 1 {
      StridedRowAt(source, rows - 1, rowBytes, offset, width, row, at, start);
      SliceOfPrefix(Strided(source, rows - 1, rowBytes, offset, width), last, at, at + width);
    } else {
      SliceOfLast(Strided(source, row, rowBytes, offset, width), last);
    }
  }

  lemma StridedLast(source: seq<Byte>, rows: nat, rowBytes: nat, offset: nat, width: nat) returns (last: seq<Byte>)
    requires rows * rowBytes <= |source| && offset + width <= rowBytes && rows > 0
    ensures (rows - 1) * rowBytes + rowBytes <= |source|
    ensures var start := (rows - 1) * rowBytes + offset; last == source[start..start + width]
    ensures Strided(source, rows, rowBytes, offset, width) == Strided(source, rows - 1, rowBytes, offset, width) + last
  {
    RowWithin(rows - 1, rows, rowBytes);
    var start := (rows - 1) * rowBytes + offset;
    last := source[start..start + width];
  }

  lemma SliceOfPrefix(s: seq<Byte>, t: seq<Byte>, start: nat, end: nat)
    requires start <= end <= |s|
    ensures (s + t)[start..end] == s[start..end]
  {
  }

  lemma SliceOfLast(s: seq<Byte>, t: seq<Byte>)
    ensures (s + t)[|s|..|s| + |t|] == t
  {
  }

  lemma GlueSlices(s: seq<Byte>, a: nat, b: nat, c: nat)
    requires a <= b <= c <= |s|
    ensures s[a..b] + s[b..c] == s[a..c]
  {
  }

  // ----- blocks of one size end to end

  ghost predicate AllOfSize(blocks: seq<seq<Byte>>, size: nat) {
    forall k :: 0 <= k < |blocks| ==> |blocks[k]| == size
  }

  ghost function Concat(blocks: seq<seq<Byte>>, size: nat): (s: seq<Byte>)
    requires AllOfSize(blocks, size)
    ensures |s| == |blocks| * size
  {
    if blocks == [] then []
    else
      var n := |blocks| - 1;
      assert n * size + size == |blocks| * size;
      Concat(blocks[..n], size) + blocks[n]
  }

  lemma {:induction false} ConcatBlock(blocks: seq<seq<Byte>>, size: nat, k: nat)
    requires AllOfSize(blocks, size) && k < |blocks|
    ensures k * size + size <= |blocks| * size
    ensures Concat(blocks, size)[k * size..k * size + size] == blocks[k]
  {
    RowWithin(k, |blocks|, size);
    var n := |blocks| - 1;
    if k < n {
      ConcatBlock(blocks[..n], size, k);
    }
  }

  /** Bytes that hold every block at its place are the blocks end to end. */
  lemma {:induction false} BlocksConcat(blocks: seq<seq<Byte>>, size: nat, bytes: seq<Byte>)
    requires AllOfSize(blocks, size) && |bytes| == |blocks| * size
    requires forall k :: 0 <= k < |blocks| ==> 0 <= k * size <= k * size + size <= |bytes| && bytes[k * size..k * size + size] == blocks[k]
    ensures bytes == Concat(blocks, size)
  {
    if blocks != [] {
      var n := |blocks| - 1;
      assert n * size + size == |blocks| * size;
      var front := bytes[..n * size];
      forall k | 0 <= k < n ensures 0 <= k * size <= k * size + size <= |front| && front[k * size..k * size + size] == blocks[..n][k] {
        RowWithin(k, n, size);
        assert bytes[k * size..k * size + size] == blocks[k];
      }
      BlocksConcat(blocks[..n], size, front);
      assert bytes == front + bytes[n * size..n * size + size];
    }
  }

  predicate Copyable(length: nat, sourceLength: nat, rows: nat, rowBytes: nat, offset: nat, width: nat) {
    && rows > 0 && width > 0 && offset + width <= rowBytes
    && sourceLength == rows * rowBytes <= USIZE_MAX
    && length == rows * width <= USIZE_MAX
  }

  method CopyRow(destination: array<Byte>, target: nat, source: seq<Byte>, start: nat, width: nat)
    requires target + width <= destination.Length && start + width <= |source|
    modifies destination
    ensures destination[target..target + width] == source[start..start + width]
    ensures forall k :: 0 <= k < destination.Length && !(target <= k < target + width) ==> destination[k] == old(destination[k])
  {
    forall k | 0 <= k < width {
      destination[target + k] := source[start + k];
    }
  }

  lemma SliceExtends(before: seq<Byte>, after: seq<Byte>, at: nat, target: nat, width: nat)
    requires at <= target && target + width <= |before| == |after| && before[..target] == after[..target]
    ensures after[at..target + width] == before[at..target] + after[target..target + width]
  {
    assert forall k :: at <= k < target ==> before[k] == before[..target][k] == after[..target][k] == after[k];
  }

  lemma StridedNext(source: seq<Byte>, row: nat, rowBytes: nat, offset: nat, width: nat)
    requires row * rowBytes + rowBytes <= |source| && offset + width <= rowBytes
    ensures (row + 1) * width == row * width + width && (row + 1) * rowBytes == row * rowBytes + rowBytes
    ensures var start := row * rowBytes + offset;
            Strided(source, row + 1, rowBytes, offset, width) == Strided(source, row, rowBytes, offset, width) + source[start..start + width]
  {
  }

  method CopyRows(destination: array<Byte>, at: nat, source: seq<Byte>, rows: nat, rowBytes: nat, offset: nat, width: nat)
    requires at + rows * width <= destination.Length && rows * rowBytes <= |source| && offset + width <= rowBytes
    modifies destination
    ensures destination[at..at + rows * width] == Strided(source, rows, rowBytes, offset, width)
    ensures forall k :: 0 <= k < destination.Length && !(at <= k < at + rows * width) ==> destination[k] == old(destination[k])
  {
    var row, target, start := 0, at, offset;
    while row < rows
      invariant row <= rows && target == at + row * width && start == row * rowBytes + offset
      invariant at <= target <= at + rows * width && row * rowBytes <= rows * rowBytes
      invariant destination[at..target] == Strided(source, row, rowBytes, offset, width)
      invariant forall k :: 0 <= k < destination.Length && !(at <= k < at + rows * width) ==> destination[k] == old(destination[k])
    {
      RowWithin(row, rows, rowBytes);
      RowWithin(row, rows, width);
      ghost var before := destination[..];
      CopyRow(destination, target, source, start, width);
      SliceExtends(before, destination[..], at, target, width);
      StridedNext(source, row, rowBytes, offset, width);
      row, target, start := row + 1, target + width, start + rowBytes;
    }
  }

  /** Copy one byte span from each source row into the destination span [at, at + length). Nothing
      is written unless the whole copy is valid, and nothing outside the span ever is. */
  method CopyStridedRows(destination: array<Byte>, at: nat, length: nat, source: seq<Byte>,
                         rows: nat, sourceRowBytes: nat, sourceOffset: nat, streamRowBytes: nat)
    returns (r: Result<(), CopyError>)
    requires at + length <= destination.Length
    modifies destination
    ensures r.Ok? <==> Copyable(length, |source|, rows, sourceRowBytes, sourceOffset, streamRowBytes)
    ensures r.Err? ==> destination[..] == old(destination[..])
    ensures r.Ok? ==> destination[at..at + length] == Strided(source, rows, sourceRowBytes, sourceOffset, streamRowBytes)
    ensures forall k :: 0 <= k < destination.Length && !(at <= k < at + length) ==> destination[k] == old(destination[k])
  {
    if rows == 0 || streamRowBytes == 0 {
      return Err(Empty);
    }
    if sourceOffset + streamRowBytes > sourceRowBytes {
      return Err(SpanExceedsRow);
    }
    if rows * sourceRowBytes > USIZE_MAX {
      return Err(CountOverflow);
    }
    if |source| != rows * sourceRowBytes {
      return Err(SourceSizeDiffers);
    }
    if rows * streamRowBytes > USIZE_MAX {
      return Err(CountOverflow);
    }
    if length != rows * streamRowBytes {
      return Err(DestinationSizeDiffers);
    }
    CopyRows(destination, at, source, rows, sourceRowBytes, sourceOffset, streamRowBytes);
    return Ok(());
  }
}
