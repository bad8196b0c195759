/** Physical expert slots whose six streams are spans of one slab, rewritten in place. */
module IqkSlots {
  import opened Wrappers
  import opened HostCopy
  import opened Iqk

  // ----- the overlap check

  datatype Extent = Extent(start: nat, end: nat)

  predicate Apart(a: Extent, b: Extent) { a.end <= b.start || b.end <= a.start }

  ghost predicate ApartFromAll(x: Extent, s: seq<Extent>) {
    forall k :: 0 <= k < |s| ==> Apart(x, s[k])
  }

  ghost predicate Pairwise(s: seq<Extent>) {
    forall i, j :: 0 <= i < j < |s| ==> Apart(s[i], s[j])
  }

  ghost predicate Ordered(s: seq<Extent>) {
    forall i, j :: 0 <= i < j < |s| ==> s[i].start <= s[j].start
  }

  ghost predicate Solid(s: seq<Extent>) {
    forall k :: 0 <= k < |s| ==> s[k].start < s[k].end
  }

  predicate NeighboursApart(s: seq<Extent>) {
    forall i :: 0 <= i < |s| - 1 ==> s[i].end <= s[i + 1].start
  }

  function Insert(x: Extent, s: seq<Extent>): seq<Extent> {
    if s == [] || x.start < s[0].start then [x] + s else [s[0]] + Insert(x, s[1..])
  }

  function SortByStart(s: seq<Extent>): seq<Extent> {
    if s == [] then [] else Insert(s[0], SortByStart(s[1..]))
  }

  lemma ConsPairwise(x: Extent, s: seq<Extent>)
    ensures Pairwise([x] + s) <==> ApartFromAll(x, s) && Pairwise(s)
  {
    var t := [x] + s;
    if Pairwise(t) {
      forall k | 0 <= k < |s| ensures Apart(x, s[k]) { assert Apart(t[0], t[k + 1]); }
      forall i, j | 0 <= i < j < |s| ensures Apart(s[i], s[j]) { assert Apart(t[i + 1], t[j + 1]); }
    }
  }

  lemma {:induction false} InsertApart(y: Extent, x: Extent, s: seq<Extent>)
    ensures ApartFromAll(y, Insert(x, s)) <==> Apart(y, x) && ApartFromAll(y, s)
  {
    ConsApart(y, x, s);
    if s != [] {
      InsertApart(y, x, s[1..]);
      ConsApart(y, s[0], Insert(x, s[1..]));
      ConsApart(y, s[0], s[1..]);
      assert s == [s[0]] + s[1..];
    }
  }

  lemma ConsApart(y: Extent, x: Extent, s: seq<Extent>)
    ensures ApartFromAll(y, [x] + s) <==> Apart(y, x) && ApartFromAll(y, s)
  {
    var t := [x] + s;
    if ApartFromAll(y, t) {
      assert Apart(y, t[0]);
      forall k | 0 <= k < |s| ensures Apart(y, s[k]) { assert Apart(y, t[k + 1]); }
    }
  }

  lemma {:induction false} InsertPairwise(x: Extent, s: seq<Extent>)
    ensures Pairwise(Insert(x, s)) <==> ApartFromAll(x, s) && Pairwise(s)
  {
    if s == [] || x.start < s[0].start {
      ConsPairwise(x, s);
    } else {
      InsertPairwise(x, s[1..]);
      ConsPairwise(s[0], Insert(x, s[1..]));
      InsertApart(s[0], x, s[1..]);
      ConsPairwise(s[0], s[1..]);
      ConsApart(x, s[0], s[1..]);
      assert s == [s[0]] + s[1..];
    }
  }

  lemma {:induction false} InsertOrdered(x: Extent, s: seq<Extent>)
    requires Ordered(s)
    ensures Ordered(Insert(x, s)) && |Insert(x, s)| == |s| + 1
    ensures forall k :: 0 <= k <= |s| ==> Insert(x, s)[k] == x || Insert(x, s)[k] in s
  {
    if s != [] && x.start >= s[0].start {
      InsertOrdered(x, s[1..]);
    }
  }

  /** Sorting keeps which spans there are, so it keeps whether they overlap. */
  lemma {:induction false} SortKeeps(s: seq<Extent>)
    ensures var t := SortByStart(s);
            && Ordered(t) && |t| == |s| && (forall k :: 0 <= k < |t| ==> t[k] in s)
            && (forall y :: ApartFromAll(y, t) <==> ApartFromAll(y, s))
            && (Pairwise(t) <==> Pairwise(s))
  {
    if s != [] {
      SortKeeps(s[1..]);
      var rest := SortByStart(s[1..]);
      InsertOrdered(s[0], rest);
      InsertPairwise(s[0], rest);
      ConsPairwise(s[0], s[1..]);
      assert s == [s[0]] + s[1..];
      forall y ensures ApartFromAll(y, Insert(s[0], rest)) <==> ApartFromAll(y, s) {
        InsertApart(y, s[0], rest);
        ConsApart(y, s[0], s[1..]);
      }
    }
  }

  /** Checking neighbours of the sorted spans decides whether any two of them overlap. */
  lemma NeighboursDecide(s: seq<Extent>)
    requires Solid(s)
    ensures NeighboursApart(SortByStart(s)) <==> Pairwise(s)
  {
    SortKeeps(s);
    var t := SortByStart(s);
    if Pairwise(t) {
      forall i | 0 <= i < |t| - 1 ensures t[i].end <= t[i + 1].start {
        assert Apart(t[i], t[i + 1]) && t[i + 1] in s && t[i].start <= t[i + 1].start;
      }
    }
    if NeighboursApart(t) {
      forall i, j | 0 <= i < j < |t| ensures Apart(t[i], t[j]) {
        assert t[i].end <= t[i + 1].start <= t[j].start;
      }
    }
  }

  // ----- placing streams in a slab

  function StreamBytes(l: Layout, slots: nat, stream: nat): nat
    requires stream < |l.widths|
  {
    slots * SlotBytes(l, stream)
  }

  function StreamExtent(l: Layout, slots: nat, offsets: seq<nat>, stream: nat): Extent
    requires stream < |l.widths| == |offsets|
  {
    Extent(offsets[stream], offsets[stream] + StreamBytes(l, slots, stream))
  }

  /** A present stream is aligned and inside the slab; an absent one has offset zero. */
  predicate StreamPlaced(l: Layout, slots: nat, offsets: seq<nat>, slabBytes: nat, stream: nat)
    requires stream < |l.widths| == |offsets|
  {
    if l.widths[stream] == 0 then offsets[stream] == 0
    else offsets[stream] % 16 == 0 && offsets[stream] + StreamBytes(l, slots, stream) <= slabBytes
  }

  ghost predicate Placed(l: Layout, slots: nat, offsets: seq<nat>, slabBytes: nat) {
    && slots > 0 && |offsets| == |l.widths| == STREAMS
    && (forall i :: 0 <= i < STREAMS ==> StreamPlaced(l, slots, offsets, slabBytes, i))
    && (forall i, j :: 0 <= i < j < STREAMS && l.widths[i] > 0 && l.widths[j] > 0 ==>
          Apart(StreamExtent(l, slots, offsets, i), StreamExtent(l, slots, offsets, j)))
  }

  function Present(l: Layout, slots: nat, offsets: seq<nat>, n: nat): seq<Extent>
    requires n <= |l.widths| == |offsets|
  {
    if n == 0 then []
    else if l.widths[n - 1] == 0 then Present(l, slots, offsets, n - 1)
    else Present(l, slots, offsets, n - 1) + [StreamExtent(l, slots, offsets, n - 1)]
  }

  lemma {:induction false} PresentApart(l: Layout, slots: nat, offsets: seq<nat>, n: nat, x: Extent)
    requires n <= |l.widths| == |offsets|
    ensures ApartFromAll(x, Present(l, slots, offsets, n)) <==>
            forall i :: 0 <= i < n && l.widths[i] > 0 ==> Apart(x, StreamExtent(l, slots, offsets, i))
  {
    if n > 0 {
      PresentApart(l, slots, offsets, n - 1, x);
      if l.widths[n - 1] > 0 {
        SnocApart(x, Present(l, slots, offsets, n - 1), StreamExtent(l, slots, offsets, n - 1));
      }
    }
  }

  lemma SnocApart(y: Extent, s: seq<Extent>, x: Extent)
    ensures ApartFromAll(y, s + [x]) <==> ApartFromAll(y, s) && Apart(y, x)
  {
    var t := s + [x];
    if ApartFromAll(y, t) {
      assert Apart(y, t[|s|]);
      forall k | 0 <= k < |s| ensures Apart(y, s[k]) { assert Apart(y, t[k]); }
    }
  }

  lemma SnocPairwise(s: seq<Extent>, x: Extent)
    ensures Pairwise(s + [x]) <==> Pairwise(s) && ApartFromAll(x, s)
  {
    var t := s + [x];
    if Pairwise(t) {
      forall i, j | 0 <= i < j < |s| ensures Apart(s[i], s[j]) { assert Apart(t[i], t[j]); }
      forall k | 0 <= k < |s| ensures Apart(x, s[k]) { assert Apart(t[k], t[|s|]); }
    }
  }

  /** The spans collected for the check are pairwise apart exactly when the present streams are. */
  lemma {:induction false} PresentPairwise(l: Layout, slots: nat, offsets: seq<nat>, n: nat)
    requires n <= |l.widths| == |offsets|
    ensures Pairwise(Present(l, slots, offsets, n)) <==>
            forall i, j :: 0 <= i < j < n && l.widths[i] > 0 && l.widths[j] > 0 ==>
              Apart(StreamExtent(l, slots, offsets, i), StreamExtent(l, slots, offsets, j))
  {
    if n > 0 {
      PresentPairwise(l, slots, offsets, n - 1);
      if l.widths[n - 1] > 0 {
        var x := StreamExtent(l, slots, offsets, n - 1);
        SnocPairwise(Present(l, slots, offsets, n - 1), x);
        PresentApart(l, slots, offsets, n - 1, x);
      }
    }
  }

  lemma {:induction false} PresentSolid(l: Layout, slots: nat, offsets: seq<nat>, n: nat)
    requires n <= |l.widths| == |offsets| && slots > 0 && l.rows > 0
    ensures Solid(Present(l, slots, offsets, n))
  {
    if n > 0 {
      PresentSolid(l, slots, offsets, n - 1);
      if l.widths[n - 1] > 0 {
        PositiveProduct(l.rows, l.widths[n - 1]);
        PositiveProduct(slots, SlotBytes(l, n - 1));
      }
    }
  }

  lemma PositiveProduct(a: nat, b: nat)
    requires a > 0 && b > 0
    ensures a * b > 0
  {
  }

  /** Accept stream offsets exactly when every stream is placed and no two overlap. */
  method CheckSlab(l: Layout, slots: nat, offsets: seq<nat>, slabBytes: nat) returns (r: Result<(), IqkError>)
    requires Fills(l) && |offsets| == STREAMS && slabBytes <= USIZE_MAX
    ensures r.Ok? <==> Placed(l, slots, offsets, slabBytes)
    ensures r == Err(Overlap) ==> exists i, j :: 0 <= i < j < STREAMS && !Apart(StreamExtent(l, slots, offsets, i), StreamExtent(l, slots, offsets, j))
  {
    if slots == 0 {
      return Err(NoSlots);
    }
    var spans: seq<Extent> := [];
    for index := 0 to STREAMS
      invariant spans == Present(l, slots, offsets, index)
      invariant forall i :: 0 <= i < index ==> StreamPlaced(l, slots, offsets, slabBytes, i)
    {
      if l.widths[index] == 0 {
        if offsets[index] != 0 {
          assert !StreamPlaced(l, slots, offsets, slabBytes, index);
          return Err(AbsentStreamOffset);
        }
      } else {
        var end := offsets[index] + slots * (l.rows * l.widths[index]);
        assert StreamPlaced(l, slots, offsets, slabBytes, index) <==> offsets[index] % 16 == 0 && end <= slabBytes;
        if end > USIZE_MAX {
          return Err(StreamOverflow);
        }
        if offsets[index] % 16 != 0 || end > slabBytes {
          return Err(MisalignedOrOutOfBounds);
        }
        spans := spans + [Extent(offsets[index], end)];
      }
    }
    PresentSolid(l, slots, offsets, STREAMS);
    PresentPairwise(l, slots, offsets, STREAMS);
    NeighboursDecide(spans);
    if !NeighboursApart(SortByStart(spans)) {
      return Err(Overlap);
    }
    return Ok(());
  }

  // ----- slots

  /** Where a slot's span of a stream begins. */
  function SlotStart(l: Layout, offsets: seq<nat>, stream: nat, slot: nat): nat
    requires stream < |l.widths| == |offsets|
  {
    offsets[stream] + slot * SlotBytes(l, stream)
  }

  function SlotSpan(l: Layout, offsets: seq<nat>, stream: nat, slot: nat): Extent
    requires stream < |l.widths| == |offsets|
  {
    Extent(SlotStart(l, offsets, stream, slot), SlotStart(l, offsets, stream, slot) + SlotBytes(l, stream))
  }

  predicate Contains(e: Extent, k: int) { e.start <= k < e.end }

  lemma SlotInStream(l: Layout, slots: nat, offsets: seq<nat>, stream: nat, slot: nat)
    requires stream < |l.widths| == |offsets| && slot < slots
    ensures var e, whole := SlotSpan(l, offsets, stream, slot), StreamExtent(l, slots, offsets, stream);
            whole.start <= e.start <= e.end <= whole.end
  {
    RowWithin(slot, slots, SlotBytes(l, stream));
  }

  lemma SlotInSlab(l: Layout, slots: nat, offsets: seq<nat>, slabBytes: nat, stream: nat, slot: nat)
    requires Fills(l) && Placed(l, slots, offsets, slabBytes) && stream < STREAMS && slot < slots
    ensures SlotSpan(l, offsets, stream, slot).end <= slabBytes
  {
    SlotInStream(l, slots, offsets, stream, slot);
    assert StreamPlaced(l, slots, offsets, slabBytes, stream);
    if l.widths[stream] == 0 {
      assert SlotBytes(l, stream) == 0 && slot * 0 == 0;
    }
  }

  /** Two different slot spans share no byte. */
  lemma SlotSpansApart(l: Layout, slots: nat, offsets: seq<nat>, slabBytes: nat, i: nat, s: nat, j: nat, t: nat, k: int)
    requires Fills(l) && Placed(l, slots, offsets, slabBytes) && i < STREAMS && j < STREAMS && s < slots && t < slots
    requires i != j || s != t
    requires Contains(SlotSpan(l, offsets, i, s), k)
    ensures !Contains(SlotSpan(l, offsets, j, t), k)
  {
    SlotInStream(l, slots, offsets, i, s);
    SlotInStream(l, slots, offsets, j, t);
    if i == j {
      SlotsInOrder(SlotBytes(l, i), s, t);
    } else {
      WidthPresent(l, i);
      WidthPresent(l, j);
      if l.widths[i] > 0 && l.widths[j] > 0 {
        if i < j {
          assert Apart(StreamExtent(l, slots, offsets, i), StreamExtent(l, slots, offsets, j));
        } else {
          assert Apart(StreamExtent(l, slots, offsets, j), StreamExtent(l, slots, offsets, i));
        }
      }
    }
  }

  lemma SlotsInOrder(bytes: nat, s: nat, t: nat)
    ensures s < t ==> s * bytes + bytes <= t * bytes
    ensures t < s ==> t * bytes + bytes <= s * bytes
  {
    if s < t { RowWithin(s, t, bytes); }
    if t < s { RowWithin(t, s, bytes); }
  }

  lemma WidthPresent(l: Layout, stream: nat)
    requires stream < |l.widths|
    ensures SlotBytes(l, stream) > 0 ==> l.widths[stream] > 0
  {
    if l.widths[stream] == 0 { assert l.rows * 0 == 0; }
  }

  /** The slab holds a stream of a payload at a slot. */
  ghost predicate StreamHeld(l: Layout, offsets: seq<nat>, bytes: seq<Byte>, slot: nat, payload: seq<Byte>, stream: nat)
    requires Fills(l) && |offsets| == STREAMS && IsPayload(l, payload) && stream < STREAMS
  {
    var e := SlotSpan(l, offsets, stream, slot);
    e.end <= |bytes| && bytes[e.start..e.end] == StreamOf(l, payload, stream)
  }

  ghost predicate Held(l: Layout, offsets: seq<nat>, bytes: seq<Byte>, slot: nat, payload: seq<Byte>)
    requires Fills(l) && |offsets| == STREAMS && IsPayload(l, payload)
  {
    forall i :: 0 <= i < STREAMS ==> StreamHeld(l, offsets, bytes, slot, payload, i)
  }

  class SlotStreams {
    const layout: Layout
    const slots: nat
    const offsets: seq<nat>
    const slab: array<Byte>
    // the payload last written to each slot
    ghost var written: seq<Option<seq<Byte>>>

    ghost predicate Valid()
      reads this, slab
    {
      && Fills(layout) && Placed(layout, slots, offsets, slab.Length) && |written| == slots
      && AllHeld(layout, offsets, slab[..], written, -1)
    }

    constructor (geometry: Geometry, slots: nat, offsets: seq<nat>, slab: array<Byte>)
      requires ValidGeometry(geometry) && Placed(LayoutOf(geometry), slots, offsets, slab.Length)
      ensures Valid() && layout == LayoutOf(geometry) && this.slots == slots && this.offsets == offsets && this.slab == slab
      ensures written == seq(slots, _ => None)
    {
      layout, this.slots, this.offsets, this.slab := LayoutOf(geometry), slots, offsets, slab;
      written := seq(slots, _ => None);
      new;
      GeometryFills(geometry);
    }

    /** Replace one slot's payload: every stream's span of it, or, refused, nothing. No byte
        outside the slot's own six spans changes. */
    method WriteSlot(slot: nat, rows: seq<Byte>, writable: bool) returns (r: Result<(), IqkError>)
      requires Valid()
      modifies this`written, slab
      ensures Valid()
      ensures r.Ok? <==> slot < slots && IsPayload(layout, rows) && writable
      ensures r.Ok? ==> written == old(written)[slot := Some(rows)]
      ensures r.Err? ==> written == old(written) && slab[..] == old(slab[..])
      ensures forall k :: 0 <= k < slab.Length && (forall i :: 0 <= i < STREAMS ==> !Contains(SlotSpan(layout, offsets, i, slot), k)) ==>
                slab[k] == old(slab[k])
    {
      if slot >= slots {
        return Err(SlotOutOfRange);
      }
      if |rows| != layout.rows * layout.rowBytes {
        return Err(PayloadSize);
      }
      if !writable {
        return Err(NotWritable);
      }
      for index := 0 to STREAMS
        invariant written == old(written)
        invariant forall i :: 0 <= i < index ==> StreamHeld(layout, offsets, slab[..], slot, rows, i)
        invariant AllHeld(layout, offsets, slab[..], written, slot)
        invariant forall k :: 0 <= k < slab.Length && (forall i :: 0 <= i < index ==> !Contains(SlotSpan(layout, offsets, i, slot), k)) ==>
                    slab[k] == old(slab[k])
      {
        ghost var before := slab[..];
        WriteStream(slot, rows, index);
        OthersHeld(layout, slots, offsets, before, slab[..], index, slot, rows, written);
      }
      written := written[slot := Some(rows)];
      return Ok(());
    }

    /** Copy one stream's span of a payload to its slot; an absent stream has none. */
    method WriteStream(slot: nat, rows: seq<Byte>, stream: nat)
      requires Fills(layout) && Placed(layout, slots, offsets, slab.Length)
      requires slot < slots && IsPayload(layout, rows) && stream < STREAMS
      modifies slab
      ensures StreamHeld(layout, offsets, slab[..], slot, rows, stream)
      ensures Rewritten(old(slab[..]), slab[..], SlotSpan(layout, offsets, stream, slot))
    {
      SlotInSlab(layout, slots, offsets, slab.Length, stream, slot);
      SpanWithin(layout, stream);
      var at := SlotStart(layout, offsets, stream, slot);
      if layout.widths[stream] != 0 {
        var copied := CopyStridedRows(slab, at, SlotBytes(layout, stream), rows,
                                      layout.rows, layout.rowBytes, Offset(layout.widths, stream), layout.widths[stream]);
      } else {
        WidthPresent(layout, stream);
      }
    }
  }

  /** Nothing outside an extent differs. */
  ghost predicate Rewritten(before: seq<Byte>, after: seq<Byte>, e: Extent) {
    |after| == |before| && forall k :: 0 <= k < |before| && !Contains(e, k) ==> after[k] == before[k]
  }

  /** Rewriting one slot span leaves every other one as it was. */
  lemma StillHeld(l: Layout, slots: nat, offsets: seq<nat>, before: seq<Byte>, after: seq<Byte>,
                  stream: nat, slot: nat, i: nat, s: nat, payload: seq<Byte>)
    requires Fills(l) && Placed(l, slots, offsets, |before|) && IsPayload(l, payload)
    requires stream < STREAMS && slot < slots && i < STREAMS && s < slots && (i != stream || s != slot)
    requires Rewritten(before, after, SlotSpan(l, offsets, stream, slot)) && StreamHeld(l, offsets, before, s, payload, i)
    ensures StreamHeld(l, offsets, after, s, payload, i)
  {
    var e := SlotSpan(l, offsets, i, s);
    forall k | e.start <= k < e.end ensures after[k] == before[k] {
      SlotSpansApart(l, slots, offsets, |before|, i, s, stream, slot, k);
    }
    assert after[e.start..e.end] == before[e.start..e.end];
  }

  /** Rewriting one span of a slot leaves every other slot, and the slot's spans before it, held. */
  lemma OthersHeld(l: Layout, slots: nat, offsets: seq<nat>, before: seq<Byte>, after: seq<Byte>,
                   stream: nat, slot: nat, rows: seq<Byte>, written: seq<Option<seq<Byte>>>)
    requires Fills(l) && Placed(l, slots, offsets, |before|) && IsPayload(l, rows) && stream < STREAMS && slot < slots
    requires Rewritten(before, after, SlotSpan(l, offsets, stream, slot))
    requires forall i :: 0 <= i < stream ==> StreamHeld(l, offsets, before, slot, rows, i)
    requires |written| == slots && AllHeld(l, offsets, before, written, slot)
    ensures forall i :: 0 <= i < stream ==> StreamHeld(l, offsets, after, slot, rows, i)
    ensures AllHeld(l, offsets, after, written, slot)
  {
    forall i | 0 <= i < stream ensures StreamHeld(l, offsets, after, slot, rows, i) {
      StillHeld(l, slots, offsets, before, after, stream, slot, i, slot, rows);
    }
    forall s, i | 0 <= s < slots && s != slot && written[s].Some? && 0 <= i < STREAMS
      ensures IsPayload(l, written[s].value) && StreamHeld(l, offsets, after, s, written[s].value, i)
    {
      assert Held(l, offsets, before, s, written[s].value);
      StillHeld(l, slots, offsets, before, after, stream, slot, i, s, written[s].value);
    }
  }

  /** Every written slot but one holds what was written to it. */
  ghost predicate AllHeld(l: Layout, offsets: seq<nat>, bytes: seq<Byte>, written: seq<Option<seq<Byte>>>, but: int)
    requires Fills(l) && |offsets| == STREAMS
  {
    forall s :: 0 <= s < |written| && s != but && written[s].Some? ==>
      IsPayload(l, written[s].value) && Held(l, offsets, bytes, s, written[s].value)
  }

  // ----- agreement with the splitter

  datatype Write = Write(slot: nat, payload: seq<Byte>)

  /** What each slot was last written with, after accepted writes in some order. */
  ghost function AfterWrites(written: seq<Option<seq<Byte>>>, writes: seq<Write>): (w: seq<Option<seq<Byte>>>)
    requires forall k :: 0 <= k < |writes| ==> writes[k].slot < |written|
    ensures |w| == |written|
  {
    if writes == [] then written
    else
      var last := writes[|writes| - 1];
      AfterWrites(written, writes[..|writes| - 1])[last.slot := Some(last.payload)]
  }

  ghost predicate Untouched(writes: seq<Write>, slot: nat) {
    forall j :: 0 <= j < |writes| ==> writes[j].slot != slot
  }

  /** Write k is the last one to a slot. */
  ghost predicate IsLast(writes: seq<Write>, slot: nat, k: nat) {
    k < |writes| && writes[k].slot == slot && forall j :: k < j < |writes| ==> writes[j].slot != slot
  }

  /** Whatever the order and the overwrites, each slot ends with its own last write, or with what it
      held before if it was never written. */
  lemma {:induction false} LastWriteWins(written: seq<Option<seq<Byte>>>, writes: seq<Write>, slot: nat)
    requires forall j :: 0 <= j < |writes| ==> writes[j].slot < |written|
    requires slot < |written|
    ensures Untouched(writes, slot) || exists k :: IsLast(writes, slot, k)
    ensures Untouched(writes, slot) ==> AfterWrites(written, writes)[slot] == written[slot]
    ensures forall k: nat :: IsLast(writes, slot, k) ==> AfterWrites(written, writes)[slot] == Some(writes[k].payload)
  {
    if writes != [] {
      var before, n := writes[..|writes| - 1], |writes| - 1;
      LastWriteWins(written, before, slot);
      if writes[n].slot == slot {
        assert IsLast(writes, slot, n);
      } else {
        forall k: nat ensures IsLast(before, slot, k) <==> IsLast(writes, slot, k) {
          LastBefore(before, writes[n], slot, k);
          assert writes == before + [writes[n]];
        }
      }
    }
  }

  lemma LastBefore(before: seq<Write>, w: Write, slot: nat, k: nat)
    requires w.slot != slot
    ensures IsLast(before, slot, k) <==> IsLast(before + [w], slot, k)
  {
    var writes := before + [w];
    assert forall j :: 0 <= j < |before| ==> writes[j] == before[j];
    assert writes[|before|] == w;
  }

  lemma SlotOfStream(l: Layout, offsets: seq<nat>, bytes: seq<Byte>, slots: nat, payload: seq<Byte>, stream: nat, slot: nat)
    requires Fills(l) && |offsets| == STREAMS && IsPayload(l, payload) && stream < STREAMS && slot < slots
    requires StreamExtent(l, slots, offsets, stream).end <= |bytes|
    requires StreamHeld(l, offsets, bytes, slot, payload, stream)
    ensures var e, size := StreamExtent(l, slots, offsets, stream), SlotBytes(l, stream);
            0 <= slot * size <= slot * size + size <= e.end - e.start &&
            bytes[e.start..e.end][slot * size..slot * size + size] == StreamOf(l, payload, stream)
  {
    var e, size := StreamExtent(l, slots, offsets, stream), SlotBytes(l, stream);
    RowWithin(slot, slots, size);
    SliceOfSlice(bytes, e.start, e.end - e.start, slot * size, size);
  }

  /** A slab whose every slot holds a payload holds, stream by stream, the payloads joined in slot
      order. */
  lemma StreamIsJoined(l: Layout, offsets: seq<nat>, bytes: seq<Byte>, payloads: seq<seq<Byte>>, stream: nat)
    requires Fills(l) && Placed(l, |payloads|, offsets, |bytes|) && ArePayloads(l, payloads) && stream < STREAMS
    requires forall s :: 0 <= s < |payloads| ==> StreamHeld(l, offsets, bytes, s, payloads[s], stream)
    ensures var e := StreamExtent(l, |payloads|, offsets, stream);
            e.end <= |bytes| && bytes[e.start..e.end] == Joined(l, payloads, stream)
  {
    LastSlotEnds(l, |payloads|, offsets, |bytes|, stream);
    var e, size := StreamExtent(l, |payloads|, offsets, stream), SlotBytes(l, stream);
    var whole, pieces := bytes[e.start..e.end], Pieces(l, payloads, stream);
    forall s | 0 <= s < |pieces|
      ensures 0 <= s * size <= s * size + size <= |whole| && whole[s * size..s * size + size] == pieces[s]
    {
      SlotOfStream(l, offsets, bytes, |payloads|, payloads[s], stream, s);
    }
    BlocksConcat(pieces, size, whole);
  }

  lemma LastSlotEnds(l: Layout, slots: nat, offsets: seq<nat>, slabBytes: nat, stream: nat)
    requires Fills(l) && Placed(l, slots, offsets, slabBytes) && stream < STREAMS
    ensures StreamExtent(l, slots, offsets, stream).end <= slabBytes
  {
    SlotInSlab(l, slots, offsets, slabBytes, stream, slots - 1);
    var size := SlotBytes(l, stream);
    assert (slots - 1) * size + size == slots * size;
  }

  /** In-place slot writes agree with the append-only splitter: once each slot's final payload is
      what the splitter appended in slot order, the slab's streams are the splitter's. */
  lemma AgreesWithSplitter(slots: SlotStreams, split: SplitStreams, stream: nat)
    requires slots.Valid() && split.Valid() && slots.layout == split.layout && stream < STREAMS
    requires |split.payloads| == slots.slots
    requires forall s :: 0 <= s < slots.slots ==> slots.written[s] == Some(split.payloads[s])
    ensures var e := StreamExtent(slots.layout, slots.slots, slots.offsets, stream);
            e.end <= slots.slab.Length && slots.slab[e.start..e.end] == split.streams[stream]
  {
    forall s | 0 <= s < slots.slots
      ensures StreamHeld(slots.layout, slots.offsets, slots.slab[..], s, split.payloads[s], stream)
    {
      assert slots.written[s].Some? && Held(slots.layout, slots.offsets, slots.slab[..], s, slots.written[s].value);
    }
    StreamIsJoined(slots.layout, slots.offsets, slots.slab[..], split.payloads, stream);
    var e := StreamExtent(slots.layout, slots.slots, slots.offsets, stream);
    assert slots.slab[e.start..e.end] == slots.slab[..][e.start..e.end];
  }
}
