/** The decoder's butterfly: every channel is one lane, and all lanes take a stage at once, each
    combining its own value with that of the lane whose number differs in one bit. */
module ButterflyLanes {
  import opened Hadamard

  /** The bit of a lane's number that a power of two selects. */
  predicate Upper(lane: nat, stride: nat)
    requires stride > 0
  {
    lane / stride % 2 == 1
  }

  /** Every lane has a partner: one stride up without the bit, one stride down with it. */
  ghost predicate Paired(lanes: nat, stride: nat) {
    stride > 0 && forall c: nat :: c < lanes ==> if Upper(c, stride) then c >= stride else c + stride < lanes
  }

  function LaneStage(x: Vec, stride: nat): (y: Vec)
    requires Paired(|x|, stride)
    ensures |y| == |x|
  {
    seq(|x|, c requires 0 <= c < |x| =>
      assert if Upper(c, stride) then c >= stride else c + stride < |x|;
      if Upper(c, stride) then x[c - stride] - x[c] else x[c] + x[c + stride])
  }

  // ----- a stage is one level of the transform

  lemma {:induction false} MulBelow(a: nat, b: nat, d: nat)
    ensures a < b ==> a * d + d <= b * d
  {
    if a < b {
      assert b * d == (b - 1) * d + d;
      MulBelow(a, b - 1, d);
    }
  }

  lemma SameQuotient(d: nat, q: nat, r: nat, p: nat, s: nat)
    requires q * d + r == p * d + s && r < d && s < d
    ensures q == p
  {
    MulBelow(q, p, d);
    MulBelow(p, q, d);
  }

  lemma StrideDown(c: nat, stride: nat)
    requires 0 < stride <= c
    ensures c / stride == (c - stride) / stride + 1
  {
    var q, r := (c - stride) / stride, (c - stride) % stride;
    assert (q + 1) * stride == q * stride + stride;
    SameQuotient(stride, c / stride, c % stride, q + 1, r);
  }

  lemma OutsideBlock(c: nat, stride: nat)
    requires 0 < 2 * stride <= c
    ensures Upper(c, stride) == Upper(c - 2 * stride, stride)
  {
    StrideDown(c, stride);
    StrideDown(c - stride, stride);
  }

  lemma InsideBlock(c: nat, stride: nat)
    requires c < 2 * stride
    ensures Upper(c, stride) == (c >= stride)
  {
    if c >= stride {
      SameQuotient(stride, c / stride, c % stride, 1, c - stride);
    } else {
      SameQuotient(stride, c / stride, c % stride, 0, c);
    }
  }

  lemma FirstLane(c: nat, stride: nat)
    requires stride > 0
    ensures Upper(c, stride) == if c < 2 * stride then c >= stride else Upper(c - 2 * stride, stride)
  {
    if c < 2 * stride {
      InsideBlock(c, stride);
    } else {
      OutsideBlock(c, stride);
    }
  }

  /** Two more blocks in front leave every pair a pair. */
  lemma PairedFront(lanes: nat, stride: nat)
    requires Paired(lanes, stride)
    ensures Paired(2 * stride + lanes, stride)
  {
    forall c: nat | c < 2 * stride + lanes
      ensures if Upper(c, stride) then c >= stride else c + stride < 2 * stride + lanes
    {
      FirstLane(c, stride);
      if c >= 2 * stride {
        assert if Upper(c - 2 * stride, stride) then c - 2 * stride >= stride else c - 2 * stride + stride < lanes;
      }
    }
  }

  lemma {:induction false} WholePaired(k: nat, x: Vec)
    requires Whole(k + 1, x)
    ensures Paired(|x|, Pow2(k))
    decreases |x|
  {
    if x != [] {
      WholePaired(k, x[Pow2(k + 1)..]);
      PairedFront(|x| - 2 * Pow2(k), Pow2(k));
    }
  }

  lemma StageFront(a: Vec, b: Vec, rest: Vec, stride: nat)
    requires |a| == |b| == stride && Paired(|rest|, stride)
    ensures Paired(|a + b + rest|, stride)
    ensures LaneStage(a + b + rest, stride) == Combine(a, b) + LaneStage(rest, stride)
  {
    PairedFront(|rest|, stride);
    var x, want := a + b + rest, Combine(a, b) + LaneStage(rest, stride);
    forall c | 0 <= c < |x| ensures LaneStage(x, stride)[c] == want[c] {
      FirstLane(c, stride);
    }
  }

  /** The stage at stride 2^k turns transformed blocks of 2^k into transformed blocks of 2^(k+1). */
  lemma {:induction false} StageIsLevel(k: nat, x: Vec)
    requires Whole(k, x) && Whole(k + 1, x)
    ensures Paired(|x|, Pow2(k)) && LaneStage(Blocked(k, x), Pow2(k)) == Blocked(k + 1, x)
    decreases |x|
  {
    WholePaired(k, x);
    if x != [] {
      var h := Pow2(k);
      BlockedPair(k, x);
      PairCombined(k, x);
      StageIsLevel(k, x[2 * h..]);
      StageFront(Wht(k, x[..h]), Wht(k, x[h..2 * h]), Blocked(k, x[2 * h..]), h);
    }
  }

  // ----- all the stages

  lemma {:induction false} PowersPaired(k: nat, n: nat)
    requires k < n
    ensures Paired(Pow2(n), Pow2(k))
  {
    var x: Vec := seq(Pow2(n), _ => 0.0);
    BlockedWhole(n, x);
    WholeDown(k + 1, n, x);
    WholePaired(k, x);
  }

  /** The values after the first k stages. */
  ghost function LaneStages(n: nat, x: Vec, k: nat): (y: Vec)
    requires |x| == Pow2(n) && k <= n
    ensures |y| == |x|
  {
    if k == 0 then x else
    PowersPaired(k - 1, n);
    LaneStage(LaneStages(n, x, k - 1), Pow2(k - 1))
  }

  lemma {:induction false} StagesAreLevels(n: nat, x: Vec, k: nat)
    requires |x| == Pow2(n) && k <= n
    ensures Whole(k, x) && LaneStages(n, x, k) == Blocked(k, x)
  {
    BlockedWhole(n, x);
    WholeDown(k, n, x);
    if k == 0 {
      BlockedByOnes(x);
    } else {
      StagesAreLevels(n, x, k - 1);
      StageIsLevel(k - 1, x);
    }
  }

  /** What the decoder's lanes leave of a row: every stage, then a sixteenth. */
  ghost function Unrotated(x: Vec): (y: Vec)
    requires |x| == HEAD_DIM
    ensures |y| == HEAD_DIM
  {
    Sixteenth(LaneStages(Levels(), x, Levels()))
  }

  /** The decoder's lanes compute the encoder's rotation, so they undo it. */
  lemma LanesRotate(x: Vec)
    requires |x| == HEAD_DIM
    ensures Unrotated(x) == Rotated(x) && Unrotated(Rotated(x)) == x
  {
    var k := Levels();
    StagesAreLevels(k, x, k);
    BlockedWhole(k, x);
    StagesAreLevels(k, Rotated(x), k);
    BlockedWhole(k, Rotated(x));
    RotationIsInvolution(x);
  }
}
