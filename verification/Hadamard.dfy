/** The in-place Walsh-Hadamard rotation of a head row, over the reals. */
module Hadamard {

  type Vec = seq<real>

  function Pow2(k: nat): (n: nat)
    ensures n > 0
  {
    if k == 0 then 1 else 2 * Pow2(k - 1)
  }

  /** 2^k times v, by doubling. */
  function Doubled(k: nat, v: real): real {
    if k == 0 then v else 2.0 * Doubled(k - 1, v)
  }

  function Add(a: Vec, b: Vec): (r: Vec)
    requires |a| == |b|
    ensures |r| == |a|
  {
    seq(|a|, i requires 0 <= i < |a| => a[i] + b[i])
  }

  function Sub(a: Vec, b: Vec): (r: Vec)
    requires |a| == |b|
    ensures |r| == |a|
  {
    seq(|a|, i requires 0 <= i < |a| => a[i] - b[i])
  }

  /** One butterfly over two halves: sums, then differences. */
  function Combine(lo: Vec, hi: Vec): (r: Vec)
    requires |lo| == |hi|
    ensures |r| == 2 * |lo|
  {
    Add(lo, hi) + Sub(lo, hi)
  }

  // ----- the reference transform

  /** Unnormalised transform of 2^k values: the butterfly of the transformed halves. */
  function Wht(k: nat, x: Vec): (y: Vec)
    requires |x| == Pow2(k)
    ensures |y| == |x|
    decreases k
  {
    if k == 0 then x else Combine(Wht(k - 1, x[..Pow2(k - 1)]), Wht(k - 1, x[Pow2(k - 1)..]))
  }

  /** Which entries of row i of the 2^k Walsh-Hadamard matrix are -1; the others are 1.
      Each matrix is built from the one half its size as [[H, H], [H, -H]]. */
  function Negatives(k: nat, i: nat): (row: seq<bool>)
    requires i < Pow2(k)
    ensures |row| == Pow2(k)
    decreases k
  {
    if k == 0 then [false] else
    var half := Pow2(k - 1);
    if i < half then Negatives(k - 1, i) + Negatives(k - 1, i)
    else Negatives(k - 1, i - half) + Flip(Negatives(k - 1, i - half))
  }

  function Flip(row: seq<bool>): (r: seq<bool>)
    ensures |r| == |row|
  {
    seq(|row|, i requires 0 <= i < |row| => !row[i])
  }

  /** The product of a row of signs with a vector. */
  function SignedSum(negative: seq<bool>, x: Vec): real
    requires |negative| == |x|
  {
    if x == [] then 0.0 else (if negative[0] then -x[0] else x[0]) + SignedSum(negative[1..], x[1..])
  }

  lemma {:induction false} SignedSumConcat(n1: seq<bool>, n2: seq<bool>, x: Vec, y: Vec)
    requires |n1| == |x| && |n2| == |y|
    ensures SignedSum(n1 + n2, x + y) == SignedSum(n1, x) + SignedSum(n2, y)
  {
    if x == [] {
      assert n1 + n2 == n2 && x + y == y;
    } else {
      assert (n1 + n2)[1..] == n1[1..] + n2 && (x + y)[1..] == x[1..] + y;
      SignedSumConcat(n1[1..], n2, x[1..], y);
    }
  }

  lemma {:induction false} SignedSumFlip(negative: seq<bool>, x: Vec)
    requires |negative| == |x|
    ensures SignedSum(Flip(negative), x) == -SignedSum(negative, x)
  {
    if x != [] {
      assert Flip(negative)[1..] == Flip(negative[1..]);
      SignedSumFlip(negative[1..], x[1..]);
    }
  }

  lemma CombineAt(lo: Vec, hi: Vec, i: nat)
    requires |lo| == |hi| && i < |lo|
    ensures Combine(lo, hi)[i] == lo[i] + hi[i]
    ensures Combine(lo, hi)[|lo| + i] == lo[i] - hi[i]
  {
  }

  /** The two halves of a vector of 2^(k+1) values. */
  lemma Halved(k: nat, x: Vec) returns (lo: Vec, hi: Vec)
    requires |x| == Pow2(k + 1)
    ensures |lo| == |hi| == Pow2(k) && x == lo + hi
  {
    lo, hi := x[..Pow2(k)], x[Pow2(k)..];
  }

  lemma WhtHalves(k: nat, lo: Vec, hi: Vec)
    requires |lo| == |hi| == Pow2(k)
    ensures Wht(k + 1, lo + hi) == Combine(Wht(k, lo), Wht(k, hi))
  {
    assert (lo + hi)[..Pow2(k)] == lo && (lo + hi)[Pow2(k)..] == hi;
  }

  /** The first half of the rows adds the halves' products, the second subtracts them. */
  lemma MatrixHalves(k: nat, i: nat, lo: Vec, hi: Vec)
    requires |lo| == |hi| == Pow2(k) && i < Pow2(k)
    ensures var row := Negatives(k, i);
            && SignedSum(Negatives(k + 1, i), lo + hi) == SignedSum(row, lo) + SignedSum(row, hi)
            && SignedSum(Negatives(k + 1, Pow2(k) + i), lo + hi) == SignedSum(row, lo) - SignedSum(row, hi)
  {
    var row := Negatives(k, i);
    SignedSumConcat(row, row, lo, hi);
    SignedSumConcat(row, Flip(row), lo, hi);
    SignedSumFlip(row, hi);
  }

  /** The transform is multiplication by the Walsh-Hadamard matrix. */
  lemma {:induction false} WhtIsMatrix(k: nat, x: Vec, i: nat)
    requires |x| == Pow2(k) && i < Pow2(k)
    ensures Wht(k, x)[i] == SignedSum(Negatives(k, i), x)
    decreases k, 1
  {
    if k == 0 {
      assert SignedSum([false], x) == x[0] + SignedSum([], []);
    } else {
      var lo, hi := Halved(k - 1, x);
      WhtIsMatrixStep(k - 1, lo, hi, if i < |lo| then i else i - |lo|);
    }
  }

  lemma {:induction false} WhtIsMatrixStep(k: nat, lo: Vec, hi: Vec, m: nat)
    requires |lo| == |hi| == Pow2(k) && m < Pow2(k)
    ensures Wht(k + 1, lo + hi)[m] == SignedSum(Negatives(k + 1, m), lo + hi)
    ensures Wht(k + 1, lo + hi)[Pow2(k) + m] == SignedSum(Negatives(k + 1, Pow2(k) + m), lo + hi)
    decreases k + 1, 0
  {
    WhtIsMatrix(k, lo, m);
    WhtIsMatrix(k, hi, m);
    WhtHalves(k, lo, hi);
    CombineAt(Wht(k, lo), Wht(k, hi), m);
    MatrixHalves(k, m, lo, hi);
  }

  // ----- linearity, involution and energy

  lemma AddConcat(a: Vec, b: Vec, c: Vec, d: Vec)
    requires |a| == |c| && |b| == |d|
    ensures Add(a + b, c + d) == Add(a, c) + Add(b, d)
  {
  }

  lemma SubConcat(a: Vec, b: Vec, c: Vec, d: Vec)
    requires |a| == |c| && |b| == |d|
    ensures Sub(a + b, c + d) == Sub(a, c) + Sub(b, d)
  {
  }

  lemma {:induction false} WhtAdd(k: nat, a: Vec, b: Vec)
    requires |a| == |b| == Pow2(k)
    ensures Wht(k, Add(a, b)) == Add(Wht(k, a), Wht(k, b))
    decreases k, 1
  {
    if k > 0 {
      var a1, a2 := Halved(k - 1, a);
      var b1, b2 := Halved(k - 1, b);
      WhtAddStep(k - 1, a1, a2, b1, b2);
    }
  }

  lemma {:induction false} WhtAddStep(k: nat, a: Vec, b: Vec, c: Vec, d: Vec)
    requires |a| == |b| == |c| == |d| == Pow2(k)
    ensures Wht(k + 1, Add(a + b, c + d)) == Add(Wht(k + 1, a + b), Wht(k + 1, c + d))
    decreases k + 1, 0
  {
    AddConcat(a, b, c, d);
    WhtHalves(k, a, b);
    WhtHalves(k, c, d);
    WhtHalves(k, Add(a, c), Add(b, d));
    WhtAdd(k, a, c);
    WhtAdd(k, b, d);
    CombineAdd(Wht(k, a), Wht(k, b), Wht(k, c), Wht(k, d));
  }

  lemma CombineAdd(a: Vec, b: Vec, c: Vec, d: Vec)
    requires |a| == |b| == |c| == |d|
    ensures Combine(Add(a, c), Add(b, d)) == Add(Combine(a, b), Combine(c, d))
  {
  }

  lemma {:induction false} WhtSub(k: nat, a: Vec, b: Vec)
    requires |a| == |b| == Pow2(k)
    ensures Wht(k, Sub(a, b)) == Sub(Wht(k, a), Wht(k, b))
    decreases k, 1
  {
    if k > 0 {
      var a1, a2 := Halved(k - 1, a);
      var b1, b2 := Halved(k - 1, b);
      WhtSubStep(k - 1, a1, a2, b1, b2);
    }
  }

  lemma {:induction false} WhtSubStep(k: nat, a: Vec, b: Vec, c: Vec, d: Vec)
    requires |a| == |b| == |c| == |d| == Pow2(k)
    ensures Wht(k + 1, Sub(a + b, c + d)) == Sub(Wht(k + 1, a + b), Wht(k + 1, c + d))
    decreases k + 1, 0
  {
    SubConcat(a, b, c, d);
    WhtHalves(k, a, b);
    WhtHalves(k, c, d);
    WhtHalves(k, Sub(a, c), Sub(b, d));
    WhtSub(k, a, c);
    WhtSub(k, b, d);
    CombineSub(Wht(k, a), Wht(k, b), Wht(k, c), Wht(k, d));
  }

  lemma CombineSub(a: Vec, b: Vec, c: Vec, d: Vec)
    requires |a| == |b| == |c| == |d|
    ensures Combine(Sub(a, c), Sub(b, d)) == Sub(Combine(a, b), Combine(c, d))
  {
  }

  /** Transforming the halves' sums and differences again gives the halves back, doubled. */
  lemma WhtAgain(k: nat, a: Vec, b: Vec, i: nat)
    requires |a| == |b| == Pow2(k) && i < Pow2(k)
    ensures Wht(k + 1, Combine(a, b))[i] == 2.0 * Wht(k, a)[i] && Wht(k + 1, Combine(a, b))[Pow2(k) + i] == 2.0 * Wht(k, b)[i]
  {
    var u, v := Wht(k, a), Wht(k, b);
    WhtHalves(k, Add(a, b), Sub(a, b));
    WhtAdd(k, a, b);
    WhtSub(k, a, b);
    CombineAt(Add(u, v), Sub(u, v), i);
  }

  /** Transforming twice multiplies every value by the length. */
  lemma {:induction false} WhtTwice(k: nat, x: Vec, i: nat)
    requires |x| == Pow2(k) && i < |x|
    ensures Wht(k, Wht(k, x))[i] == Doubled(k, x[i])
    decreases k, 1
  {
    if k > 0 {
      var lo, hi := Halved(k - 1, x);
      WhtTwiceStep(k - 1, lo, hi, if i < |lo| then i else i - |lo|);
    }
  }

  lemma {:induction false} WhtTwiceStep(k: nat, lo: Vec, hi: Vec, m: nat)
    requires |lo| == |hi| == Pow2(k) && m < Pow2(k)
    ensures var y := Wht(k + 1, Wht(k + 1, lo + hi));
            y[m] == Doubled(k + 1, lo[m]) && y[Pow2(k) + m] == Doubled(k + 1, hi[m])
    decreases k + 1, 0
  {
    WhtHalves(k, lo, hi);
    WhtAgain(k, Wht(k, lo), Wht(k, hi), m);
    WhtTwice(k, lo, m);
    WhtTwice(k, hi, m);
  }

  function Energy(x: Vec): real {
    if x == [] then 0.0 else x[0] * x[0] + Energy(x[1..])
  }

  lemma {:induction false} EnergyConcat(x: Vec, y: Vec)
    ensures Energy(x + y) == Energy(x) + Energy(y)
  {
    if x == [] {
      assert x + y == y;
    } else {
      assert (x + y)[1..] == x[1..] + y;
      EnergyConcat(x[1..], y);
    }
  }

  lemma SquareSums(a: real, b: real)
    ensures (a + b) * (a + b) + (a - b) * (a - b) == 2.0 * (a * a) + 2.0 * (b * b)
  {
  }

  lemma {:induction false} EnergySums(a: Vec, b: Vec)
    requires |a| == |b|
    ensures Energy(Add(a, b)) + Energy(Sub(a, b)) == 2.0 * Energy(a) + 2.0 * Energy(b)
  {
    if a != [] {
      assert Add(a, b)[1..] == Add(a[1..], b[1..]);
      assert Sub(a, b)[1..] == Sub(a[1..], b[1..]);
      EnergySums(a[1..], b[1..]);
      SquareSums(a[0], b[0]);
    }
  }

  lemma {:induction false} EnergyNotNegative(a: Vec)
    ensures Energy(a) >= 0.0
  {
    if a != [] {
      EnergyNotNegative(a[1..]);
    }
  }

  /** The energy of a sum of two vectors is at most twice the sum of theirs. */
  lemma EnergyOfSum(a: Vec, b: Vec)
    requires |a| == |b|
    ensures Energy(Add(a, b)) <= 2.0 * Energy(a) + 2.0 * Energy(b)
  {
    EnergySums(a, b);
    EnergyNotNegative(Sub(a, b));
  }

  lemma CombineEnergy(a: Vec, b: Vec)
    requires |a| == |b|
    ensures Energy(Combine(a, b)) == 2.0 * Energy(a) + 2.0 * Energy(b)
  {
    EnergyConcat(Add(a, b), Sub(a, b));
    EnergySums(a, b);
  }

  lemma {:induction false} DoubledSum(k: nat, u: real, v: real)
    ensures Doubled(k, u) + Doubled(k, v) == Doubled(k, u + v)
  {
    if k > 0 {
      DoubledSum(k - 1, u, v);
    }
  }

  /** Transforming multiplies the sum of squares by the length. */
  lemma {:induction false} WhtEnergy(k: nat, x: Vec)
    requires |x| == Pow2(k)
    ensures Energy(Wht(k, x)) == Doubled(k, Energy(x))
    decreases k, 1
  {
    if k > 0 {
      var lo, hi := Halved(k - 1, x);
      WhtEnergyStep(k - 1, lo, hi);
    }
  }

  lemma {:induction false} WhtEnergyStep(k: nat, lo: Vec, hi: Vec)
    requires |lo| == |hi| == Pow2(k)
    ensures Energy(Wht(k + 1, lo + hi)) == Doubled(k + 1, Energy(lo + hi))
    decreases k + 1, 0
  {
    WhtHalves(k, lo, hi);
    CombineEnergy(Wht(k, lo), Wht(k, hi));
    WhtEnergy(k, lo);
    WhtEnergy(k, hi);
    EnergyConcat(lo, hi);
    DoubledSum(k, Energy(lo), Energy(hi));
  }

  // ----- the normalised rotation of a head row

  const HEAD_DIM: nat := 256

  /** The number of butterfly stages: the level k at which 2^k is the head dimension. */
  ghost function Levels(): (k: nat)
    ensures Pow2(k) == HEAD_DIM
  {
    assert Pow2(4) == 16;
    assert Pow2(8) == HEAD_DIM;
    var k: nat :| Pow2(k) == HEAD_DIM;
    k
  }

  function Sixteenth(x: Vec): (r: Vec)
    ensures |r| == |x|
  {
    seq(|x|, i requires 0 <= i < |x| => 0.0625 * x[i])
  }

  /** Multiplication by the orthonormal matrix H / 16. */
  ghost function Rotated(x: Vec): (y: Vec)
    requires |x| == HEAD_DIM
    ensures |y| == HEAD_DIM
  {
    Sixteenth(Wht(Levels(), x))
  }

  lemma CombineSixteenth(a: Vec, b: Vec)
    requires |a| == |b|
    ensures Combine(Sixteenth(a), Sixteenth(b)) == Sixteenth(Combine(a, b))
  {
  }

  lemma SixteenthConcat(a: Vec, b: Vec)
    ensures Sixteenth(a + b) == Sixteenth(a) + Sixteenth(b)
  {
  }

  lemma {:induction false} WhtSixteenth(k: nat, x: Vec)
    requires |x| == Pow2(k)
    ensures Wht(k, Sixteenth(x)) == Sixteenth(Wht(k, x))
    decreases k, 1
  {
    if k > 0 {
      var lo, hi := Halved(k - 1, x);
      WhtSixteenthStep(k - 1, lo, hi);
    }
  }

  lemma {:induction false} WhtSixteenthStep(k: nat, lo: Vec, hi: Vec)
    requires |lo| == |hi| == Pow2(k)
    ensures Wht(k + 1, Sixteenth(lo + hi)) == Sixteenth(Wht(k + 1, lo + hi))
    decreases k + 1, 0
  {
    SixteenthConcat(lo, hi);
    WhtHalves(k, lo, hi);
    WhtHalves(k, Sixteenth(lo), Sixteenth(hi));
    WhtSixteenth(k, lo);
    WhtSixteenth(k, hi);
    CombineSixteenth(Wht(k, lo), Wht(k, hi));
  }

  lemma {:induction false} EnergySixteenth(x: Vec)
    ensures 256.0 * Energy(Sixteenth(x)) == Energy(x)
  {
    if x != [] {
      assert Sixteenth(x)[1..] == Sixteenth(x[1..]);
      EnergySixteenth(x[1..]);
      assert (0.0625 * x[0]) * (0.0625 * x[0]) == 0.00390625 * (x[0] * x[0]);
    }
  }

  lemma DoubledProduct(n: real, twice: real, v: real, product: real)
    requires twice == 2.0 * n && product == n * v
    ensures 2.0 * product == twice * v
  {
    assert (2.0 * n) * v == 2.0 * (n * v);
  }

  lemma {:induction false} DoubledIsProduct(k: nat, v: real)
    ensures Doubled(k, v) == Pow2(k) as real * v
  {
    if k > 0 {
      DoubledIsProduct(k - 1, v);
      assert Pow2(k) as real == 2.0 * Pow2(k - 1) as real;
      DoubledProduct(Pow2(k - 1) as real, Pow2(k) as real, v, Doubled(k - 1, v));
    }
  }

  /** Every output is a signed sum of all the inputs, over sixteen. */
  lemma RotationIsMatrix(x: Vec, i: nat)
    requires |x| == HEAD_DIM && i < HEAD_DIM
    ensures Rotated(x)[i] == 0.0625 * SignedSum(Negatives(Levels(), i), x)
  {
    WhtIsMatrix(Levels(), x, i);
  }

  /** The rotation undoes itself. */
  lemma RotationIsInvolution(x: Vec)
    requires |x| == HEAD_DIM
    ensures Rotated(Rotated(x)) == x
  {
    var k := Levels();
    WhtSixteenth(k, Wht(k, x));
    forall i | 0 <= i < HEAD_DIM ensures Rotated(Rotated(x))[i] == x[i] {
      WhtTwice(k, x, i);
      DoubledIsProduct(k, x[i]);
    }
  }

  /** The rotation keeps the sum of squares. */
  lemma RotationKeepsEnergy(x: Vec)
    requires |x| == HEAD_DIM
    ensures Energy(Rotated(x)) == Energy(x)
  {
    var k := Levels();
    WhtEnergy(k, x);
    DoubledIsProduct(k, Energy(x));
    EnergySixteenth(Wht(k, x));
  }

  lemma SixteenthSub(a: Vec, b: Vec)
    requires |a| == |b|
    ensures Sixteenth(Sub(a, b)) == Sub(Sixteenth(a), Sixteenth(b))
  {
  }

  /** An error made between the two rotations has the same sum of squares after the second. */
  lemma RotationKeepsError(y: Vec, x: Vec)
    requires |y| == |x| == HEAD_DIM
    ensures Energy(Sub(Rotated(y), x)) == Energy(Sub(y, Rotated(x)))
  {
    var k, z := Levels(), Rotated(x);
    RotationIsInvolution(x);
    WhtSub(k, y, z);
    SixteenthSub(Wht(k, y), Wht(k, z));
    RotationKeepsEnergy(Sub(y, z));
  }

  // ----- the in-place butterfly

  /** Transform each aligned block of 2^k values on its own. */
  function Blocked(k: nat, x: Vec): (y: Vec)
    requires Whole(k, x)
    ensures |y| == |x|
    decreases |x|
  {
    if x == [] then [] else Wht(k, x[..Pow2(k)]) + Blocked(k, x[Pow2(k)..])
  }

  /** The length is a whole number of 2^k blocks. */
  ghost predicate Whole(k: nat, x: Vec)
    decreases |x|
  {
    x == [] || (Pow2(k) <= |x| && Whole(k, x[Pow2(k)..]))
  }

  lemma {:induction false} WholeHalves(k: nat, x: Vec)
    requires Whole(k + 1, x)
    ensures Whole(k, x)
    decreases |x|
  {
    if x != [] {
      var h := Pow2(k);
      WholeHalves(k, x[2 * h..]);
      assert x[h..][h..] == x[2 * h..];
    }
  }

  lemma {:induction false} WholeDown(k: nat, n: nat, x: Vec)
    requires Whole(n, x) && k <= n
    ensures Whole(k, x)
    decreases n - k
  {
    if k < n {
      WholeHalves(n - 1, x);
      WholeDown(k, n - 1, x);
    }
  }

  lemma {:induction false} BlockedByOnes(x: Vec)
    requires Whole(0, x)
    ensures Blocked(0, x) == x
    decreases |x|
  {
    if x != [] {
      BlockedByOnes(x[1..]);
    }
  }

  lemma BlockedPair(k: nat, x: Vec)
    requires Whole(k, x) && Whole(k + 1, x) && x != []
    ensures var h := Pow2(k);
            && 2 * h <= |x| && Whole(k, x[2 * h..])
            && Blocked(k, x) == Wht(k, x[..h]) + Wht(k, x[h..2 * h]) + Blocked(k, x[2 * h..])
  {
    var h := Pow2(k);
    assert x[h..][..h] == x[h..2 * h];
    assert x[h..][h..] == x[2 * h..];
    WholeHalves(k, x[2 * h..]);
  }

  /** Sums and differences of one pair of adjacent blocks, in place. */
  method Butterfly(row: array<real>, base: nat, stride: nat)
    requires base + 2 * stride <= row.Length
    modifies row
    ensures forall i :: 0 <= i < base || base + 2 * stride <= i < row.Length ==> row[i] == old(row[i])
    ensures forall i :: base <= i < base + stride ==> row[i] == old(row[i]) + old(row[i + stride])
    ensures forall i :: base + stride <= i < base + 2 * stride ==> row[i] == old(row[i - stride]) - old(row[i])
  {
    for offset := 0 to stride
      invariant forall i :: 0 <= i < row.Length && !(base <= i < base + offset) && !(base + stride <= i < base + stride + offset) ==> row[i] == old(row[i])
      invariant forall i :: base <= i < base + offset ==> row[i] == old(row[i]) + old(row[i + stride])
      invariant forall i :: base + stride <= i < base + stride + offset ==> row[i] == old(row[i - stride]) - old(row[i])
    {
      var a := row[base + offset];
      var b := row[base + offset + stride];
      row[base + offset] := a + b;
      row[base + offset + stride] := a - b;
    }
  }

  /** Replacing two adjacent blocks by their butterfly, as a sequence. */
  lemma ButterflySpliced(before: Vec, after: Vec, done: Vec, a: Vec, b: Vec, tail: Vec)
    requires before == done + a + b + tail && |a| == |b| && |after| == |before|
    requires forall i :: 0 <= i < |done| || |done| + 2 * |a| <= i < |before| ==> after[i] == before[i]
    requires forall i :: |done| <= i < |done| + |a| ==> after[i] == before[i] + before[i + |a|]
    requires forall i :: |done| + |a| <= i < |done| + 2 * |a| ==> after[i] == before[i - |a|] - before[i]
    ensures after == done + Combine(a, b) + tail
  {
    var want := done + Combine(a, b) + tail;
    forall i | 0 <= i < |after| ensures after[i] == want[i] {
      if |done| <= i < |done| + |a| {
        assert before[i] == a[i - |done|] && before[i + |a|] == b[i - |done|];
      } else if |done| + |a| <= i < |done| + 2 * |a| {
        assert before[i - |a|] == a[i - |done| - |a|] && before[i] == b[i - |done| - |a|];
      }
    }
  }

  lemma CombinedHalves(k: nat, x: Vec)
    requires 2 * Pow2(k) <= |x|
    ensures Combine(Wht(k, x[..Pow2(k)]), Wht(k, x[Pow2(k)..2 * Pow2(k)])) == Wht(k + 1, x[..Pow2(k + 1)])
  {
    var h := Pow2(k);
    assert x[..2 * h][..h] == x[..h];
    assert x[..2 * h][h..] == x[h..2 * h];
  }

  /** The row with its first two pending blocks combined. */
  method CombinePair(row: array<real>, base: nat, stride: nat, ghost done: Vec, ghost a: Vec, ghost b: Vec, ghost tail: Vec)
    requires |done| == base && |a| == |b| == stride
    requires row[..] == done + a + b + tail
    modifies row
    ensures row[..] == done + Combine(a, b) + tail
  {
    ghost var before := row[..];
    Butterfly(row, base, stride);
    ButterflySpliced(before, row[..], done, a, b, tail);
  }

  /** Combining the next pair moves one block of the next level from pending to done. */
  lemma StageStep(k: nat, x: Vec, done: Vec, rest: Vec)
    requires Whole(k, rest) && Whole(k + 1, rest) && rest != []
    requires Whole(k + 1, x) && done + Blocked(k + 1, rest) == Blocked(k + 1, x)
    ensures var h := Pow2(k);
            && 2 * h <= |rest| && Whole(k, rest[2 * h..]) && Whole(k + 1, rest[2 * h..])
            && var a, b, tail := Wht(k, rest[..h]), Wht(k, rest[h..2 * h]), rest[2 * h..];
            && done + Blocked(k, rest) == done + a + b + Blocked(k, tail)
            && (done + Combine(a, b)) + Blocked(k + 1, tail) == Blocked(k + 1, x)
  {
    BlockedPair(k, rest);
    PairCombined(k, rest);
    var h := Pow2(k);
    var a, b, tail := Wht(k, rest[..h]), Wht(k, rest[h..2 * h]), rest[2 * h..];
    Regroup(done, a, b, Blocked(k, tail));
    Reassociate(done, Combine(a, b), Blocked(k + 1, tail));
  }

  lemma PairCombined(k: nat, rest: Vec)
    requires Whole(k + 1, rest) && rest != []
    ensures var h := Pow2(k);
            && 2 * h <= |rest| && Whole(k + 1, rest[2 * h..])
            && Blocked(k + 1, rest) == Combine(Wht(k, rest[..h]), Wht(k, rest[h..2 * h])) + Blocked(k + 1, rest[2 * h..])
  {
    CombinedHalves(k, rest);
  }

  lemma Reassociate(a: Vec, b: Vec, c: Vec)
    ensures a + (b + c) == (a + b) + c
  {
  }

  lemma Regroup(done: Vec, a: Vec, b: Vec, tail: Vec)
    ensures done + (a + b + tail) == done + a + b + tail
  {
  }

  /** One pass over the row: pairs of blocks of size 2^k become blocks of size 2^(k+1). */
  method Stage(row: array<real>, stride: nat, ghost k: nat, ghost x: Vec)
    requires stride == Pow2(k) && Whole(k, x) && Whole(k + 1, x)
    requires row[..] == Blocked(k, x)
    modifies row
    ensures row[..] == Blocked(k + 1, x)
  {
    var base := 0;
    ghost var done: Vec, rest := [], x;
    while base < row.Length
      invariant base == |done| && |done| + |rest| == row.Length
      invariant Whole(k, rest) && Whole(k + 1, rest)
      invariant row[..] == done + Blocked(k, rest)
      invariant done + Blocked(k + 1, rest) == Blocked(k + 1, x)
    {
      StageStep(k, x, done, rest);
      ghost var a, b := Wht(k, rest[..stride]), Wht(k, rest[stride..2 * stride]);
      CombinePair(row, base, stride, done, a, b, Blocked(k, rest[2 * stride..]));
      done, rest := done + Combine(a, b), rest[2 * stride..];
      base := base + 2 * stride;
    }
  }

  lemma {:induction false} Pow2Increases(k: nat, n: nat)
    requires k < n
    ensures Pow2(k) < Pow2(n)
    decreases n
  {
    if k < n - 1 {
      Pow2Increases(k, n - 1);
    }
  }

  lemma BlockedWhole(k: nat, x: Vec)
    requires |x| == Pow2(k)
    ensures Whole(k, x) && Blocked(k, x) == Wht(k, x)
  {
    assert x[..Pow2(k)] == x && x[Pow2(k)..] == [];
  }

  /** All the stages, in place: the unnormalised transform of the row. */
  method Butterflies(row: array<real>, ghost n: nat)
    requires row.Length == HEAD_DIM == Pow2(n)
    modifies row
    ensures row[..] == Wht(n, old(row[..]))
  {
    ghost var x := row[..];
    StageStart(n, x);
    var stride := 1;
    ghost var k := 0;
    while stride < HEAD_DIM
      invariant k <= n && stride == Pow2(k) && Whole(k, x) && row[..] == Blocked(k, x)
      decreases n - k
    {
      StageAhead(k, n, x);
      Stage(row, stride, k, x);
      stride := 2 * stride;
      k := k + 1;
    }
    StagesDone(k, n, x);
  }

  lemma StageStart(n: nat, x: Vec)
    requires |x| == Pow2(n)
    ensures Whole(0, x) && Blocked(0, x) == x
  {
    BlockedWhole(n, x);
    WholeDown(0, n, x);
    BlockedByOnes(x);
  }

  lemma StageAhead(k: nat, n: nat, x: Vec)
    requires k <= n && |x| == Pow2(n) && Pow2(k) < Pow2(n)
    ensures k < n && Whole(k + 1, x)
  {
    BlockedWhole(n, x);
    WholeDown(k + 1, n, x);
  }

  lemma StagesDone(k: nat, n: nat, x: Vec)
    requires k <= n && |x| == Pow2(n) <= Pow2(k) && Whole(k, x)
    ensures k == n && Blocked(k, x) == Wht(n, x)
  {
    if k < n {
      Pow2Increases(k, n);
    }
    BlockedWhole(n, x);
  }

  method ScaleRow(row: array<real>)
    modifies row
    ensures row[..] == Sixteenth(old(row[..]))
  {
    for i := 0 to row.Length
      invariant forall j :: 0 <= j < i ==> row[j] == 0.0625 * old(row[j])
      invariant forall j :: i <= j < row.Length ==> row[j] == old(row[j])
    {
      row[i] := row[i] * 0.0625;
    }
  }

  /** The in-place rotation is the orthonormal Walsh-Hadamard transform. */
  method Rotate(row: array<real>)
    requires row.Length == HEAD_DIM
    modifies row
    ensures row[..] == Rotated(old(row[..]))
  {
    Butterflies(row, Levels());
    ScaleRow(row);
  }
}
