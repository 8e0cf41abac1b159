/**
 The down-sampler of a price series, with `Math.round` taken exactly: half a unit rounds up.
 */
module Downsample {
  /** `Math.round(i * (n - 1) / (max - 1))` */
  function Index(i: nat, n: nat, max: nat): nat
    requires n > 0 && max > 1
  {
    RoundHalfUp(i * (n - 1), max - 1)
  }

  /** The nearest integer to x / d, the upper one of two. */
  function RoundHalfUp(x: nat, d: nat): nat
    requires d > 0
  {
    (2 * x + d) / (2 * d)
  }

  function Downsample<T>(points: seq<T>, max: nat): (r: seq<T>)
    requires max > 1
  {
    if |points| <= max then points
    else seq(max, i requires 0 <= i < max =>
           IndexInRange(i, |points|, max);
           points[Index(i, |points|, max)])
  }

  function Ceil(x: nat, d: nat): nat
    requires d > 0
  {
    (x + d - 1) / d
  }

  // ----- rounding

  lemma DivBounds(x: nat, d: nat)
    requires d > 0
    ensures x / d * d <= x < x / d * d + d
  {
  }

  lemma DivIs(x: nat, d: nat, q: nat)
    requires d > 0 && q * d <= x < q * d + d
    ensures x / d == q
  {
    DivBounds(x, d);
    var p := x / d;
    MulCancel(q, p, d);
    MulCancel(p, q, d);
  }

  lemma MulCancel(p: nat, q: nat, d: nat)
    ensures p * d < q * d + d ==> p <= q
  {
    if p >= q + 1 {
      assert p * d >= (q + 1) * d == q * d + d;
    }
  }

  lemma DivMonotone(x: nat, y: nat, d: nat)
    requires d > 0 && x <= y
    ensures x / d <= y / d
  {
    DivBounds(x, d);
    DivBounds(y, d);
    MulCancel(x / d, y / d, d);
  }

  /** The nearest integer: off by at most half, and a half goes up. */
  lemma RoundIsNearest(x: nat, d: nat)
    requires d > 0
    ensures 2 * x - d < 2 * (RoundHalfUp(x, d) * d) <= 2 * x + d
  {
    var r := RoundHalfUp(x, d);
    DivBounds(2 * x + d, 2 * d);
    assert r * (2 * d) == 2 * (r * d);
  }

  lemma RoundOfMultiple(q: nat, d: nat)
    requires d > 0
    ensures RoundHalfUp(q * d, d) == q
  {
    assert 2 * (q * d) == q * (2 * d);
    DivIs(2 * (q * d) + d, 2 * d, q);
  }

  /** One stride further, rounding moves by at least one whole unit and by at most the stride rounded up. */
  lemma RoundStep(x: nat, s: nat, d: nat)
    requires d > 0 && s >= d
    ensures RoundHalfUp(x, d) < RoundHalfUp(x + s, d) <= RoundHalfUp(x, d) + Ceil(s, d)
  {
    var r, c := RoundHalfUp(x, d), Ceil(s, d);
    RoundOfShift(x, d, 1);
    DivMonotone(2 * (x + d) + d, 2 * (x + s) + d, 2 * d);
    DivBounds(s + d - 1, d);
    assert s <= c * d;
    RoundOfShift(x, d, c);
    DivMonotone(2 * (x + s) + d, 2 * (x + c * d) + d, 2 * d);
  }

  lemma RoundOfShift(x: nat, d: nat, k: nat)
    requires d > 0
    ensures RoundHalfUp(x + k * d, d) == RoundHalfUp(x, d) + k
  {
    var r := RoundHalfUp(x, d);
    DivBounds(2 * x + d, 2 * d);
    ShiftArithmetic(r, k, d);
    DivIs(2 * (x + k * d) + d, 2 * d, r + k);
  }

  lemma ShiftArithmetic(r: nat, k: nat, d: nat)
    ensures (r + k) * (2 * d) == r * (2 * d) + 2 * (k * d)
  {
  }

  // ----- the chosen indices

  lemma IndexEnds(n: nat, max: nat)
    requires n > 0 && max > 1
    ensures Index(0, n, max) == 0 && Index(max - 1, n, max) == n - 1
  {
    RoundOfMultiple(0, max - 1);
    RoundOfMultiple(n - 1, max - 1);
    assert (max - 1) * (n - 1) == (n - 1) * (max - 1);
  }

  /** Neighbouring choices are distinct, in order, and at most the rounded-up stride apart. */
  lemma IndexStep(i: nat, n: nat, max: nat)
    requires n > max > 1
    ensures Index(i, n, max) < Index(i + 1, n, max) <= Index(i, n, max) + Ceil(n - 1, max - 1)
  {
    RoundStep(i * (n - 1), n - 1, max - 1);
    assert (i + 1) * (n - 1) == i * (n - 1) + (n - 1);
  }

  lemma {:induction false} IndexIncreases(i: nat, j: nat, n: nat, max: nat)
    requires n > max > 1 && i < j
    ensures Index(i, n, max) < Index(j, n, max)
    decreases j
  {
    IndexStep(j - 1, n, max);
    if i < j - 1 {
      IndexIncreases(i, j - 1, n, max);
    }
  }

  lemma IndexInRange(i: nat, n: nat, max: nat)
    requires n > max > 1 && i < max
    ensures Index(i, n, max) < n
  {
    IndexEnds(n, max);
    if i < max - 1 {
      IndexIncreases(i, max - 1, n, max);
    }
  }

  /** The position `p` is nearest to i strides of n / d, the upper one of two. */
  predicate NearestToStride(p: nat, i: nat, n: nat, d: nat) {
    2 * (i * n) - d < 2 * (p * d) <= 2 * (i * n) + d
  }

  lemma IndexIsNearest(i: nat, n: nat, max: nat)
    requires n > 0 && max > 1
    ensures NearestToStride(Index(i, n, max), i, n - 1, max - 1)
  {
    RoundIsNearest(i * (n - 1), max - 1);
  }

  /** A series that is short enough is left as it is. */
  lemma ShortIsKept<T>(points: seq<T>, max: nat)
    requires max > 1
    ensures |points| <= max ==> Downsample(points, max) == points
    ensures |Downsample(points, max)| == if |points| <= max then |points| else max
  {
  }

  /** `at` lists positions of `points` in strictly increasing order, and `r` is what stands there. */
  ghost predicate SubsequenceAt<T>(r: seq<T>, points: seq<T>, at: seq<nat>) {
    && |at| == |r|
    && (forall i | 0 <= i < |at| :: at[i] < |points| && r[i] == points[at[i]])
    && (forall i, j | 0 <= i < j < |at| :: at[i] < at[j])
  }

  /**
   A longer series is thinned to exactly `max` points: a subsequence in chronological order that
   keeps the first and the last point and never skips more than the stride, rounded up.
   */
  lemma DownsampleIsSubsequence<T>(points: seq<T>, max: nat) returns (at: seq<nat>)
    requires |points| > max > 1
    ensures |at| == max && at[0] == 0 && at[max - 1] == |points| - 1
    ensures SubsequenceAt(Downsample(points, max), points, at)
    ensures forall i | 0 <= i < max - 1 :: at[i + 1] - at[i] <= Ceil(|points| - 1, max - 1)
    ensures forall i | 0 <= i < max :: NearestToStride(at[i], i, |points| - 1, max - 1)
  {
    var n := |points|;
    at := seq(max, i requires 0 <= i < max => Index(i, n, max));
    IndexEnds(n, max);
    forall i | 0 <= i < max
      ensures at[i] < n
    {
      IndexInRange(i, n, max);
    }
    forall i, j | 0 <= i < j < max
      ensures at[i] < at[j]
    {
      IndexIncreases(i, j, n, max);
    }
    forall i | 0 <= i < max
      ensures NearestToStride(at[i], i, n - 1, max - 1)
    {
      IndexIsNearest(i, n, max);
    }
    forall i | 0 <= i < max - 1
      ensures at[i + 1] - at[i] <= Ceil(n - 1, max - 1)
    {
      IndexStep(i, n, max);
    }
  }
}
