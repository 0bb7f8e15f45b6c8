/** Hamming: the fraction of counted positions at which the two vectors differ. */
module Hamming {
  import opened Numerics
  import opened Aggregation

  /** 1 where the two values differ, 0 where they agree. */
  function Mismatch(x: real, y: real): real {
    if x == y then 0.0 else 1.0
  }

  /** The metric: the mismatches over the counted positions, divided by their
      number (or by 1 when there are none). */
  function Distance(a: seq<real>, b: seq<real>, rectified: bool): real
    requires |a| <= |b|
  {
    SumOver(Mismatch, rectified, a, b, |a|) / Floor1(CountOver(rectified, a, b, |a|))
  }

  /** The metric hook: one pass over the positions of `a`. */
  method ComputeDistance(a: seq<real>, b: seq<real>, rectified: bool) returns (d: real)
    requires |a| <= |b|
    ensures d == Distance(a, b, rectified)
  {
    var sum := 0.0;
    var count := 0;
    if rectified {
      for i := 0 to |a|
        invariant sum == SumOver(Mismatch, true, a, b, i)
        invariant count == CountOver(true, a, b, i)
      {
        if a[i] != 0.0 || b[i] != 0.0 {
          sum := sum + (if a[i] == b[i] then 0.0 else 1.0);
          count := count + 1;
        }
      }
    } else {
      count := |a|;
      for i := 0 to |a|
        invariant sum == SumOver(Mismatch, false, a, b, i)
      {
        sum := sum + (if a[i] == b[i] then 0.0 else 1.0);
      }
      CountOverBounds(false, a, b, |a|);
    }
    d := sum / (if count > 0 then count as real else 1.0);
  }

  /** The number of counted positions i < n where the vectors differ. */
  function Differing(rectified: bool, a: seq<real>, b: seq<real>, n: nat): nat
    requires n <= |a| && n <= |b|
  {
    if n == 0 then 0
    else Differing(rectified, a, b, n - 1) + (if Kept(rectified, a[n - 1], b[n - 1]) && a[n - 1] != b[n - 1] then 1 else 0)
  }

  /** The summed mismatches are the number of differing counted positions, so the
      metric is the fraction of differing positions. */
  lemma {:induction false} MismatchesAreDiffering(a: seq<real>, b: seq<real>, rectified: bool, n: nat)
    requires n <= |a| && n <= |b|
    ensures SumOver(Mismatch, rectified, a, b, n) == Differing(rectified, a, b, n) as real
    ensures Differing(rectified, a, b, n) <= CountOver(rectified, a, b, n)
  {
    if n > 0 {
      MismatchesAreDiffering(a, b, rectified, n - 1);
    }
  }

  lemma DistanceIsFraction(a: seq<real>, b: seq<real>, rectified: bool)
    requires |a| <= |b|
    ensures Distance(a, b, rectified) ==
      Differing(rectified, a, b, |a|) as real / Floor1(CountOver(rectified, a, b, |a|))
  {
    MismatchesAreDiffering(a, b, rectified, |a|);
  }

  /** The metric lies in [0, 1]. */
  lemma DistanceInUnitRange(a: seq<real>, b: seq<real>, rectified: bool)
    requires |a| <= |b|
    ensures 0.0 <= Distance(a, b, rectified) <= 1.0
  {
    MeanOfUnitTerms(Mismatch, rectified, a, b, |a|);
  }

  /** Identical vectors are at distance 0. */
  lemma DistanceIdentical(a: seq<real>, rectified: bool)
    ensures Distance(a, a, rectified) == 0.0
  {
    MeanIdentical(Mismatch, rectified, a);
  }

  lemma DistanceSymmetric(a: seq<real>, b: seq<real>, rectified: bool)
    requires |a| == |b|
    ensures Distance(a, b, rectified) == Distance(b, a, rectified)
  {
    MeanSymmetric(Mismatch, rectified, a, b);
  }

  /** With no counted position (empty input, or no active position in rectified
      mode) the floor makes the metric 0. */
  lemma DistanceWithoutCountedPositions(a: seq<real>, b: seq<real>, rectified: bool)
    requires |a| <= |b| && CountOver(rectified, a, b, |a|) == 0
    ensures Distance(a, b, rectified) == 0.0
  {
    SumOverWithoutCounted(Mismatch, rectified, a, b, |a|);
  }
}
