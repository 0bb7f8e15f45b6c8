/** Jaccard: 10 * (sum of (a - b)^2) / (sum of a^2 + b^2 - a b) over the counted
    positions. */
module Jaccard {
  import opened Numerics
  import opened Aggregation

  function SquaredDifference(x: real, y: real): real { (x - y) * (x - y) }
  function Overlap(x: real, y: real): real { x * x + y * y - x * y }
  function TwiceOverlap(x: real, y: real): real { 2.0 * Overlap(x, y) }

  /** 10 * numerator / denominator, with a zero denominator replaced by 1. */
  function Scaled(numerator: real, denominator: real): real {
    10.0 * numerator / (if denominator != 0.0 then denominator else 1.0)
  }

  /** Both terms are non-negative, and the squared difference is at most twice
      the overlap. */
  lemma TermSpec(x: real, y: real)
    ensures SquaredDifference(x, y) >= 0.0
    ensures Overlap(x, y) >= 0.0
    ensures SquaredDifference(x, y) <= TwiceOverlap(x, y)
  {
    Square(x - y);
    Square(x);
    Square(y);
    OverlapIdentity(x, y);
    SplitSum(Overlap(x, y), SquaredDifference(x, y), x * x, y * y);
  }

  lemma OverlapIdentity(x: real, y: real)
    ensures 2.0 * Overlap(x, y) == SquaredDifference(x, y) + x * x + y * y
  {
  }

  /** 2 o = p + q + r with p, q, r >= 0. */
  lemma SplitSum(o: real, p: real, q: real, r: real)
    requires 2.0 * o == p + q + r && p >= 0.0 && q >= 0.0 && r >= 0.0
    ensures o >= 0.0 && p <= 2.0 * o
  {
  }

  function Distance(a: seq<real>, b: seq<real>, rectified: bool): real
    requires |a| <= |b|
  {
    Scaled(SumOver(SquaredDifference, rectified, a, b, |a|), SumOver(Overlap, rectified, a, b, |a|))
  }

  method ComputeDistance(a: seq<real>, b: seq<real>, rectified: bool) returns (d: real)
    requires |a| <= |b|
    ensures d == Distance(a, b, rectified)
  {
    var numerator := 0.0;
    var denominator := 0.0;
    if rectified {
      for i := 0 to |a|
        invariant numerator == SumOver(SquaredDifference, true, a, b, i)
        invariant denominator == SumOver(Overlap, true, a, b, i)
      {
        if a[i] != 0.0 || b[i] != 0.0 {
          numerator := numerator + (a[i] - b[i]) * (a[i] - b[i]);
          denominator := denominator + (a[i] * a[i] + b[i] * b[i] - a[i] * b[i]);
        }
      }
    } else {
      for i := 0 to |a|
        invariant numerator == SumOver(SquaredDifference, false, a, b, i)
        invariant denominator == SumOver(Overlap, false, a, b, i)
      {
        numerator := numerator + (a[i] - b[i]) * (a[i] - b[i]);
        denominator := denominator + (a[i] * a[i] + b[i] * b[i] - a[i] * b[i]);
      }
    }
    d := Scaled(numerator, denominator);
  }

  /** The sums behind the distance: both non-negative, and the numerator at most
      twice the denominator. */
  lemma SumsSpec(a: seq<real>, b: seq<real>, rectified: bool)
    requires |a| <= |b|
    ensures SumOver(SquaredDifference, rectified, a, b, |a|) >= 0.0
    ensures SumOver(Overlap, rectified, a, b, |a|) >= 0.0
    ensures SumOver(SquaredDifference, rectified, a, b, |a|) <= 2.0 * SumOver(Overlap, rectified, a, b, |a|)
  {
    forall i | 0 <= i < |a|
      ensures SquaredDifference(a[i], b[i]) >= 0.0 && Overlap(a[i], b[i]) >= 0.0
      ensures SquaredDifference(a[i], b[i]) <= TwiceOverlap(a[i], b[i])
    {
      TermSpec(a[i], b[i]);
    }
    SumOverZeroIff(SquaredDifference, rectified, a, b, |a|);
    SumOverZeroIff(Overlap, rectified, a, b, |a|);
    SumOverMono(SquaredDifference, TwiceOverlap, rectified, a, b, |a|);
    SumOverScale(Overlap, TwiceOverlap, 2.0, rectified, a, b, |a|);
  }

  lemma ScaledBounds(n: real, d: real)
    requires 0.0 <= n <= 2.0 * d
    ensures 0.0 <= Scaled(n, d) <= 20.0
    ensures d == 0.0 ==> Scaled(n, d) == 0.0
  {
    if d != 0.0 {
      DivMonotone(10.0 * n, 20.0 * d, d);
      assert 20.0 * d / d == 20.0;
    }
  }

  /** The distance lies in [0, 20] on any data. */
  lemma DistanceBounds(a: seq<real>, b: seq<real>, rectified: bool)
    requires |a| <= |b|
    ensures 0.0 <= Distance(a, b, rectified) <= 20.0
  {
    SumsSpec(a, b, rectified);
    ScaledBounds(SumOver(SquaredDifference, rectified, a, b, |a|), SumOver(Overlap, rectified, a, b, |a|));
  }

  /** A zero denominator forces a zero numerator, so the distance is 0. */
  lemma DistanceWithoutOverlap(a: seq<real>, b: seq<real>, rectified: bool)
    requires |a| <= |b| && SumOver(Overlap, rectified, a, b, |a|) == 0.0
    ensures Distance(a, b, rectified) == 0.0
  {
    SumsSpec(a, b, rectified);
    ScaledBounds(SumOver(SquaredDifference, rectified, a, b, |a|), SumOver(Overlap, rectified, a, b, |a|));
  }

  lemma DistanceIdentical(a: seq<real>, rectified: bool)
    ensures Distance(a, a, rectified) == 0.0
  {
    forall i | 0 <= i < |a|
      ensures SquaredDifference(a[i], a[i]) == 0.0
    {
    }
    SumOverIdentical(SquaredDifference, rectified, a, |a|);
  }

  lemma DistanceSymmetric(a: seq<real>, b: seq<real>, rectified: bool)
    requires |a| == |b|
    ensures Distance(a, b, rectified) == Distance(b, a, rectified)
  {
    forall i | 0 <= i < |a|
      ensures SquaredDifference(a[i], b[i]) == SquaredDifference(b[i], a[i])
      ensures Overlap(a[i], b[i]) == Overlap(b[i], a[i])
    {
    }
    SumOverSwap(SquaredDifference, SquaredDifference, rectified, a, b, |a|);
    SumOverSwap(Overlap, Overlap, rectified, a, b, |a|);
  }
}
