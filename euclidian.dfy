/** Euclidian: the square root of the mean squared difference over the counted
    positions. */
module Euclidian {
  import opened Numerics
  import opened Aggregation

  /** Math.Pow(x - y, 2). */
  function Term(x: real, y: real): real {
    (x - y) * (x - y)
  }

  lemma TermSpec(x: real, y: real)
    ensures Term(x, y) >= 0.0
    ensures x == y ==> Term(x, y) == 0.0
    ensures Term(x, y) == Term(y, x)
  {
    Square(x - y);
  }

  /** The mean squared difference: the value under the square root. */
  function Radicand(a: seq<real>, b: seq<real>, rectified: bool): real
    requires |a| <= |b|
  {
    SumOver(Term, rectified, a, b, |a|) / Floor1(CountOver(rectified, a, b, |a|))
  }

  function Distance(m: MathLib, a: seq<real>, b: seq<real>, rectified: bool): real
    requires |a| <= |b|
  {
    m.sqrt(Radicand(a, b, rectified))
  }

  method ComputeDistance(m: MathLib, a: seq<real>, b: seq<real>, rectified: bool) returns (d: real)
    requires |a| <= |b|
    ensures d == Distance(m, a, b, rectified)
  {
    var sum := 0.0;
    var count := 0;
    if rectified {
      for i := 0 to |a|
        invariant sum == SumOver(Term, true, a, b, i)
        invariant count == CountOver(true, a, b, i)
      {
        if a[i] != 0.0 || b[i] != 0.0 {
          sum := sum + (a[i] - b[i]) * (a[i] - b[i]);
          count := count + 1;
        }
      }
    } else {
      count := |a|;
      for i := 0 to |a|
        invariant sum == SumOver(Term, false, a, b, i)
      {
        sum := sum + (a[i] - b[i]) * (a[i] - b[i]);
      }
      CountOverBounds(false, a, b, |a|);
    }
    d := m.sqrt(sum / (if count > 0 then count as real else 1.0));
  }

  /** The radicand is never negative, so the metric is a genuine square root and
      is not negative either. */
  lemma DistanceNonNegative(m: MathLib, a: seq<real>, b: seq<real>, rectified: bool)
    requires Lawful(m) && |a| <= |b|
    ensures Radicand(a, b, rectified) >= 0.0
    ensures Distance(m, a, b, rectified) >= 0.0
  {
    forall i | 0 <= i < |a| {
      TermSpec(a[i], b[i]);
    }
    SumOverZeroIff(Term, rectified, a, b, |a|);
  }

  lemma DistanceIdentical(m: MathLib, a: seq<real>, rectified: bool)
    requires Lawful(m)
    ensures Distance(m, a, a, rectified) == 0.0
  {
    forall i | 0 <= i < |a| {
      TermSpec(a[i], a[i]);
    }
    MeanIdentical(Term, rectified, a);
  }

  lemma DistanceSymmetric(m: MathLib, a: seq<real>, b: seq<real>, rectified: bool)
    requires |a| == |b|
    ensures Distance(m, a, b, rectified) == Distance(m, b, a, rectified)
  {
    forall i | 0 <= i < |a| {
      TermSpec(a[i], b[i]);
    }
    MeanSymmetric(Term, rectified, a, b);
  }

  /** With no counted position the metric is Sqrt(0) = 0. */
  lemma DistanceWithoutCountedPositions(m: MathLib, a: seq<real>, b: seq<real>, rectified: bool)
    requires Lawful(m) && |a| <= |b| && CountOver(rectified, a, b, |a|) == 0
    ensures Distance(m, a, b, rectified) == 0.0
  {
    SumOverWithoutCounted(Term, rectified, a, b, |a|);
  }
}
