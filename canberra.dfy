/** Canberra: the mean over the counted positions of |a - b| / (|a| + |b|). */
module Canberra {
  import opened Numerics
  import opened Aggregation

  /** |x - y| / (|x| + |y|), with the divisor raised to 1 when it is 0. */
  function Term(x: real, y: real): real {
    var denominator := Abs(x) + Abs(y);
    Abs(x - y) / (if denominator != 0.0 then denominator else 1.0)
  }

  /** Every term lies in [0, 1]; it is 0 on equal values and symmetric. */
  lemma TermSpec(x: real, y: real)
    ensures 0.0 <= Term(x, y) <= 1.0
    ensures x == y ==> Term(x, y) == 0.0
    ensures Term(x, y) == Term(y, x)
  {
    var denominator := Abs(x) + Abs(y);
    assert Abs(x - y) <= denominator;
    if denominator != 0.0 {
      DivUnit(Abs(x - y), denominator);
    }
  }

  function Distance(a: seq<real>, b: seq<real>, rectified: bool): real
    requires |a| <= |b|
  {
    SumOver(Term, rectified, a, b, |a|) / Floor1(CountOver(rectified, a, b, |a|))
  }

  method ComputeDistance(a: seq<real>, b: seq<real>, rectified: bool) returns (d: real)
    requires |a| <= |b|
    ensures d == Distance(a, b, rectified)
  {
    var sum := 0.0;
    var count := 0;
    if rectified {
      for i := 0 to |a|
        invariant sum == SumOver(Term, true, a, b, i)
        invariant count == CountOver(true, a, b, i)
      {
        if a[i] != 0.0 || b[i] != 0.0 {
          var numerator := Abs(a[i] - b[i]);
          var denominator := Abs(a[i]) + Abs(b[i]);
          sum := sum + numerator / (if denominator != 0.0 then denominator else 1.0);
          count := count + 1;
        }
      }
    } else {
      count := |a|;
      for i := 0 to |a|
        invariant sum == SumOver(Term, false, a, b, i)
      {
        var numerator := Abs(a[i] - b[i]);
        var denominator := Abs(a[i]) + Abs(b[i]);
        sum := sum + numerator / (if denominator != 0.0 then denominator else 1.0);
      }
      CountOverBounds(false, a, b, |a|);
    }
    d := sum / (if count > 0 then count as real else 1.0);
  }

  /** The metric lies in [0, 1]. */
  lemma DistanceInUnitRange(a: seq<real>, b: seq<real>, rectified: bool)
    requires |a| <= |b|
    ensures 0.0 <= Distance(a, b, rectified) <= 1.0
  {
    forall i | 0 <= i < |a| {
      TermSpec(a[i], b[i]);
    }
    MeanOfUnitTerms(Term, rectified, a, b, |a|);
  }

  lemma DistanceIdentical(a: seq<real>, rectified: bool)
    ensures Distance(a, a, rectified) == 0.0
  {
    forall i | 0 <= i < |a| {
      TermSpec(a[i], a[i]);
    }
    MeanIdentical(Term, rectified, a);
  }

  lemma DistanceSymmetric(a: seq<real>, b: seq<real>, rectified: bool)
    requires |a| == |b|
    ensures Distance(a, b, rectified) == Distance(b, a, rectified)
  {
    forall i | 0 <= i < |a| {
      TermSpec(a[i], b[i]);
    }
    MeanSymmetric(Term, rectified, a, b);
  }

  /** With no counted position (empty input, or no active position in rectified
      mode) the metric is 0. */
  lemma DistanceWithoutCountedPositions(a: seq<real>, b: seq<real>, rectified: bool)
    requires |a| <= |b| && CountOver(rectified, a, b, |a|) == 0
    ensures Distance(a, b, rectified) == 0.0
  {
    SumOverWithoutCounted(Term, rectified, a, b, |a|);
  }
}
