/** Lorentzian: the mean over the counted positions of Ln(1 + |a - b|). */
module Lorentzian {
  import opened Numerics
  import opened Aggregation

  function Term(m: MathLib, x: real, y: real): real {
    m.ln(1.0 + Abs(x - y))
  }

  /** The term as a function of the two values, for the sums. */
  function TermOf(m: MathLib): (real, real) -> real {
    (x, y) => Term(m, x, y)
  }

  lemma TermSpec(m: MathLib, x: real, y: real)
    requires Lawful(m)
    ensures Term(m, x, y) >= 0.0
    ensures x == y ==> Term(m, x, y) == 0.0
    ensures Term(m, x, y) == Term(m, y, x)
  {
    assert Abs(x - y) == Abs(y - x);
  }

  function Distance(m: MathLib, a: seq<real>, b: seq<real>, rectified: bool): real
    requires |a| <= |b|
  {
    SumOver(TermOf(m), rectified, a, b, |a|) / Floor1(CountOver(rectified, a, b, |a|))
  }

  method ComputeDistance(m: MathLib, a: seq<real>, b: seq<real>, rectified: bool) returns (d: real)
    requires |a| <= |b|
    ensures d == Distance(m, a, b, rectified)
  {
    var sum := 0.0;
    var count := 0;
    if rectified {
      for i := 0 to |a|
        invariant sum == SumOver(TermOf(m), true, a, b, i)
        invariant count == CountOver(true, a, b, i)
      {
        if a[i] != 0.0 || b[i] != 0.0 {
          sum := sum + m.ln(1.0 + Abs(a[i] - b[i]));
          count := count + 1;
        }
      }
    } else {
      count := |a|;
      for i := 0 to |a|
        invariant sum == SumOver(TermOf(m), false, a, b, i)
      {
        sum := sum + m.ln(1.0 + Abs(a[i] - b[i]));
      }
      CountOverBounds(false, a, b, |a|);
    }
    d := sum / (if count > 0 then count as real else 1.0);
  }

  /** Every term is the logarithm of a number at least 1, so the metric is not
      negative. */
  lemma DistanceNonNegative(m: MathLib, a: seq<real>, b: seq<real>, rectified: bool)
    requires Lawful(m) && |a| <= |b|
    ensures Distance(m, a, b, rectified) >= 0.0
  {
    forall i | 0 <= i < |a| {
      TermSpec(m, a[i], b[i]);
    }
    SumOverZeroIff(TermOf(m), rectified, a, b, |a|);
  }

  /** Identical vectors give Ln(1) = 0 at every position. */
  lemma DistanceIdentical(m: MathLib, a: seq<real>, rectified: bool)
    requires Lawful(m)
    ensures Distance(m, a, a, rectified) == 0.0
  {
    forall i | 0 <= i < |a| {
      TermSpec(m, a[i], a[i]);
    }
    SumOverIdentical(TermOf(m), rectified, a, |a|);
  }

  lemma DistanceSymmetric(m: MathLib, a: seq<real>, b: seq<real>, rectified: bool)
    requires Lawful(m) && |a| == |b|
    ensures Distance(m, a, b, rectified) == Distance(m, b, a, rectified)
  {
    forall i | 0 <= i < |a| {
      TermSpec(m, a[i], b[i]);
    }
    SumOverSwap(TermOf(m), TermOf(m), rectified, a, b, |a|);
    CountOverSymmetric(rectified, a, b, |a|);
  }
}
