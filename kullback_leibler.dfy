/** Kullback-Leibler: the mean over the counted positions of a * Ln(a / b), taken
    only where both values are positive. */
module KullbackLeibler {
  import opened Numerics
  import opened Aggregation

  function Term(m: MathLib, x: real, y: real): real {
    if x > 0.0 && y > 0.0 then x * m.ln(x / y) else 0.0
  }

  function TermOf(m: MathLib): (real, real) -> real {
    (x, y) => Term(m, x, y)
  }

  /** Counted positions are divided by; positions whose term is 0 still count. */
  function Distance(m: MathLib, a: seq<real>, b: seq<real>, rectified: bool): real
    requires |a| <= |b|
  {
    SumOver(TermOf(m), rectified, a, b, |a|) / Floor1(CountOver(rectified, a, b, |a|))
  }

  /** The metric hook. Outside rectified mode the count is incremented at every
      position rather than set to the length. */
  method ComputeDistance(m: MathLib, a: seq<real>, b: seq<real>, rectified: bool) returns (d: real)
    requires |a| <= |b|
    ensures d == Distance(m, a, b, rectified)
  {
    var sum := 0.0;
    var count := 0;
    if rectified {
      for i := 0 to |a|
        invariant sum == SumOver(TermOf(m), true, a, b, i)
        invariant count == CountOver(true, a, b, i)
      {
        if a[i] != 0.0 || b[i] != 0.0 {
          sum := sum + (if a[i] > 0.0 && b[i] > 0.0 then a[i] * m.ln(a[i] / b[i]) else 0.0);
          count := count + 1;
        }
      }
    } else {
      for i := 0 to |a|
        invariant sum == SumOver(TermOf(m), false, a, b, i)
        invariant count == i
      {
        sum := sum + (if a[i] > 0.0 && b[i] > 0.0 then a[i] * m.ln(a[i] / b[i]) else 0.0);
        count := count + 1;
      }
      CountOverBounds(false, a, b, |a|);
    }
    d := sum / (if count > 0 then count as real else 1.0);
  }

  /** Outside rectified mode the divisor is the length; inside it, the number of
      active positions, including those whose term is 0. */
  lemma DistanceDivisor(m: MathLib, a: seq<real>, b: seq<real>, rectified: bool)
    requires |a| <= |b|
    ensures !rectified ==> Distance(m, a, b, rectified) == SumOver(TermOf(m), false, a, b, |a|) / Floor1(|a|)
    ensures CountOver(rectified, a, b, |a|) <= |a|
  {
    CountOverBounds(rectified, a, b, |a|);
  }

  /** Identical vectors give a * Ln(1) = 0 at every position. */
  lemma DistanceIdentical(m: MathLib, a: seq<real>, rectified: bool)
    requires Lawful(m)
    ensures Distance(m, a, a, rectified) == 0.0
  {
    forall i | 0 <= i < |a|
      ensures TermOf(m)(a[i], a[i]) == 0.0
    {
      if a[i] > 0.0 {
        assert a[i] / a[i] == 1.0;
      }
    }
    SumOverIdentical(TermOf(m), rectified, a, |a|);
  }
}
