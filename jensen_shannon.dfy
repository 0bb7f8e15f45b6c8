/** Jensen-Shannon: every value is taken as a share of its vector's total; the
    divergence terms of the two shares against their mean are summed over the
    counted positions, and the square root of the sum is divided by the count. */
module JensenShannon {
  import opened Numerics
  import opened Aggregation

  /** A value's share of its vector's total. The total is non-zero wherever a
      share is used (the precondition of Distance); the guard only makes the
      function defined everywhere. */
  function Share(x: real, total: real): real {
    if total != 0.0 then x / total else 0.0
  }

  /** v1 * Ln(v1 / mean) + v2 * Ln(v2 / mean), each half taken only when its share
      and the mean are positive. */
  function Term(m: MathLib, v1: real, v2: real): real {
    var mean := (v1 + v2) / 2.0;
    var left := if v1 > 0.0 && mean > 0.0 then v1 * m.ln(v1 / mean) else 0.0;
    var right := if v2 > 0.0 && mean > 0.0 then v2 * m.ln(v2 / mean) else 0.0;
    left + right
  }

  function TermOf(m: MathLib, total1: real, total2: real): (real, real) -> real {
    (x, y) => Term(m, Share(x, total1), Share(y, total2))
  }

  lemma TermSpec(m: MathLib, v1: real, v2: real)
    requires Lawful(m)
    ensures Term(m, v1, v2) == Term(m, v2, v1)
    ensures Term(m, v1, v1) == 0.0
  {
    assert (v1 + v2) / 2.0 == (v2 + v1) / 2.0;
    assert (v1 + v1) / 2.0 == v1;
    if v1 > 0.0 {
      assert v1 / v1 == 1.0;
    }
  }

  /** The totals the source divides by are not 0 whenever some position is
      counted. With a zero total the source's shares are NaN (0 / 0) or
      infinite: an all-zero vector gives NaN shares, both guards of every term
      fail, and the result is 0; a non-zero value over a zero total gives an
      infinite share and a NaN or 0 term. The model leaves those inputs out. */
  predicate TotalsDefined(a: seq<real>, b: seq<real>, rectified: bool)
    requires |a| <= |b|
  {
    CountOver(rectified, a, b, |a|) > 0 ==> Sum(a) != 0.0 && Sum(b) != 0.0
  }

  function Distance(m: MathLib, a: seq<real>, b: seq<real>, rectified: bool): real
    requires |a| <= |b| && TotalsDefined(a, b, rectified)
  {
    m.sqrt(SumOver(TermOf(m, Sum(a), Sum(b)), rectified, a, b, |a|)) / Floor1(CountOver(rectified, a, b, |a|))
  }

  method ComputeDistance(m: MathLib, a: seq<real>, b: seq<real>, rectified: bool) returns (d: real)
    requires |a| <= |b| && TotalsDefined(a, b, rectified)
    ensures d == Distance(m, a, b, rectified)
  {
    var sum := 0.0;
    var count := 0;
    var sum1 := Sum(a);
    var sum2 := Sum(b);
    if rectified {
      for i := 0 to |a|
        invariant sum == SumOver(TermOf(m, sum1, sum2), true, a, b, i)
        invariant count == CountOver(true, a, b, i)
      {
        if a[i] != 0.0 || b[i] != 0.0 {
          var v1 := Share(a[i], sum1);
          var v2 := Share(b[i], sum2);
          sum := sum + Term(m, v1, v2);
          count := count + 1;
        }
      }
    } else {
      for i := 0 to |a|
        invariant sum == SumOver(TermOf(m, sum1, sum2), false, a, b, i)
        invariant count == i
      {
        var v1 := Share(a[i], sum1);
        var v2 := Share(b[i], sum2);
        sum := sum + Term(m, v1, v2);
        count := count + 1;
      }
      CountOverBounds(false, a, b, |a|);
    }
    d := m.sqrt(sum) / (if count > 0 then count as real else 1.0);
  }

  /** A vector compared with itself has equal shares at every position, so every
      term is 0. */
  lemma DistanceIdentical(m: MathLib, a: seq<real>, rectified: bool)
    requires Lawful(m) && TotalsDefined(a, a, rectified)
    ensures Distance(m, a, a, rectified) == 0.0
  {
    forall i | 0 <= i < |a|
      ensures TermOf(m, Sum(a), Sum(a))(a[i], a[i]) == 0.0
    {
      TermSpec(m, Share(a[i], Sum(a)), Share(a[i], Sum(a)));
    }
    SumOverIdentical(TermOf(m, Sum(a), Sum(a)), rectified, a, |a|);
  }

  lemma DistanceSymmetric(m: MathLib, a: seq<real>, b: seq<real>, rectified: bool)
    requires Lawful(m) && |a| == |b|
    requires TotalsDefined(a, b, rectified) && TotalsDefined(b, a, rectified)
    ensures Distance(m, a, b, rectified) == Distance(m, b, a, rectified)
  {
    forall i | 0 <= i < |a|
      ensures TermOf(m, Sum(a), Sum(b))(a[i], b[i]) == TermOf(m, Sum(b), Sum(a))(b[i], a[i])
    {
      TermSpec(m, Share(a[i], Sum(a)), Share(b[i], Sum(b)));
    }
    SumOverSwap(TermOf(m, Sum(a), Sum(b)), TermOf(m, Sum(b), Sum(a)), rectified, a, b, |a|);
    CountOverSymmetric(rectified, a, b, |a|);
  }

  /** With no counted position the result is Sqrt(0) / 1 = 0, whatever the totals. */
  lemma DistanceWithoutCountedPositions(m: MathLib, a: seq<real>, b: seq<real>, rectified: bool)
    requires Lawful(m) && |a| <= |b| && CountOver(rectified, a, b, |a|) == 0
    ensures Distance(m, a, b, rectified) == 0.0
  {
    SumOverWithoutCounted(TermOf(m, Sum(a), Sum(b)), rectified, a, b, |a|);
  }
}
