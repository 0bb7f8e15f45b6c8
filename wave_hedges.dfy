/** Wave Hedges: the mean over the counted positions of |a - b| / max(a, b). */
module WaveHedges {
  import opened Numerics
  import opened Aggregation

  /** |x - y| / max(x, y), or 0 when the maximum is 0. */
  function Term(x: real, y: real): real {
    var max := Max(x, y);
    if max != 0.0 then Abs(x - y) / max else 0.0
  }

  lemma TermSpec(x: real, y: real)
    ensures x == y ==> Term(x, y) == 0.0
    ensures Term(x, y) == Term(y, x)
    ensures x >= 0.0 && y >= 0.0 ==> 0.0 <= Term(x, y) <= 1.0
  {
    assert Abs(x - y) == Abs(y - x) && Max(x, y) == Max(y, x);
    var max := Max(x, y);
    if x >= 0.0 && y >= 0.0 && max != 0.0 {
      DivUnit(Abs(x - y), max);
    }
  }

  function Distance(a: seq<real>, b: seq<real>, rectified: bool): real
    requires |a| <= |b|
  {
    SumOver(Term, rectified, a, b, |a|) / Floor1(CountOver(rectified, a, b, |a|))
  }

  method ComputeDistance(a: seq<real>, b: seq<real>, rectified: bool) returns (d: real)
    requires |a| <= |b|
    ensures d == Distance(a, b, rectified)
  {
    var sum := 0.0;
    var count := 0;
    if rectified {
      for i := 0 to |a|
        invariant sum == SumOver(Term, true, a, b, i)
        invariant count == CountOver(true, a, b, i)
      {
        if a[i] != 0.0 || b[i] != 0.0 {
          var diff := Abs(a[i] - b[i]);
          var max := Max(a[i], b[i]);
          sum := sum + (if max != 0.0 then diff / max else 0.0);
          count := count + 1;
        }
      }
    } else {
      count := |a|;
      for i := 0 to |a|
        invariant sum == SumOver(Term, false, a, b, i)
      {
        var diff := Abs(a[i] - b[i]);
        var max := Max(a[i], b[i]);
        sum := sum + (if max != 0.0 then diff / max else 0.0);
      }
      CountOverBounds(false, a, b, |a|);
    }
    d := sum / (if count > 0 then count as real else 1.0);
  }

  /** On non-negative data every term lies in [0, 1], and so does the metric. */
  lemma DistanceInUnitRange(a: seq<real>, b: seq<real>, rectified: bool)
    requires |a| <= |b|
    requires forall i :: 0 <= i < |a| ==> a[i] >= 0.0 && b[i] >= 0.0
    ensures 0.0 <= Distance(a, b, rectified) <= 1.0
  {
    forall i | 0 <= i < |a| {
      TermSpec(a[i], b[i]);
    }
    MeanOfUnitTerms(Term, rectified, a, b, |a|);
  }

  lemma DistanceIdentical(a: seq<real>, rectified: bool)
    ensures Distance(a, a, rectified) == 0.0
  {
    forall i | 0 <= i < |a| {
      TermSpec(a[i], a[i]);
    }
    MeanIdentical(Term, rectified, a);
  }

  lemma DistanceSymmetric(a: seq<real>, b: seq<real>, rectified: bool)
    requires |a| == |b|
    ensures Distance(a, b, rectified) == Distance(b, a, rectified)
  {
    forall i | 0 <= i < |a| {
      TermSpec(a[i], b[i]);
    }
    MeanSymmetric(Term, rectified, a, b);
  }
}
