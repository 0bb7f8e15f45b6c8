/** Sorensen (Bray-Curtis): the sum of |a - b| over the sum of a + b at the
    counted positions. The code as written keeps only the last active a + b as the
    rectified denominator; the pipeline runs it as written, and the corrected
    distance is stated beside it with its unit-range bound. */
module Sorensen {
  import opened Numerics
  import opened Aggregation

  function Difference(x: real, y: real): real { Abs(x - y) }
  function Total(x: real, y: real): real { x + y }

  /** numerator / denominator, with a non-positive denominator replaced by 1. */
  function Ratio(numerator: real, denominator: real): real {
    numerator / (if denominator > 0.0 then denominator else 1.0)
  }

  /** The rectified branch as written assigns the denominator instead of adding
      to it, so it keeps only a + b of the last active position. */
  function LastActiveTotal(a: seq<real>, b: seq<real>, n: nat): real
    requires n <= |a| && n <= |b|
  {
    if n == 0 then 0.0
    else if a[n - 1] != 0.0 || b[n - 1] != 0.0 then a[n - 1] + b[n - 1]
    else LastActiveTotal(a, b, n - 1)
  }

  /** The distance the code computes: the summed |a - b| over the summed a + b
      outside rectified mode, and over a + b of the last active position in it. */
  function DistanceAsWritten(a: seq<real>, b: seq<real>, rectified: bool): real
    requires |a| <= |b|
  {
    var denominator := if rectified then LastActiveTotal(a, b, |a|) else SumOver(Total, false, a, b, |a|);
    Ratio(SumOver(Difference, rectified, a, b, |a|), denominator)
  }

  method ComputeDistance(a: seq<real>, b: seq<real>, rectified: bool) returns (d: real)
    requires |a| <= |b|
    ensures d == DistanceAsWritten(a, b, rectified)
  {
    var numerator := 0.0;
    var denominator := 0.0;
    if rectified {
      for i := 0 to |a|
        invariant numerator == SumOver(Difference, true, a, b, i)
        invariant denominator == LastActiveTotal(a, b, i)
      {
        if a[i] != 0.0 || b[i] != 0.0 {
          numerator := numerator + Abs(a[i] - b[i]);
          denominator := a[i] + b[i];
        }
      }
    } else {
      for i := 0 to |a|
        invariant numerator == SumOver(Difference, false, a, b, i)
        invariant denominator == SumOver(Total, false, a, b, i)
      {
        numerator := numerator + Abs(a[i] - b[i]);
        denominator := denominator + (a[i] + b[i]);
      }
    }
    d := Ratio(numerator, denominator);
  }

  lemma {:induction false} LastActiveTotalSymmetric(a: seq<real>, b: seq<real>, n: nat)
    requires n <= |a| && n <= |b|
    ensures LastActiveTotal(a, b, n) == LastActiveTotal(b, a, n)
  {
    if n > 0 {
      LastActiveTotalSymmetric(a, b, n - 1);
    }
  }

  /** The numerator is a sum of absolute values and a non-positive denominator is
      replaced by 1, so the distance as written is never negative. */
  lemma AsWrittenNonNegative(a: seq<real>, b: seq<real>, rectified: bool)
    requires |a| <= |b|
    ensures DistanceAsWritten(a, b, rectified) >= 0.0
  {
    SumOverZeroIff(Difference, rectified, a, b, |a|);
  }

  lemma AsWrittenIdentical(a: seq<real>, rectified: bool)
    ensures DistanceAsWritten(a, a, rectified) == 0.0
  {
    forall i | 0 <= i < |a|
      ensures Difference(a[i], a[i]) == 0.0
    {
    }
    SumOverIdentical(Difference, rectified, a, |a|);
  }

  lemma AsWrittenSymmetric(a: seq<real>, b: seq<real>, rectified: bool)
    requires |a| == |b|
    ensures DistanceAsWritten(a, b, rectified) == DistanceAsWritten(b, a, rectified)
  {
    forall i | 0 <= i < |a|
      ensures Difference(a[i], b[i]) == Difference(b[i], a[i]) && Total(a[i], b[i]) == Total(b[i], a[i])
    {
    }
    SumOverSwap(Difference, Difference, rectified, a, b, |a|);
    SumOverSwap(Total, Total, false, a, b, |a|);
    LastActiveTotalSymmetric(a, b, |a|);
  }

  /** The corrected distance: the denominator summed over the counted positions in
      both modes. */
  function Distance(a: seq<real>, b: seq<real>, rectified: bool): real
    requires |a| <= |b|
  {
    Ratio(SumOver(Difference, rectified, a, b, |a|), SumOver(Total, rectified, a, b, |a|))
  }

  /** Outside rectified mode the code as written and the corrected distance agree. */
  lemma AsWrittenAgreesUnrectified(a: seq<real>, b: seq<real>)
    requires |a| <= |b|
    ensures DistanceAsWritten(a, b, false) == Distance(a, b, false)
  {
  }

  /** In rectified mode the code as written gives 2 for a = [1, 1], b = [0, 0],
      outside the range [0, 1] that the corrected distance keeps on non-negative
      data; the corrected distance gives 1. */
  lemma AsWrittenLeavesUnitRange()
    ensures DistanceAsWritten([1.0, 1.0], [0.0, 0.0], true) == 2.0
    ensures Distance([1.0, 1.0], [0.0, 0.0], true) == 1.0
  {
    var a, b := [1.0, 1.0], [0.0, 0.0];
    assert SumOver(Difference, true, a, b, 2) == 2.0;
    assert SumOver(Total, true, a, b, 2) == 2.0;
    assert LastActiveTotal(a, b, 2) == 1.0;
  }

  lemma DistanceNonNegative(a: seq<real>, b: seq<real>, rectified: bool)
    requires |a| <= |b|
    ensures Distance(a, b, rectified) >= 0.0
  {
    SumOverZeroIff(Difference, rectified, a, b, |a|);
  }

  lemma DistanceIdentical(a: seq<real>, rectified: bool)
    ensures Distance(a, a, rectified) == 0.0
  {
    forall i | 0 <= i < |a|
      ensures Difference(a[i], a[i]) == 0.0
    {
    }
    SumOverIdentical(Difference, rectified, a, |a|);
  }

  lemma DistanceSymmetric(a: seq<real>, b: seq<real>, rectified: bool)
    requires |a| == |b|
    ensures Distance(a, b, rectified) == Distance(b, a, rectified)
  {
    forall i | 0 <= i < |a|
      ensures Difference(a[i], b[i]) == Difference(b[i], a[i]) && Total(a[i], b[i]) == Total(b[i], a[i])
    {
    }
    SumOverSwap(Difference, Difference, rectified, a, b, |a|);
    SumOverSwap(Total, Total, rectified, a, b, |a|);
  }

  /** On non-negative data |a - b| <= a + b, so the distance is at most 1. */
  lemma DistanceInUnitRange(a: seq<real>, b: seq<real>, rectified: bool)
    requires |a| <= |b|
    requires forall i :: 0 <= i < |a| ==> a[i] >= 0.0 && b[i] >= 0.0
    ensures 0.0 <= Distance(a, b, rectified) <= 1.0
  {
    var n := SumOver(Difference, rectified, a, b, |a|);
    var d := SumOver(Total, rectified, a, b, |a|);
    SumOverZeroIff(Difference, rectified, a, b, |a|);
    SumOverMono(Difference, Total, rectified, a, b, |a|);
    if d > 0.0 {
      DivUnit(n, d);
    }
  }
}
