/** Ruzicka: 1 - (sum of the smaller values) / (sum of the larger values) over
    the counted positions. */
module Ruzicka {
  import opened Numerics
  import opened Aggregation

  function Smaller(x: real, y: real): real { Min(x, y) }
  function Larger(x: real, y: real): real { Max(x, y) }

  /** 1 - numerator / denominator, with a zero denominator replaced by 1. */
  function Complement(numerator: real, denominator: real): real {
    1.0 - numerator / (if denominator != 0.0 then denominator else 1.0)
  }

  function Distance(a: seq<real>, b: seq<real>, rectified: bool): real
    requires |a| <= |b|
  {
    Complement(SumOver(Smaller, rectified, a, b, |a|), SumOver(Larger, rectified, a, b, |a|))
  }

  method ComputeDistance(a: seq<real>, b: seq<real>, rectified: bool) returns (d: real)
    requires |a| <= |b|
    ensures d == Distance(a, b, rectified)
  {
    var numerator := 0.0;
    var denominator := 0.0;
    if rectified {
      for i := 0 to |a|
        invariant numerator == SumOver(Smaller, true, a, b, i)
        invariant denominator == SumOver(Larger, true, a, b, i)
      {
        if a[i] != 0.0 || b[i] != 0.0 {
          numerator := numerator + Min(a[i], b[i]);
          denominator := denominator + Max(a[i], b[i]);
        }
      }
    } else {
      for i := 0 to |a|
        invariant numerator == SumOver(Smaller, false, a, b, i)
        invariant denominator == SumOver(Larger, false, a, b, i)
      {
        numerator := numerator + Min(a[i], b[i]);
        denominator := denominator + Max(a[i], b[i]);
      }
    }
    d := Complement(numerator, denominator);
  }

  lemma DistanceSymmetric(a: seq<real>, b: seq<real>, rectified: bool)
    requires |a| == |b|
    ensures Distance(a, b, rectified) == Distance(b, a, rectified)
  {
    forall i | 0 <= i < |a|
      ensures Smaller(a[i], b[i]) == Smaller(b[i], a[i]) && Larger(a[i], b[i]) == Larger(b[i], a[i])
    {
    }
    SumOverSwap(Smaller, Smaller, rectified, a, b, |a|);
    SumOverSwap(Larger, Larger, rectified, a, b, |a|);
  }

  /** A vector compared with itself is at distance 0, unless the sum of its
      counted values is 0: then the result is 1. */
  lemma DistanceIdentical(a: seq<real>, rectified: bool)
    ensures Distance(a, a, rectified) == if SumOver(Larger, rectified, a, a, |a|) != 0.0 then 0.0 else 1.0
  {
    SumOverSwap(Smaller, Larger, rectified, a, a, |a|);
  }

  /** On non-negative data the smaller values never sum to more than the larger
      ones, so the distance lies in [0, 1]. */
  lemma DistanceInUnitRange(a: seq<real>, b: seq<real>, rectified: bool)
    requires |a| <= |b|
    requires forall i :: 0 <= i < |a| ==> a[i] >= 0.0 && b[i] >= 0.0
    ensures 0.0 <= Distance(a, b, rectified) <= 1.0
  {
    var n := SumOver(Smaller, rectified, a, b, |a|);
    var d := SumOver(Larger, rectified, a, b, |a|);
    SumOverZeroIff(Smaller, rectified, a, b, |a|);
    SumOverMono(Smaller, Larger, rectified, a, b, |a|);
    if d != 0.0 {
      DivUnit(n, d);
    }
  }
}
