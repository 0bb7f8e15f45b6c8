/** Cosine: 10 * (1 - a.b / (|a| |b|)) over the counted positions. */
module Cosine {
  import opened Numerics
  import opened Aggregation

  function Product(x: real, y: real): real { x * y }
  function FirstSquared(x: real, y: real): real { x * x }
  function SecondSquared(x: real, y: real): real { y * y }

  function Similarity(m: MathLib, numerator: real, sum1: real, sum2: real): real {
    var denominator := m.sqrt(sum1) * m.sqrt(sum2);
    numerator / (if denominator > 0.0 then denominator else 1.0)
  }

  function Distance(m: MathLib, a: seq<real>, b: seq<real>, rectified: bool): real
    requires |a| <= |b|
  {
    10.0 * (1.0 - Similarity(m, SumOver(Product, rectified, a, b, |a|),
                             SumOver(FirstSquared, rectified, a, b, |a|),
                             SumOver(SecondSquared, rectified, a, b, |a|)))
  }

  method ComputeDistance(m: MathLib, a: seq<real>, b: seq<real>, rectified: bool) returns (d: real)
    requires |a| <= |b|
    ensures d == Distance(m, a, b, rectified)
  {
    var numerator := 0.0;
    var sum1 := 0.0;
    var sum2 := 0.0;
    if rectified {
      for i := 0 to |a|
        invariant numerator == SumOver(Product, true, a, b, i)
        invariant sum1 == SumOver(FirstSquared, true, a, b, i)
        invariant sum2 == SumOver(SecondSquared, true, a, b, i)
      {
        if a[i] != 0.0 || b[i] != 0.0 {
          numerator := numerator + a[i] * b[i];
          sum1 := sum1 + a[i] * a[i];
          sum2 := sum2 + b[i] * b[i];
        }
      }
    } else {
      for i := 0 to |a|
        invariant numerator == SumOver(Product, false, a, b, i)
        invariant sum1 == SumOver(FirstSquared, false, a, b, i)
        invariant sum2 == SumOver(SecondSquared, false, a, b, i)
      {
        numerator := numerator + a[i] * b[i];
        sum1 := sum1 + a[i] * a[i];
        sum2 := sum2 + b[i] * b[i];
      }
    }
    d := 10.0 * (1.0 - Similarity(m, numerator, sum1, sum2));
  }

  lemma DistanceSymmetric(m: MathLib, a: seq<real>, b: seq<real>, rectified: bool)
    requires |a| == |b|
    ensures Distance(m, a, b, rectified) == Distance(m, b, a, rectified)
  {
    SumOverSwap(Product, Product, rectified, a, b, |a|);
    SumOverSwap(FirstSquared, SecondSquared, rectified, a, b, |a|);
    SumOverSwap(SecondSquared, FirstSquared, rectified, a, b, |a|);
    var s1 := SumOver(FirstSquared, rectified, a, b, |a|);
    var s2 := SumOver(SecondSquared, rectified, a, b, |a|);
    assert m.sqrt(s1) * m.sqrt(s2) == m.sqrt(s2) * m.sqrt(s1);
  }

  /** A vector compared with itself is at distance 0, except when its counted
      positions are all 0: then the denominator is 0 and the result is 10. */
  lemma DistanceIdentical(m: MathLib, a: seq<real>, rectified: bool)
    requires Lawful(m)
    ensures SumOver(FirstSquared, rectified, a, a, |a|) >= 0.0
    ensures Distance(m, a, a, rectified) ==
      if SumOver(FirstSquared, rectified, a, a, |a|) > 0.0 then 0.0 else 10.0
  {
    forall i | 0 <= i < |a| {
      Square(a[i]);
    }
    SumOverZeroIff(FirstSquared, rectified, a, a, |a|);
    SumOverSwap(Product, FirstSquared, rectified, a, a, |a|);
    SumOverSwap(SecondSquared, FirstSquared, rectified, a, a, |a|);
    var s := SumOver(FirstSquared, rectified, a, a, |a|);
    assert SumOver(Product, rectified, a, a, |a|) == s;
    assert SumOver(SecondSquared, rectified, a, a, |a|) == s;
    SelfSimilarity(m, s);
  }

  /** With all three sums equal to a sum of squares s, the similarity is 1, or 0
      when s is 0 and the denominator falls back to 1. */
  lemma SelfSimilarity(m: MathLib, s: real)
    requires Lawful(m) && s >= 0.0
    ensures Similarity(m, s, s, s) == if s > 0.0 then 1.0 else 0.0
  {
    if s == 0.0 {
      assert m.sqrt(s) * m.sqrt(s) == 0.0;
    } else {
      assert m.sqrt(s) * m.sqrt(s) == s;
      assert s / s == 1.0;
    }
  }

  /** When the first vector is 0 at every counted position, the numerator and one
      factor of the denominator vanish, so the result is 10. */
  lemma DistanceOfZeroVector(m: MathLib, a: seq<real>, b: seq<real>, rectified: bool)
    requires Lawful(m) && |a| <= |b|
    requires forall i :: 0 <= i < |a| ==> a[i] == 0.0
    ensures Distance(m, a, b, rectified) == 10.0
  {
    forall i | 0 <= i < |a|
      ensures Product(a[i], b[i]) == 0.0 && FirstSquared(a[i], b[i]) == 0.0
    {
    }
    SumOverZeroIff(FirstSquared, rectified, a, b, |a|);
    MulZeroSum(rectified, a, b, |a|);
  }

  lemma {:induction false} MulZeroSum(rectified: bool, a: seq<real>, b: seq<real>, n: nat)
    requires n <= |a| && n <= |b|
    requires forall i :: 0 <= i < n ==> a[i] == 0.0
    ensures SumOver(Product, rectified, a, b, n) == 0.0
  {
    if n > 0 {
      MulZeroSum(rectified, a, b, n - 1);
    }
  }
}
