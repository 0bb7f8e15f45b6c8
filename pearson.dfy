/** Pearson (correlation distance): 1 minus the correlation of the two vectors
    over the counted positions. In rectified mode each mean is taken over the
    vector's own non-zero values only. */
module Pearson {
  import opened Numerics
  import opened Aggregation

  /** The sum of the non-zero values among the first n. */
  function NonZeroSum(s: seq<real>, n: nat): real
    requires n <= |s|
  {
    if n == 0 then 0.0 else NonZeroSum(s, n - 1) + (if s[n - 1] != 0.0 then s[n - 1] else 0.0)
  }

  /** The number of non-zero values among the first n. */
  function NonZeroCount(s: seq<real>, n: nat): nat
    requires n <= |s|
  {
    if n == 0 then 0 else NonZeroCount(s, n - 1) + (if s[n - 1] != 0.0 then 1 else 0)
  }

  /** Leaving out zeros does not change a sum. */
  lemma {:induction false} NonZeroSumIsSum(s: seq<real>, n: nat)
    requires n <= |s|
    ensures NonZeroSum(s, n) == SumTo(s, n)
    ensures NonZeroCount(s, n) <= n
  {
    if n > 0 {
      NonZeroSumIsSum(s, n - 1);
    }
  }

  /** The mean of the first n values: over all of them, or in rectified mode over
      the non-zero ones (a mean of 0 when there is none). */
  function Mean(s: seq<real>, n: nat, rectified: bool): real
    requires n <= |s|
  {
    if rectified then NonZeroSum(s, n) / Floor1(NonZeroCount(s, n))
    else SumTo(s, n) / Floor1(n)
  }

  function Product(x: real, y: real): real { x * y }

  lemma ProductSpec(x: real, y: real)
    ensures Product(x, y) == Product(y, x)
    ensures Product(x, x) >= 0.0
  {
    Square(x);
  }

  function Cross(mean1: real, mean2: real): (real, real) -> real {
    (x, y) => Product(x - mean1, y - mean2)
  }

  function FirstDeviation(mean1: real): (real, real) -> real {
    (x, y) => Product(x - mean1, x - mean1)
  }

  function SecondDeviation(mean2: real): (real, real) -> real {
    (x, y) => Product(y - mean2, y - mean2)
  }

  /** 1 - numerator / (Sqrt(den1) Sqrt(den2)), with a non-positive denominator
      replaced by 1. */
  function Complement(m: MathLib, numerator: real, den1: real, den2: real): real {
    var denominator := m.sqrt(den1) * m.sqrt(den2);
    1.0 - numerator / (if denominator > 0.0 then denominator else 1.0)
  }

  function Distance(m: MathLib, a: seq<real>, b: seq<real>, rectified: bool): real
    requires |a| <= |b|
  {
    var mean1 := Mean(a, |a|, rectified);
    var mean2 := Mean(b, |a|, rectified);
    Complement(m, SumOver(Cross(mean1, mean2), rectified, a, b, |a|),
               SumOver(FirstDeviation(mean1), rectified, a, b, |a|),
               SumOver(SecondDeviation(mean2), rectified, a, b, |a|))
  }

  /** The first pass: the means of both vectors over the first |a| positions. */
  method ComputeMeans(a: seq<real>, b: seq<real>, rectified: bool) returns (mean1: real, mean2: real)
    requires |a| <= |b|
    ensures mean1 == Mean(a, |a|, rectified) && mean2 == Mean(b, |a|, rectified)
  {
    var sum1 := 0.0;
    var sum2 := 0.0;
    var count1 := 0;
    var count2 := 0;
    if rectified {
      for i := 0 to |a|
        invariant sum1 == NonZeroSum(a, i) && count1 == NonZeroCount(a, i)
        invariant sum2 == NonZeroSum(b, i) && count2 == NonZeroCount(b, i)
      {
        if a[i] != 0.0 {
          sum1 := sum1 + a[i];
          count1 := count1 + 1;
        }
        if b[i] != 0.0 {
          sum2 := sum2 + b[i];
          count2 := count2 + 1;
        }
      }
    } else {
      for i := 0 to |a|
        invariant sum1 == SumTo(a, i) && count1 == i
        invariant sum2 == SumTo(b, i) && count2 == i
      {
        sum1 := sum1 + a[i];
        count1 := count1 + 1;
        sum2 := sum2 + b[i];
        count2 := count2 + 1;
      }
    }
    mean1 := sum1 / (if count1 > 0 then count1 as real else 1.0);
    mean2 := sum2 / (if count2 > 0 then count2 as real else 1.0);
  }

  method ComputeDistance(m: MathLib, a: seq<real>, b: seq<real>, rectified: bool) returns (d: real)
    requires |a| <= |b|
    ensures d == Distance(m, a, b, rectified)
  {
    var mean1, mean2 := ComputeMeans(a, b, rectified);
    var numerator, den1, den2 := ComputeMoments(a, b, rectified, mean1, mean2);
    d := Complement(m, numerator, den1, den2);
  }

  /** The three sums of the second pass over the first i positions. */
  predicate MomentsUpTo(a: seq<real>, b: seq<real>, rectified: bool, mean1: real, mean2: real, i: nat,
                        numerator: real, den1: real, den2: real)
    requires i <= |a| && i <= |b|
  {
    && numerator == SumOver(Cross(mean1, mean2), rectified, a, b, i)
    && den1 == SumOver(FirstDeviation(mean1), rectified, a, b, i)
    && den2 == SumOver(SecondDeviation(mean2), rectified, a, b, i)
  }

  /** The second pass: the co-moment and the two moments about the means. */
  method ComputeMoments(a: seq<real>, b: seq<real>, rectified: bool, mean1: real, mean2: real)
    returns (numerator: real, den1: real, den2: real)
    requires |a| <= |b|
    ensures MomentsUpTo(a, b, rectified, mean1, mean2, |a|, numerator, den1, den2)
  {
    numerator, den1, den2 := 0.0, 0.0, 0.0;
    if rectified {
      for i := 0 to |a|
        invariant MomentsUpTo(a, b, true, mean1, mean2, i, numerator, den1, den2)
      {
        if a[i] != 0.0 || b[i] != 0.0 {
          numerator, den1, den2 := AddDeviations(a, b, true, mean1, mean2, i, numerator, den1, den2);
        }
      }
    } else {
      for i := 0 to |a|
        invariant MomentsUpTo(a, b, false, mean1, mean2, i, numerator, den1, den2)
      {
        numerator, den1, den2 := AddDeviations(a, b, false, mean1, mean2, i, numerator, den1, den2);
      }
    }
  }

  /** The body of both loops of the second pass, at a kept position. */
  method AddDeviations(a: seq<real>, b: seq<real>, rectified: bool, mean1: real, mean2: real, i: nat,
                       numerator: real, den1: real, den2: real)
    returns (numerator': real, den1': real, den2': real)
    requires i < |a| && i < |b| && Kept(rectified, a[i], b[i])
    requires MomentsUpTo(a, b, rectified, mean1, mean2, i, numerator, den1, den2)
    ensures MomentsUpTo(a, b, rectified, mean1, mean2, i + 1, numerator', den1', den2')
  {
    var diff1 := a[i] - mean1;
    var diff2 := b[i] - mean2;
    MomentsStep(a, b, rectified, mean1, mean2, i, diff1, diff2);
    numerator' := numerator + diff1 * diff2;
    den1' := den1 + diff1 * diff1;
    den2' := den2 + diff2 * diff2;
  }

  /** One more position in the three sums of the second pass. */
  lemma MomentsStep(a: seq<real>, b: seq<real>, rectified: bool, mean1: real, mean2: real, i: nat, diff1: real, diff2: real)
    requires i < |a| && i < |b| && Kept(rectified, a[i], b[i])
    requires diff1 == a[i] - mean1 && diff2 == b[i] - mean2
    ensures SumOver(Cross(mean1, mean2), rectified, a, b, i + 1)
         == SumOver(Cross(mean1, mean2), rectified, a, b, i) + Product(diff1, diff2)
    ensures SumOver(FirstDeviation(mean1), rectified, a, b, i + 1)
         == SumOver(FirstDeviation(mean1), rectified, a, b, i) + Product(diff1, diff1)
    ensures SumOver(SecondDeviation(mean2), rectified, a, b, i + 1)
         == SumOver(SecondDeviation(mean2), rectified, a, b, i) + Product(diff2, diff2)
  {
  }

  lemma DistanceSymmetric(m: MathLib, a: seq<real>, b: seq<real>, rectified: bool)
    requires |a| == |b|
    ensures Distance(m, a, b, rectified) == Distance(m, b, a, rectified)
  {
    var mean1 := Mean(a, |a|, rectified);
    var mean2 := Mean(b, |a|, rectified);
    forall i | 0 <= i < |a|
      ensures Cross(mean1, mean2)(a[i], b[i]) == Cross(mean2, mean1)(b[i], a[i])
    {
      ProductSpec(a[i] - mean1, b[i] - mean2);
    }
    SumOverSwap(Cross(mean1, mean2), Cross(mean2, mean1), rectified, a, b, |a|);
    SumOverSwap(FirstDeviation(mean1), SecondDeviation(mean1), rectified, a, b, |a|);
    SumOverSwap(SecondDeviation(mean2), FirstDeviation(mean2), rectified, a, b, |a|);
    var d1 := SumOver(FirstDeviation(mean1), rectified, a, b, |a|);
    var d2 := SumOver(SecondDeviation(mean2), rectified, a, b, |a|);
    assert m.sqrt(d1) * m.sqrt(d2) == m.sqrt(d2) * m.sqrt(d1);
  }

  /** A vector compared with itself is at distance 0, unless it has no spread
      about its mean over the counted positions: then the result is 1. */
  lemma DistanceIdentical(m: MathLib, a: seq<real>, rectified: bool)
    requires Lawful(m)
    ensures Distance(m, a, a, rectified) ==
      var mean := Mean(a, |a|, rectified);
      if SumOver(FirstDeviation(mean), rectified, a, a, |a|) != 0.0 then 0.0 else 1.0
  {
    var mean := Mean(a, |a|, rectified);
    forall i | 0 <= i < |a|
      ensures FirstDeviation(mean)(a[i], a[i]) >= 0.0
    {
      ProductSpec(a[i] - mean, a[i] - mean);
    }
    SumOverZeroIff(FirstDeviation(mean), rectified, a, a, |a|);
    SumOverSwap(Cross(mean, mean), FirstDeviation(mean), rectified, a, a, |a|);
    SumOverSwap(SecondDeviation(mean), FirstDeviation(mean), rectified, a, a, |a|);
    var s := SumOver(FirstDeviation(mean), rectified, a, a, |a|);
    assert SumOver(Cross(mean, mean), rectified, a, a, |a|) == s;
    assert SumOver(SecondDeviation(mean), rectified, a, a, |a|) == s;
    ComplementOfEqualMoments(m, s);
  }

  lemma ComplementOfEqualMoments(m: MathLib, s: real)
    requires Lawful(m) && s >= 0.0
    ensures Complement(m, s, s, s) == if s != 0.0 then 0.0 else 1.0
  {
    if s == 0.0 {
      assert m.sqrt(s) * m.sqrt(s) == 0.0;
    } else {
      assert m.sqrt(s) * m.sqrt(s) == s;
      assert s / s == 1.0;
    }
  }
}
