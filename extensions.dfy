/** Common/Extensions.cs: median, mean and population standard deviation of
    float data. */
module Extensions {
  import opened Numerics
  import opened Sorting

  /** Median: 0 for empty data; otherwise the middle element of a sorted copy, or
      the mean of the two middle elements when the length is even. The argument is
      a value, so the caller's data cannot change. */
  function Median(data: seq<real>): real {
    if |data| == 0 then 0.0
    else
      var sorted := SortReals(data);
      var mid := |data| / 2;
      if |data| % 2 != 0 then sorted[mid] else (sorted[mid] + sorted[mid - 1]) / 2.0
  }

  /** The median of no data is 0; otherwise it lies between the least and the
      greatest element. */
  lemma MedianInRange(data: seq<real>)
    ensures |data| == 0 ==> Median(data) == 0.0
    ensures |data| > 0 ==> SeqMin(data) <= Median(data) <= SeqMax(data)
  {
    if |data| > 0 {
      var sorted := SortReals(data);
      var mid := |data| / 2;
      SortRealsSpec(data);
      MiddleInRange(data, sorted, mid);
      if |data| % 2 == 0 {
        MiddleInRange(data, sorted, mid - 1);
      }
    }
  }

  lemma MiddleInRange(data: seq<real>, sorted: seq<real>, k: nat)
    requires |data| > 0 && multiset(sorted) == multiset(data) && k < |sorted|
    ensures SeqMin(data) <= sorted[k] <= SeqMax(data)
  {
    assert sorted[k] in multiset(data);
  }

  /** The median of a constant series is that constant. */
  lemma MedianOfConstant(s: seq<real>, c: real)
    requires |s| > 0 && forall k :: 0 <= k < |s| ==> s[k] == c
    ensures Median(s) == c
  {
    MedianInRange(s);
    var lo :| 0 <= lo < |s| && s[lo] == SeqMin(s);
    var hi :| 0 <= hi < |s| && s[hi] == SeqMax(s);
  }

  /** The median depends only on the elements, not on their order. */
  lemma MedianPermutationInvariant(s: seq<real>, t: seq<real>)
    requires multiset(s) == multiset(t)
    ensures Median(s) == Median(t)
  {
    assert |s| == |multiset(s)| == |multiset(t)| == |t|;
    if |s| > 0 {
      assert SortReals(s) == SortReals(t) by {
        SortRealsSpec(t);
        SortRealsUnique(s, SortReals(t));
      }
    }
  }

  /** On data that is already ascending the median is read off directly. */
  lemma MedianOfSorted(s: seq<real>)
    requires forall i, j :: 0 <= i < j < |s| ==> s[i] <= s[j]
    ensures |s| % 2 == 1 ==> Median(s) == s[|s| / 2]
    ensures |s| % 2 == 0 && |s| > 0 ==> Median(s) == (s[|s| / 2] + s[|s| / 2 - 1]) / 2.0
  {
    SortRealsUnique(s, s);
  }

  /** `proc == null ? v : proc(v)`. */
  function Apply(proc: Option<real -> real>, v: real): real {
    match proc
    case None => v
    case Some(f) => f(v)
  }

  /** Sum of proc(values[i]) over the first n values. */
  function ProcSum(values: seq<real>, proc: Option<real -> real>, n: nat): real
    requires n <= |values|
  {
    if n == 0 then 0.0 else ProcSum(values, proc, n - 1) + Apply(proc, values[n - 1])
  }

  /** Mean(values, proc): 0 for an empty span, else the sum of proc(v) over the length. */
  function MeanOf(values: seq<real>, proc: Option<real -> real>): real {
    if |values| == 0 then 0.0 else ProcSum(values, proc, |values|) / |values| as real
  }

  method Mean(values: seq<real>, proc: Option<real -> real>) returns (r: real)
    ensures r == MeanOf(values, proc)
  {
    if |values| == 0 {
      return 0.0;
    }
    var sum := 0.0;
    for i := 0 to |values|
      invariant sum == ProcSum(values, proc, i)
    {
      sum := sum + Apply(proc, values[i]);
    }
    r := sum / |values| as real;
  }

  /** The squared deviation from `avg`, the lambda the source passes to Mean. */
  function SquaredDeviation(v: real, avg: real): real {
    (v - avg) * (v - avg)
  }

  /** Sum of squared deviations of the first n values from avg. */
  function SquaredDeviationSum(values: seq<real>, avg: real, n: nat): real
    requires n <= |values|
  {
    if n == 0 then 0.0 else SquaredDeviationSum(values, avg, n - 1) + SquaredDeviation(values[n - 1], avg)
  }

  /** The population variance: mean squared deviation from the mean, divided by n (no n - 1). */
  function PopulationVariance(values: seq<real>): (r: real)
    ensures r >= 0.0
  {
    if |values| == 0 then 0.0
    else
      var avg := MeanOf(values, None);
      SquaredDeviationSumNonNegative(values, avg, |values|);
      SquaredDeviationSum(values, avg, |values|) / |values| as real
  }

  lemma {:induction false} SquaredDeviationSumNonNegative(values: seq<real>, avg: real, n: nat)
    requires n <= |values|
    ensures SquaredDeviationSum(values, avg, n) >= 0.0
  {
    if n > 0 {
      SquaredDeviationSumNonNegative(values, avg, n - 1);
      Square(values[n - 1] - avg);
    }
  }

  lemma {:induction false} ProcSumIsSquaredDeviationSum(values: seq<real>, avg: real, f: real -> real, n: nat)
    requires n <= |values|
    requires forall v :: f(v) == SquaredDeviation(v, avg)
    ensures ProcSum(values, Some(f), n) == SquaredDeviationSum(values, avg, n)
  {
    if n > 0 {
      ProcSumIsSquaredDeviationSum(values, avg, f, n - 1);
    }
  }

  /** StandardDeviation: the square root of the population variance. */
  method StandardDeviation(m: MathLib, values: seq<real>) returns (r: real)
    ensures r == m.sqrt(PopulationVariance(values))
  {
    var avg := Mean(values, None);
    var f := (v: real) => SquaredDeviation(v, avg);
    var msd := Mean(values, Some(f));
    if |values| > 0 {
      ProcSumIsSquaredDeviationSum(values, avg, f, |values|);
    }
    r := m.sqrt(msd);
  }

  /** MeanAndStandardDeviation: exactly the pair (Mean, StandardDeviation) of the same values. */
  method MeanAndStandardDeviation(m: MathLib, values: seq<real>) returns (mean: real, std: real)
    ensures mean == MeanOf(values, None)
    ensures std == m.sqrt(PopulationVariance(values))
  {
    mean := Mean(values, None);
    var f := (v: real) => SquaredDeviation(v, mean);
    var msd := Mean(values, Some(f));
    if |values| > 0 {
      ProcSumIsSquaredDeviationSum(values, mean, f, |values|);
    }
    std := m.sqrt(msd);
  }

  /** The plain mean lies between the least and the greatest value. */
  lemma MeanBounds(values: seq<real>)
    requires |values| > 0
    ensures SeqMin(values) <= MeanOf(values, None) <= SeqMax(values)
  {
    AverageBounds(values, SeqMin(values), SeqMax(values));
  }

  /** The average of values lying in [lo, hi] lies in [lo, hi]. */
  lemma AverageBounds(values: seq<real>, lo: real, hi: real)
    requires |values| > 0
    requires forall i :: 0 <= i < |values| ==> lo <= values[i] <= hi
    ensures lo <= ProcSum(values, None, |values|) / (|values| as real) <= hi
  {
    ProcSumBounds(values, lo, hi, |values|);
    QuotientBounds(ProcSum(values, None, |values|), |values| as real, lo, hi);
  }

  lemma QuotientBounds(s: real, n: real, lo: real, hi: real)
    requires n > 0.0 && n * lo <= s <= n * hi
    ensures lo <= s / n <= hi
  {
    assert s / n - lo == (s - n * lo) / n;
    assert hi - s / n == (n * hi - s) / n;
  }

  lemma {:induction false} ProcSumBounds(values: seq<real>, lo: real, hi: real, n: nat)
    requires n <= |values|
    requires forall i :: 0 <= i < |values| ==> lo <= values[i] <= hi
    ensures n as real * lo <= ProcSum(values, None, n) <= n as real * hi
  {
    if n > 0 {
      ProcSumBounds(values, lo, hi, n - 1);
    }
  }

  /** Constant data has variance 0, so its standard deviation is the root of 0. */
  lemma ConstantVariance(values: seq<real>, c: real)
    requires forall i :: 0 <= i < |values| ==> values[i] == c
    ensures PopulationVariance(values) == 0.0
  {
    if |values| > 0 {
      ConstantProcSum(values, c, |values|);
      assert MeanOf(values, None) == c;
      ConstantDeviationSum(values, c, |values|);
    }
  }

  lemma {:induction false} ConstantProcSum(values: seq<real>, c: real, n: nat)
    requires n <= |values|
    requires forall i :: 0 <= i < |values| ==> values[i] == c
    ensures ProcSum(values, None, n) == n as real * c
  {
    if n > 0 {
      ConstantProcSum(values, c, n - 1);
    }
  }

  lemma {:induction false} ConstantDeviationSum(values: seq<real>, c: real, n: nat)
    requires n <= |values|
    requires forall i :: 0 <= i < |values| ==> values[i] == c
    ensures SquaredDeviationSum(values, c, n) == 0.0
  {
    if n > 0 {
      ConstantDeviationSum(values, c, n - 1);
    }
  }
}
