/** CompList/Program.cs, the comparison of measurement groups: every
    measurement of one mixture label is compared with every measurement of
    another (or of the same) label, and the distances of each label pair are
    summarised by their mean and standard deviation. */
module CompList {
  import opened Numerics
  import DmsMeasurement
  import Algorithms
  import Extensions

  type Dms = DmsMeasurement.Dms

  /** PairOfMixtures(mix1, mix2). */
  datatype PairOfMixtures = PairOfMixtures(mix1: string, mix2: string)

  /** Id: `mix1/mix2`. */
  function Id(p: PairOfMixtures): string {
    p.mix1 + "/" + p.mix2
  }

  /** AreSame: both labels are equal. */
  predicate AreSame(p: PairOfMixtures) {
    p.mix1 == p.mix2
  }

  /** The Id of a pair whose labels hold no '/' splits back into its labels. */
  lemma IdSplits(p: PairOfMixtures)
    requires '/' !in p.mix1 && '/' !in p.mix2
    ensures DmsMeasurement.Split(Id(p), '/') == [p.mix1, p.mix2]
  {
    var parts := [p.mix1, p.mix2];
    assert parts[1..] == [p.mix2];
    assert DmsMeasurement.Join(parts, '/') == Id(p);
    DmsMeasurement.SplitJoin(parts, '/');
  }

  /** Such pairs have equal Ids exactly when they are equal. */
  lemma IdInjective(p: PairOfMixtures, q: PairOfMixtures)
    requires '/' !in p.mix1 && '/' !in p.mix2 && '/' !in q.mix1 && '/' !in q.mix2
    ensures Id(p) == Id(q) <==> p == q
  {
    IdSplits(p);
    IdSplits(q);
  }

  /** MixtureDatasets(MixType, DmsSet); the set is read in the order ToArray gives. */
  datatype MixtureDatasets = MixtureDatasets(mixType: string, dmsSet: seq<Dms>)

  /** ComparisonResult(Mixtures, Mean, Std, Distances); a NaN Std is None. */
  datatype ComparisonResult = ComparisonResult(mixtures: PairOfMixtures, mean: real, std: Option<real>,
                                               distances: seq<real>)

  /** TestResult(Options, Algorithm, Comparisons). */
  datatype TestResult = TestResult(options: Algorithms.Options, algorithm: Algorithms.Kind,
                                   comparisons: seq<ComparisonResult>)

  /** The distance one algorithm under one set of options gives two measurements. */
  type Measure = (Dms, Dms) -> real

  /** Some dataset carries the label. */
  predicate HasLabel(ds: seq<MixtureDatasets>, mixType: string) {
    exists i :: 0 <= i < |ds| && ds[i].mixType == mixType
  }

  /** The index of the first dataset from `from` on with the label. */
  function FirstWith(ds: seq<MixtureDatasets>, mixType: string, from: nat): (i: nat)
    requires from <= |ds| && exists k :: from <= k < |ds| && ds[k].mixType == mixType
    ensures from <= i < |ds| && ds[i].mixType == mixType
    ensures forall k :: from <= k < i ==> ds[k].mixType != mixType
    decreases |ds| - from
  {
    if ds[from].mixType == mixType then from else FirstWith(ds, mixType, from + 1)
  }

  /** `allMixDatasets.First(md => md.MixType == mixType).DmsSet`. */
  function Lookup(ds: seq<MixtureDatasets>, mixType: string): seq<Dms>
    requires HasLabel(ds, mixType)
  {
    ds[FirstWith(ds, mixType, 0)].dmsSet
  }

  /** The set that Lookup returns is that of the first dataset with the label. */
  lemma LookupIsFirst(ds: seq<MixtureDatasets>, mixType: string, i: nat)
    requires i < |ds| && ds[i].mixType == mixType
    requires forall k :: 0 <= k < i ==> ds[k].mixType != mixType
    ensures HasLabel(ds, mixType) && Lookup(ds, mixType) == ds[i].dmsSet
  {
    var j := FirstWith(ds, mixType, 0);
    assert !(j < i) && !(i < j);
  }

  /** Two measurements are compared unless they are the same object or their
      shapes differ. */
  predicate Comparable(d1: Dms, d2: Dms) {
    d1 != d2 && d1.width == d2.width && d1.height == d2.height
  }

  /** jStart: within one label only the measurements after the i-th. */
  function Start(same: bool, i: nat): nat {
    if same then i + 1 else 0
  }

  predicate InRange(pairs: seq<(nat, nat)>, a: nat, b: nat) {
    forall t :: 0 <= t < |pairs| ==> pairs[t].0 < a && pairs[t].1 < b
  }

  /** The index pairs (i, j), lo <= j < hi, of one row that are compared, in
      loop order. */
  function RowPairs(s1: seq<Dms>, s2: seq<Dms>, i: nat, lo: nat, hi: nat): (r: seq<(nat, nat)>)
    requires i < |s1| && hi <= |s2|
    ensures InRange(r, |s1|, |s2|)
    decreases hi
  {
    if hi <= lo then []
    else RowPairs(s1, s2, i, lo, hi - 1) + (if Comparable(s1[i], s2[hi - 1]) then [(i, hi - 1)] else [])
  }

  /** Every pair of a row is comparable and lies in the row's range. */
  lemma {:induction false} RowPairsSound(s1: seq<Dms>, s2: seq<Dms>, i: nat, lo: nat, hi: nat)
    requires i < |s1| && hi <= |s2|
    ensures forall t :: 0 <= t < |RowPairs(s1, s2, i, lo, hi)| ==>
              var (a, b) := RowPairs(s1, s2, i, lo, hi)[t];
              a == i && lo <= b < hi && Comparable(s1[a], s2[b])
    decreases hi
  {
    if hi > lo {
      RowPairsSound(s1, s2, i, lo, hi - 1);
    }
  }

  /** Every comparable pair in the row's range is in the row. */
  lemma {:induction false} RowPairsComplete(s1: seq<Dms>, s2: seq<Dms>, i: nat, lo: nat, hi: nat, j: nat)
    requires i < |s1| && hi <= |s2|
    requires lo <= j < hi && Comparable(s1[i], s2[j])
    ensures (i, j) in RowPairs(s1, s2, i, lo, hi)
    decreases hi
  {
    if j < hi - 1 {
      RowPairsComplete(s1, s2, i, lo, hi - 1, j);
    }
  }

  /** The index pairs compared in the first n rows, in loop order. */
  function ComparedPairs(s1: seq<Dms>, s2: seq<Dms>, same: bool, n: nat): (r: seq<(nat, nat)>)
    requires n <= |s1|
    ensures InRange(r, |s1|, |s2|)
  {
    if n == 0 then [] else ComparedPairs(s1, s2, same, n - 1) + RowPairs(s1, s2, n - 1, Start(same, n - 1), |s2|)
  }

  /** Every compared pair (a, b) is comparable, with a among the first n rows
      and b from jStart on: within one label b > a, so no measurement is
      compared with itself. */
  lemma {:induction false} ComparedPairsSound(s1: seq<Dms>, s2: seq<Dms>, same: bool, n: nat)
    requires n <= |s1|
    ensures forall t :: 0 <= t < |ComparedPairs(s1, s2, same, n)| ==>
              var (a, b) := ComparedPairs(s1, s2, same, n)[t];
              a < n && Start(same, a) <= b < |s2| && Comparable(s1[a], s2[b])
  {
    if n > 0 {
      ComparedPairsSound(s1, s2, same, n - 1);
      RowPairsSound(s1, s2, n - 1, Start(same, n - 1), |s2|);
      var p := ComparedPairs(s1, s2, same, n - 1);
      var q := RowPairs(s1, s2, n - 1, Start(same, n - 1), |s2|);
      forall t | 0 <= t < |p + q|
        ensures (p + q)[t] == if t < |p| then p[t] else q[t - |p|]
      {
      }
    }
  }

  /** Every comparable (a, b) with a among the first n rows and b from jStart
      on is compared. */
  lemma {:induction false} ComparedPairsComplete(s1: seq<Dms>, s2: seq<Dms>, same: bool, n: nat, a: nat, b: nat)
    requires n <= |s1|
    requires a < n && Start(same, a) <= b < |s2| && Comparable(s1[a], s2[b])
    ensures (a, b) in ComparedPairs(s1, s2, same, n)
  {
    var p := ComparedPairs(s1, s2, same, n - 1);
    var q := RowPairs(s1, s2, n - 1, Start(same, n - 1), |s2|);
    if a < n - 1 {
      ComparedPairsComplete(s1, s2, same, n - 1, a, b);
      assert (a, b) in p + q;
    } else {
      RowPairsComplete(s1, s2, a, Start(same, a), |s2|, b);
      assert (a, b) in p + q;
    }
  }

  /** The distances of the given index pairs, in their order. */
  function DistancesOf(f: Measure, s1: seq<Dms>, s2: seq<Dms>, pairs: seq<(nat, nat)>): (r: seq<real>)
    requires InRange(pairs, |s1|, |s2|)
    ensures |r| == |pairs|
  {
    seq(|pairs|, t requires 0 <= t < |pairs| => f(s1[pairs[t].0], s2[pairs[t].1]))
  }

  lemma DistancesAppend(f: Measure, s1: seq<Dms>, s2: seq<Dms>, p: seq<(nat, nat)>, q: seq<(nat, nat)>)
    requires InRange(p, |s1|, |s2|) && InRange(q, |s1|, |s2|)
    ensures InRange(p + q, |s1|, |s2|)
    ensures DistancesOf(f, s1, s2, p + q) == DistancesOf(f, s1, s2, p) + DistancesOf(f, s1, s2, q)
  {
  }

  /** The distances of a label pair: one per compared pair of measurements. */
  function GroupDistances(f: Measure, s1: seq<Dms>, s2: seq<Dms>, same: bool): seq<real> {
    DistancesOf(f, s1, s2, ComparedPairs(s1, s2, same, |s1|))
  }

  /** `distanceSum / (distanceCount > 0 ? distanceCount : 1)`. */
  function GroupMean(d: seq<real>): real {
    Extensions.ProcSum(d, None, |d|) / Floor1(|d|)
  }

  /** `Math.Sqrt(Σ (dist - mean)² / (Count - 1))`: NaN (None) for one distance. */
  function GroupStd(m: MathLib, d: seq<real>): Option<real> {
    if |d| == 1 then None
    else Some(m.sqrt(Extensions.SquaredDeviationSum(d, GroupMean(d), |d|) / (|d| as real - 1.0)))
  }

  /** The mean of a label pair is the plain mean of its distances: 0 for none,
      and otherwise between the least and the greatest distance. */
  lemma GroupMeanSpec(d: seq<real>)
    ensures GroupMean(d) == Extensions.MeanOf(d, None)
    ensures |d| == 0 ==> GroupMean(d) == 0.0
    ensures |d| > 0 ==> SeqMin(d) <= GroupMean(d) <= SeqMax(d)
  {
    if |d| > 0 {
      Extensions.MeanBounds(d);
    }
  }

  /** The standard deviation uses the n - 1 denominator: for two or more
      distances its square, times n - 1, is n times the population variance;
      a pair with no distances gets 0. */
  lemma GroupStdSpec(m: MathLib, d: seq<real>)
    requires Lawful(m)
    ensures |d| == 1 <==> GroupStd(m, d).None?
    ensures |d| == 0 ==> GroupStd(m, d) == Some(0.0)
    ensures |d| >= 2 ==> GroupStd(m, d).value >= 0.0
    ensures |d| >= 2 ==> GroupStd(m, d).value * GroupStd(m, d).value * (|d| as real - 1.0)
                         == Extensions.PopulationVariance(d) * |d| as real
  {
    if |d| >= 2 {
      var ss := Extensions.SquaredDeviationSum(d, GroupMean(d), |d|);
      GroupMeanIsMean(d);
      Extensions.SquaredDeviationSumNonNegative(d, GroupMean(d), |d|);
      SampleVariance(m, ss, |d| as real);
      PopulationVarianceTimes(d);
    } else if |d| == 0 {
      assert GroupStd(m, d) == Some(m.sqrt(0.0));
    }
  }

  lemma GroupMeanIsMean(d: seq<real>)
    ensures GroupMean(d) == Extensions.MeanOf(d, None)
  {
  }

  lemma PopulationVarianceTimes(d: seq<real>)
    requires |d| > 0
    ensures Extensions.PopulationVariance(d) * |d| as real
            == Extensions.SquaredDeviationSum(d, Extensions.MeanOf(d, None), |d|)
  {
  }

  lemma SampleVariance(m: MathLib, ss: real, n: real)
    requires Lawful(m) && ss >= 0.0 && n >= 2.0
    ensures m.sqrt(ss / (n - 1.0)) >= 0.0
    ensures m.sqrt(ss / (n - 1.0)) * m.sqrt(ss / (n - 1.0)) * (n - 1.0) == ss
  {
    var v := ss / (n - 1.0);
    assert v >= 0.0;
    assert m.sqrt(v) * m.sqrt(v) == v;
    assert v * (n - 1.0) == ss;
  }

  /** The ComparisonResult of labels[n] (mix1) against labels[m] (mix2). */
  function ComparisonOf(math: MathLib, f: Measure, ds: seq<MixtureDatasets>, m: nat, n: nat): ComparisonResult
    requires m < |ds| && n < |ds|
  {
    var mix1 := ds[n].mixType;
    var mix2 := ds[m].mixType;
    var d := GroupDistances(f, Lookup(ds, mix1), Lookup(ds, mix2), mix1 == mix2);
    ComparisonResult(PairOfMixtures(mix1, mix2), GroupMean(d), GroupStd(math, d), d)
  }

  /** The label pairs (m, n) of row m with m <= n < to. */
  function LabelRow(m: nat, to: nat): seq<(nat, nat)>
    requires m <= to
  {
    seq(to - m, t requires 0 <= t < to - m => (m, m + t))
  }

  /** The label pairs of the first `rows` rows of the m/n loops over k labels. */
  function LabelPairs(k: nat, rows: nat): (r: seq<(nat, nat)>)
    requires rows <= k
    ensures InRange(r, k, k)
  {
    if rows == 0 then [] else LabelPairs(k, rows - 1) + LabelRow(rows - 1, k)
  }

  /** The comparisons of the given label pairs, in their order. */
  function ComparisonsOf(math: MathLib, f: Measure, ds: seq<MixtureDatasets>, pairs: seq<(nat, nat)>)
    : (r: seq<ComparisonResult>)
    requires InRange(pairs, |ds|, |ds|)
    ensures |r| == |pairs|
  {
    seq(|pairs|, t requires 0 <= t < |pairs| => ComparisonOf(math, f, ds, pairs[t].0, pairs[t].1))
  }

  /** What Test returns. */
  function TestOf(math: MathLib, options: Algorithms.Options, algorithm: Algorithms.Kind, f: Measure,
                  ds: seq<MixtureDatasets>): TestResult
  {
    TestResult(options, algorithm, ComparisonsOf(math, f, ds, LabelPairs(|ds|, |ds|)))
  }

  /** Test. `f` stands for algorithm.ComputeDistance under the options. */
  method Test(math: MathLib, options: Algorithms.Options, algorithm: Algorithms.Kind, f: Measure,
              allMixDatasets: seq<MixtureDatasets>) returns (r: TestResult)
    ensures r == TestOf(math, options, algorithm, f, allMixDatasets)
  {
    var k := |allMixDatasets|;
    var results: seq<ComparisonResult> := [];
    for m := 0 to k
      invariant results == ComparisonsOf(math, f, allMixDatasets, LabelPairs(k, m))
    {
      for n := m to k
        invariant results == ComparisonsOf(math, f, allMixDatasets, LabelPairs(k, m) + LabelRow(m, n))
      {
        var c := Compare(math, f, allMixDatasets, m, n);
        LabelRowStep(k, m, n);
        ComparisonsAppend(math, f, allMixDatasets, LabelPairs(k, m) + LabelRow(m, n), (m, n));
        results := results + [c];
      }
    }
    r := TestResult(options, algorithm, results);
  }

  lemma LabelRowStep(k: nat, m: nat, n: nat)
    requires m <= n < k
    ensures InRange(LabelPairs(k, m) + LabelRow(m, n), k, k)
    ensures LabelPairs(k, m) + LabelRow(m, n + 1) == (LabelPairs(k, m) + LabelRow(m, n)) + [(m, n)]
  {
    assert LabelRow(m, n + 1) == LabelRow(m, n) + [(m, n)];
  }

  lemma ComparisonsAppend(math: MathLib, f: Measure, ds: seq<MixtureDatasets>, p: seq<(nat, nat)>, x: (nat, nat))
    requires InRange(p, |ds|, |ds|) && x.0 < |ds| && x.1 < |ds|
    ensures InRange(p + [x], |ds|, |ds|)
    ensures ComparisonsOf(math, f, ds, p + [x]) == ComparisonsOf(math, f, ds, p) + [ComparisonOf(math, f, ds, x.0, x.1)]
  {
  }

  /** The body of the m/n loops: labels[n] against labels[m]. */
  method Compare(math: MathLib, f: Measure, allMixDatasets: seq<MixtureDatasets>, m: nat, n: nat)
    returns (c: ComparisonResult)
    requires m < |allMixDatasets| && n < |allMixDatasets|
    ensures c == ComparisonOf(math, f, allMixDatasets, m, n)
  {
    var mixType1 := allMixDatasets[n].mixType;
    var mixType2 := allMixDatasets[m].mixType;
    var dmsSet1 := Lookup(allMixDatasets, mixType1);
    var dmsSet2 := Lookup(allMixDatasets, mixType2);
    var distanceSum, distanceCount, distances := CompareSets(f, dmsSet1, dmsSet2, mixType1 == mixType2);
    var mean := distanceSum / (if distanceCount > 0 then distanceCount as real else 1.0);
    var std := if |distances| == 1 then None
               else Some(math.sqrt(Extensions.SquaredDeviationSum(distances, mean, |distances|)
                                   / (|distances| as real - 1.0)));
    assert mean == GroupMean(distances);
    assert std == GroupStd(math, distances);
    c := ComparisonResult(PairOfMixtures(mixType1, mixType2), mean, std, distances);
  }

  /** The i/j loops of one label pair: the distances of the compared pairs,
      their number and their sum. */
  method CompareSets(f: Measure, dmsSet1: seq<Dms>, dmsSet2: seq<Dms>, same: bool)
    returns (distanceSum: real, distanceCount: nat, distances: seq<real>)
    ensures distances == GroupDistances(f, dmsSet1, dmsSet2, same)
    ensures distanceCount == |distances| && distanceSum == Extensions.ProcSum(distances, None, |distances|)
  {
    distanceSum, distanceCount, distances := 0.0, 0, [];
    for i := 0 to |dmsSet1|
      invariant distances == DistancesOf(f, dmsSet1, dmsSet2, ComparedPairs(dmsSet1, dmsSet2, same, i))
      invariant distanceCount == |distances|
      invariant distanceSum == Extensions.ProcSum(distances, None, |distances|)
    {
      distanceSum, distanceCount, distances := CompareRow(f, dmsSet1, dmsSet2, same, i, distanceSum,
                                                          distanceCount, distances);
      DistancesAppend(f, dmsSet1, dmsSet2, ComparedPairs(dmsSet1, dmsSet2, same, i),
                      RowPairs(dmsSet1, dmsSet2, i, Start(same, i), |dmsSet2|));
    }
  }

  /** One pass of the j loop: the comparable measurements of dmsSet2 from
      jStart on, against the i-th of dmsSet1. */
  method CompareRow(f: Measure, dmsSet1: seq<Dms>, dmsSet2: seq<Dms>, same: bool, i: nat,
                    sum: real, count: nat, distances: seq<real>)
    returns (sum': real, count': nat, distances': seq<real>)
    requires i < |dmsSet1|
    requires count == |distances| && sum == Extensions.ProcSum(distances, None, |distances|)
    ensures distances' == distances + DistancesOf(f, dmsSet1, dmsSet2, RowPairs(dmsSet1, dmsSet2, i, Start(same, i), |dmsSet2|))
    ensures count' == |distances'| && sum' == Extensions.ProcSum(distances', None, |distances'|)
  {
    sum', count', distances' := sum, count, distances;
    var jStart := Start(same, i);
    if jStart < |dmsSet2| {
      for j := jStart to |dmsSet2|
        invariant distances' == distances + DistancesOf(f, dmsSet1, dmsSet2, RowPairs(dmsSet1, dmsSet2, i, jStart, j))
        invariant count' == |distances'| && sum' == Extensions.ProcSum(distances', None, |distances'|)
      {
        RowDistancesStep(f, dmsSet1, dmsSet2, i, jStart, j, distances);
        sum', count', distances' := CompareCell(f, dmsSet1, dmsSet2, i, j, sum', count', distances');
      }
    } else {
      assert RowPairs(dmsSet1, dmsSet2, i, jStart, |dmsSet2|) == [];
      assert distances + [] == distances;
    }
  }

  /** The body of the j loop: measurements of another shape, or the same
      measurement twice, are skipped. */
  method CompareCell(f: Measure, dmsSet1: seq<Dms>, dmsSet2: seq<Dms>, i: nat, j: nat,
                     sum: real, count: nat, distances: seq<real>)
    returns (sum': real, count': nat, distances': seq<real>)
    requires i < |dmsSet1| && j < |dmsSet2|
    requires count == |distances| && sum == Extensions.ProcSum(distances, None, |distances|)
    ensures distances' == distances + (if Comparable(dmsSet1[i], dmsSet2[j]) then [f(dmsSet1[i], dmsSet2[j])] else [])
    ensures count' == |distances'| && sum' == Extensions.ProcSum(distances', None, |distances'|)
  {
    var dms1 := dmsSet1[i];
    var dms2 := dmsSet2[j];
    if dms1 == dms2 || dms1.width != dms2.width || dms1.height != dms2.height {
      return sum, count, distances;
    }
    count' := count + 1;
    var dist := f(dms1, dms2);
    sum' := sum + dist;
    ProcSumAppend(distances, dist, |distances|);
    distances' := distances + [dist];
  }

  /** One more j extends the row's distances by that pair's distance when it is compared. */
  lemma RowDistancesStep(f: Measure, s1: seq<Dms>, s2: seq<Dms>, i: nat, lo: nat, j: nat, distances: seq<real>)
    requires i < |s1| && lo <= j < |s2|
    ensures distances + DistancesOf(f, s1, s2, RowPairs(s1, s2, i, lo, j + 1))
            == (distances + DistancesOf(f, s1, s2, RowPairs(s1, s2, i, lo, j)))
               + (if Comparable(s1[i], s2[j]) then [f(s1[i], s2[j])] else [])
  {
    var done := RowPairs(s1, s2, i, lo, j);
    RowPairsStep(s1, s2, i, lo, j);
    if Comparable(s1[i], s2[j]) {
      DistancesStep(f, s1, s2, done, i, j);
    } else {
      assert done + [] == done;
    }
  }

  lemma DistancesStep(f: Measure, s1: seq<Dms>, s2: seq<Dms>, p: seq<(nat, nat)>, i: nat, j: nat)
    requires InRange(p, |s1|, |s2|) && i < |s1| && j < |s2|
    ensures InRange(p + [(i, j)], |s1|, |s2|)
    ensures DistancesOf(f, s1, s2, p + [(i, j)]) == DistancesOf(f, s1, s2, p) + [f(s1[i], s2[j])]
  {
  }

  lemma RowPairsStep(s1: seq<Dms>, s2: seq<Dms>, i: nat, lo: nat, j: nat)
    requires i < |s1| && lo <= j < |s2|
    ensures RowPairs(s1, s2, i, lo, j + 1)
            == RowPairs(s1, s2, i, lo, j) + (if Comparable(s1[i], s2[j]) then [(i, j)] else [])
  {
  }

  /** Appending a value leaves the sums of the earlier prefixes alone. */
  lemma {:induction false} ProcSumAppend(s: seq<real>, x: real, n: nat)
    requires n <= |s|
    ensures Extensions.ProcSum(s + [x], None, n) == Extensions.ProcSum(s, None, n)
  {
    if n > 0 {
      ProcSumAppend(s, x, n - 1);
      assert (s + [x])[n - 1] == s[n - 1];
    }
  }

  /** A row has at most one pair per index in its range, and exactly one
      when every measurement there is comparable. */
  lemma {:induction false} RowPairsCount(s1: seq<Dms>, s2: seq<Dms>, i: nat, lo: nat, hi: nat)
    requires i < |s1| && lo <= hi <= |s2|
    ensures |RowPairs(s1, s2, i, lo, hi)| <= hi - lo
    ensures (forall j :: lo <= j < hi ==> Comparable(s1[i], s2[j])) ==> |RowPairs(s1, s2, i, lo, hi)| == hi - lo
    decreases hi
  {
    if hi > lo {
      RowPairsCount(s1, s2, i, lo, hi - 1);
    }
  }

  /** Across two labels at most the full cross product is compared, and all
      of it when all shapes agree and no measurement is shared. */
  lemma {:induction false} CrossPairsCount(s1: seq<Dms>, s2: seq<Dms>, n: nat)
    requires n <= |s1|
    ensures |ComparedPairs(s1, s2, false, n)| <= n * |s2|
    ensures (forall a, b :: 0 <= a < n && 0 <= b < |s2| ==> Comparable(s1[a], s2[b]))
            ==> |ComparedPairs(s1, s2, false, n)| == n * |s2|
  {
    if n > 0 {
      CrossPairsCount(s1, s2, n - 1);
      RowPairsCount(s1, s2, n - 1, 0, |s2|);
      assert n * |s2| == (n - 1) * |s2| + |s2|;
    }
  }

  /** Within one label of s measurements the first n rows compare at most
      n(2s - n - 1)/2 pairs, exactly that many when all shapes agree and the
      measurements are distinct. */
  lemma {:induction false} SamePairsCount(s: seq<Dms>, n: nat)
    requires n <= |s|
    ensures 2 * |ComparedPairs(s, s, true, n)| <= n * (2 * |s| - n - 1)
    ensures (forall a, b :: 0 <= a < b < |s| ==> Comparable(s[a], s[b]))
            ==> 2 * |ComparedPairs(s, s, true, n)| == n * (2 * |s| - n - 1)
  {
    if n > 0 {
      SamePairsCount(s, n - 1);
      RowPairsCount(s, s, n - 1, n, |s|);
      var prev, row := |ComparedPairs(s, s, true, n - 1)|, |RowPairs(s, s, n - 1, n, |s|)|;
      assert |ComparedPairs(s, s, true, n)| == prev + row;
      SameRowsStep(prev, row, n, |s|);
      if forall a, b :: 0 <= a < b < |s| ==> Comparable(s[a], s[b]) {
        assert forall j :: n <= j < |s| ==> Comparable(s[n - 1], s[j]);
      }
    } else {
      assert n * (2 * |s| - n - 1) == 0;
    }
  }

  /** One label of s measurements: at most s(s - 1)/2 distances. */
  lemma SameGroupCount(f: Measure, s: seq<Dms>)
    ensures 2 * |GroupDistances(f, s, s, true)| <= |s| * (|s| - 1)
    ensures (forall a, b :: 0 <= a < b < |s| ==> Comparable(s[a], s[b]))
            ==> 2 * |GroupDistances(f, s, s, true)| == |s| * (|s| - 1)
  {
    SamePairsCount(s, |s|);
    assert |s| * (2 * |s| - |s| - 1) == |s| * (|s| - 1);
  }

  /** Two labels: at most |s1| |s2| distances. */
  lemma CrossGroupCount(f: Measure, s1: seq<Dms>, s2: seq<Dms>)
    ensures |GroupDistances(f, s1, s2, false)| <= |s1| * |s2|
    ensures (forall a, b :: 0 <= a < |s1| && 0 <= b < |s2| ==> Comparable(s1[a], s2[b]))
            ==> |GroupDistances(f, s1, s2, false)| == |s1| * |s2|
  {
    CrossPairsCount(s1, s2, |s1|);
  }

  /** The first `rows` rows over k labels hold rows(2k - rows + 1)/2 label pairs. */
  lemma {:induction false} LabelPairsCount(k: nat, rows: nat)
    requires rows <= k
    ensures 2 * |LabelPairs(k, rows)| == rows * (2 * k - rows + 1)
  {
    if rows > 0 {
      LabelPairsCount(k, rows - 1);
      TriangleStep(rows, 2 * k + 1);
    }
  }

  /** Every label pair (m, n) has m < rows and m <= n < k. */
  lemma {:induction false} LabelPairsSound(k: nat, rows: nat)
    requires rows <= k
    ensures forall t :: 0 <= t < |LabelPairs(k, rows)| ==>
              LabelPairs(k, rows)[t].0 < rows && LabelPairs(k, rows)[t].0 <= LabelPairs(k, rows)[t].1 < k
  {
    if rows > 0 {
      LabelPairsSound(k, rows - 1);
      var p := LabelPairs(k, rows - 1);
      var q := LabelRow(rows - 1, k);
      forall t | 0 <= t < |p + q|
        ensures (p + q)[t] == if t < |p| then p[t] else q[t - |p|]
      {
      }
    }
  }

  /** Every (m, n) with m < rows and m <= n < k is a label pair. */
  lemma {:induction false} LabelPairsComplete(k: nat, rows: nat, m: nat, n: nat)
    requires rows <= k && m < rows && m <= n < k
    ensures (m, n) in LabelPairs(k, rows)
  {
    var p := LabelPairs(k, rows - 1);
    var q := LabelRow(rows - 1, k);
    if m < rows - 1 {
      LabelPairsComplete(k, rows - 1, m, n);
    } else {
      assert q[n - m] == (m, n);
    }
    assert (m, n) in p + q;
  }

  /** Adding row n - 1, with at most m - n pairs, to the first n - 1 rows of an
      m-measurement label keeps the count within n(2m - n - 1)/2. */
  lemma SameRowsStep(prev: int, row: int, n: int, m: int)
    ensures 2 * prev <= (n - 1) * (2 * m - (n - 1) - 1) && row <= m - n
            ==> 2 * (prev + row) <= n * (2 * m - n - 1)
    ensures 2 * prev == (n - 1) * (2 * m - (n - 1) - 1) && row == m - n
            ==> 2 * (prev + row) == n * (2 * m - n - 1)
  {
    assert n * (2 * m - n - 1) == (n - 1) * (2 * m - (n - 1) - 1) + 2 * (m - n);
  }

  /** n(c - n) grows by c - 2n + 1 from n - 1 to n. */
  lemma TriangleStep(n: int, c: int)
    ensures n * (c - n) == (n - 1) * (c - n + 1) + (c - 2 * n + 1)
  {
  }

  /** Datasets are grouped by label: no label occurs twice. */
  predicate DistinctLabels(ds: seq<MixtureDatasets>) {
    forall i, j :: 0 <= i < j < |ds| ==> ds[i].mixType != ds[j].mixType
  }

  /** Test over k labels gives k(k + 1)/2 comparisons: the comparison of
      labels[n] against labels[m] for every m <= n, and nothing else; with
      distinct labels the pair is of the same mixture exactly when m == n. */
  lemma TestSpec(math: MathLib, options: Algorithms.Options, algorithm: Algorithms.Kind, f: Measure,
                 ds: seq<MixtureDatasets>)
    ensures 2 * |TestOf(math, options, algorithm, f, ds).comparisons| == |ds| * (|ds| + 1)
    ensures forall m, n :: 0 <= m <= n < |ds| ==>
              ComparisonOf(math, f, ds, m, n) in TestOf(math, options, algorithm, f, ds).comparisons
    ensures forall t :: 0 <= t < |TestOf(math, options, algorithm, f, ds).comparisons| ==>
              exists m, n :: 0 <= m <= n < |ds| &&
                TestOf(math, options, algorithm, f, ds).comparisons[t] == ComparisonOf(math, f, ds, m, n)
    ensures DistinctLabels(ds) ==> forall m, n :: 0 <= m <= n < |ds| ==>
              (AreSame(ComparisonOf(math, f, ds, m, n).mixtures) <==> m == n)
  {
    var k := |ds|;
    var pairs := LabelPairs(k, k);
    var cs := TestOf(math, options, algorithm, f, ds).comparisons;
    LabelPairsCount(k, k);
    assert k * (2 * k - k + 1) == k * (k + 1);
    LabelPairsSound(k, k);
    forall m, n | 0 <= m <= n < k
      ensures ComparisonOf(math, f, ds, m, n) in cs
    {
      LabelPairsComplete(k, k, m, n);
      var t :| 0 <= t < |pairs| && pairs[t] == (m, n);
      assert cs[t] == ComparisonOf(math, f, ds, m, n);
    }
    forall t | 0 <= t < |cs|
      ensures exists m, n :: 0 <= m <= n < k && cs[t] == ComparisonOf(math, f, ds, m, n)
    {
      assert cs[t] == ComparisonOf(math, f, ds, pairs[t].0, pairs[t].1);
    }
  }
}
