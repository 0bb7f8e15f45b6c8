/** CompList/Program.cs, the batch: every algorithm is tested under every
    option set, and the results are sorted by algorithm name, then by crop,
    normalisation and rectification. */
module Runner {
  import Algorithms
  import Normalization
  import Sorting
  import CompList
  import Grid
  import opened Numerics

  /** `new bool[] { false, true }`. */
  const Booleans: seq<bool> := [false, true]

  /** Enum.GetValues<Normalization.Type>(), in declaration order. */
  const NormalizationTypes: seq<Normalization.Type> :=
    [Normalization.Type.None, Normalization.Type.Linear, Normalization.Type.MinMax]

  /** The ordinal of a normalisation type, its place in the declaration. */
  function Ordinal(t: Normalization.Type): (i: nat)
    ensures i < |NormalizationTypes| && NormalizationTypes[i] == t
  {
    match t
    case None => 0
    case Linear => 1
    case MinMax => 2
  }

  /** The i-th option set PermutateOptions adds: crop changes slowest, then
      the normalisation, then rectification. */
  function OptionAt(i: nat): Algorithms.Options
    requires i < 12
  {
    Algorithms.Options(Booleans[i % 2], NormalizationTypes[(i / 2) % 3], Booleans[i / 6])
  }

  /** The twelve option sets in the order PermutateOptions adds them. */
  function AllOptions(): (r: seq<Algorithms.Options>)
    ensures |r| == 12
  {
    seq(12, i requires 0 <= i < 12 => OptionAt(i))
  }

  /** Where an option set stands in that order. */
  function IndexOf(o: Algorithms.Options): nat {
    (if o.crop then 6 else 0) + 2 * Ordinal(o.normalizationType) + (if o.useRectification then 1 else 0)
  }

  /** OptionAt and IndexOf are inverse: every option set occurs exactly once. */
  lemma OptionIndexInverse(o: Algorithms.Options, i: nat)
    requires i < 12
    ensures IndexOf(o) < 12 && OptionAt(IndexOf(o)) == o
    ensures IndexOf(OptionAt(i)) == i
  {
  }

  /** 2 x 3 x 2 distinct option sets, and every option set among them. */
  lemma AllOptionsSpec()
    ensures |AllOptions()| == |Booleans| * |NormalizationTypes| * |Booleans|
    ensures forall i, j :: 0 <= i < j < 12 ==> AllOptions()[i] != AllOptions()[j]
    ensures forall o: Algorithms.Options :: o in AllOptions()
  {
    forall i, j | 0 <= i < j < 12
      ensures AllOptions()[i] != AllOptions()[j]
    {
      OptionIndexInverse(OptionAt(i), i);
      OptionIndexInverse(OptionAt(j), j);
    }
    forall o: Algorithms.Options
      ensures o in AllOptions()
    {
      OptionIndexInverse(o, 0);
      assert AllOptions()[IndexOf(o)] == o;
    }
  }

  /** The option set the three loops add at crop c, normalisation n and
      rectification r stands at 6c + 2n + r. */
  lemma OptionAtLoops(c: nat, n: nat, r: nat)
    requires c < 2 && n < 3 && r < 2
    ensures OptionAt(6 * c + 2 * n + r) == Algorithms.Options(Booleans[r], NormalizationTypes[n], Booleans[c])
  {
    var i := 6 * c + 2 * n + r;
    assert i % 2 == r && i / 2 == 3 * c + n && i / 6 == c;
    assert (i / 2) % 3 == n;
  }

  /** PermutateOptions. */
  method PermutateOptions() returns (result: seq<Algorithms.Options>)
    ensures result == AllOptions()
  {
    var booleans := [false, true];
    result := [];
    for c := 0 to 2
      invariant |result| == 6 * c
      invariant forall t :: 0 <= t < |result| ==> result[t] == OptionAt(t)
    {
      for n := 0 to 3
        invariant |result| == 6 * c + 2 * n
        invariant forall t :: 0 <= t < |result| ==> result[t] == OptionAt(t)
      {
        for r := 0 to 2
          invariant |result| == 6 * c + 2 * n + r
          invariant forall t :: 0 <= t < |result| ==> result[t] == OptionAt(t)
        {
          OptionAtLoops(c, n, r);
          result := result + [Algorithms.Options(booleans[r], NormalizationTypes[n], booleans[c])];
        }
      }
    }
  }

  /** The measure the runner gives each algorithm under each option set. */
  type Measures = (Algorithms.Options, Algorithms.Kind) -> CompList.Measure

  /** The tests of one option set, once per algorithm, in order. */
  function TestsFor(math: MathLib, dist: Measures, options: Algorithms.Options, algorithms: seq<Algorithms.Kind>,
                    ds: seq<CompList.MixtureDatasets>): (r: seq<CompList.TestResult>)
    ensures |r| == |algorithms|
  {
    seq(|algorithms|, a requires 0 <= a < |algorithms| =>
      CompList.TestOf(math, options, algorithms[a], dist(options, algorithms[a]), ds))
  }

  /** The tests of the first n option sets, in the order the loops add them. */
  function AllTests(math: MathLib, dist: Measures, optionsSet: seq<Algorithms.Options>,
                    algorithms: seq<Algorithms.Kind>, ds: seq<CompList.MixtureDatasets>, n: nat)
    : (r: seq<CompList.TestResult>)
    requires n <= |optionsSet|
  {
    if n == 0 then []
    else AllTests(math, dist, optionsSet, algorithms, ds, n - 1) + TestsFor(math, dist, optionsSet[n - 1], algorithms, ds)
  }

  /** One test per option set and algorithm. */
  lemma {:induction false} AllTestsLength(math: MathLib, dist: Measures, optionsSet: seq<Algorithms.Options>,
                                          algorithms: seq<Algorithms.Kind>, ds: seq<CompList.MixtureDatasets>, n: nat)
    requires n <= |optionsSet|
    ensures |AllTests(math, dist, optionsSet, algorithms, ds, n)| == n * |algorithms|
  {
    if n > 0 {
      AllTestsLength(math, dist, optionsSet, algorithms, ds, n - 1);
      assert n * |algorithms| == (n - 1) * |algorithms| + |algorithms|;
    }
  }

  /** Test o |algorithms| + a is that of option set o and algorithm a. */
  lemma {:induction false} AllTestsAt(math: MathLib, dist: Measures, optionsSet: seq<Algorithms.Options>,
                                      algorithms: seq<Algorithms.Kind>, ds: seq<CompList.MixtureDatasets>,
                                      n: nat, o: nat, a: nat)
    requires o < n <= |optionsSet| && a < |algorithms|
    ensures o * |algorithms| + a < |AllTests(math, dist, optionsSet, algorithms, ds, n)|
    ensures AllTests(math, dist, optionsSet, algorithms, ds, n)[o * |algorithms| + a]
            == CompList.TestOf(math, optionsSet[o], algorithms[a], dist(optionsSet[o], algorithms[a]), ds)
  {
    var w := |algorithms|;
    var p := AllTests(math, dist, optionsSet, algorithms, ds, n - 1);
    var q := TestsFor(math, dist, optionsSet[n - 1], algorithms, ds);
    AllTestsLength(math, dist, optionsSet, algorithms, ds, n - 1);
    Grid.RowFits(o, n, w);
    if o < n - 1 {
      AllTestsAt(math, dist, optionsSet, algorithms, ds, n - 1, o, a);
      assert (p + q)[o * w + a] == p[o * w + a];
    } else {
      assert (p + q)[o * w + a] == q[a];
    }
  }

  /** a.CompareTo(b) for integers and for the ordinals of bools and enums. */
  function CompareInts(a: int, b: int): int {
    if a < b then -1 else if a > b then 1 else 0
  }

  /** `false < true`, as bool.CompareTo orders them. */
  function BoolOrdinal(b: bool): int {
    if b then 1 else 0
  }

  /** Ordinal comparison of strings, character by character, a proper prefix first. */
  function CompareStrings(a: string, b: string): (c: int)
    ensures -1 <= c <= 1
  {
    if a == [] && b == [] then 0
    else if a == [] then -1
    else if b == [] then 1
    else if a[0] < b[0] then -1
    else if a[0] > b[0] then 1
    else CompareStrings(a[1..], b[1..])
  }

  /** Comparing the other way round flips the sign, and only equal strings compare equal. */
  lemma {:induction false} CompareStringsFlip(a: string, b: string)
    ensures CompareStrings(b, a) == -CompareStrings(a, b)
    ensures CompareStrings(a, b) == 0 <==> a == b
  {
    if a != [] && b != [] && a[0] == b[0] {
      CompareStringsFlip(a[1..], b[1..]);
      assert a == [a[0]] + a[1..] && b == [b[0]] + b[1..];
    }
  }

  /** The ordinal order of strings is transitive. */
  lemma {:induction false} CompareStringsTransitive(a: string, b: string, c: string)
    requires CompareStrings(a, b) <= 0 && CompareStrings(b, c) <= 0
    ensures CompareStrings(a, c) <= 0
  {
    if a != [] && b != [] && c != [] && a[0] == b[0] && b[0] == c[0] {
      CompareStringsTransitive(a[1..], b[1..], c[1..]);
    }
  }

  /** The comparison Run sorts with: the first non-zero of the algorithm
      names, the crop flags, the normalisation ordinals and the
      rectification flags. */
  function CompareResults(a: CompList.TestResult, b: CompList.TestResult): int {
    var byName := CompareStrings(Algorithms.Name(a.algorithm), Algorithms.Name(b.algorithm));
    if byName != 0 then byName
    else
      var byCrop := CompareInts(BoolOrdinal(a.options.crop), BoolOrdinal(b.options.crop));
      if byCrop != 0 then byCrop
      else
        var byNorm := CompareInts(Ordinal(a.options.normalizationType), Ordinal(b.options.normalizationType));
        if byNorm != 0 then byNorm
        else CompareInts(BoolOrdinal(a.options.useRectification), BoolOrdinal(b.options.useRectification))
  }

  predicate ResultLeq(a: CompList.TestResult, b: CompList.TestResult) {
    CompareResults(a, b) <= 0
  }

  /** Comparing the other way round flips the sign. */
  lemma CompareResultsFlip(a: CompList.TestResult, b: CompList.TestResult)
    ensures CompareResults(b, a) == -CompareResults(a, b)
    ensures CompareResults(a, b) == 0 ==>
              Algorithms.Name(a.algorithm) == Algorithms.Name(b.algorithm) && a.options == b.options
  {
    CompareStringsFlip(Algorithms.Name(a.algorithm), Algorithms.Name(b.algorithm));
  }

  lemma CompareResultsTransitive(a: CompList.TestResult, b: CompList.TestResult, c: CompList.TestResult)
    requires ResultLeq(a, b) && ResultLeq(b, c)
    ensures ResultLeq(a, c)
  {
    var na, nb, nc := Algorithms.Name(a.algorithm), Algorithms.Name(b.algorithm), Algorithms.Name(c.algorithm);
    CompareStringsFlip(na, nb);
    CompareStringsFlip(nb, nc);
    CompareStringsFlip(na, nc);
    CompareStringsTransitive(na, nb, nc);
    if CompareStrings(na, nc) == 0 {
      assert na == nc;
      assert CompareStrings(na, nb) == 0;
    }
  }

  /** ResultLeq is a total preorder, so the sort is well defined. */
  lemma ResultLeqIsTotalPreorder()
    ensures Sorting.Total(ResultLeq) && Sorting.Transitive(ResultLeq)
  {
    forall a: CompList.TestResult, b: CompList.TestResult
      ensures ResultLeq(a, b) || ResultLeq(b, a)
    {
      CompareResultsFlip(a, b);
    }
    forall a: CompList.TestResult, b: CompList.TestResult, c: CompList.TestResult
      | ResultLeq(a, b) && ResultLeq(b, c)
      ensures ResultLeq(a, c)
    {
      CompareResultsTransitive(a, b, c);
    }
  }

  /** What Run returns: all tests, sorted. */
  function RunOf(math: MathLib, dist: Measures, optionsSet: seq<Algorithms.Options>,
                 algorithms: seq<Algorithms.Kind>, ds: seq<CompList.MixtureDatasets>): seq<CompList.TestResult>
  {
    Sorting.Sort(AllTests(math, dist, optionsSet, algorithms, ds, |optionsSet|), ResultLeq)
  }

  /** Run returns a permutation of the |optionsSet| |algorithms| tests, in
      ascending order of (name, crop, normalisation, rectification). */
  lemma RunSpec(math: MathLib, dist: Measures, optionsSet: seq<Algorithms.Options>,
                algorithms: seq<Algorithms.Kind>, ds: seq<CompList.MixtureDatasets>)
    ensures multiset(RunOf(math, dist, optionsSet, algorithms, ds))
            == multiset(AllTests(math, dist, optionsSet, algorithms, ds, |optionsSet|))
    ensures |RunOf(math, dist, optionsSet, algorithms, ds)| == |optionsSet| * |algorithms|
    ensures Sorting.SortedBy(RunOf(math, dist, optionsSet, algorithms, ds), ResultLeq)
  {
    AllTestsLength(math, dist, optionsSet, algorithms, ds, |optionsSet|);
    ResultLeqIsTotalPreorder();
    Sorting.SortSorted(AllTests(math, dist, optionsSet, algorithms, ds, |optionsSet|), ResultLeq);
  }

  /** Every pairing of an option set with an algorithm has its test among
      the sorted results. */
  lemma RunHasEveryTest(math: MathLib, dist: Measures, optionsSet: seq<Algorithms.Options>,
                        algorithms: seq<Algorithms.Kind>, ds: seq<CompList.MixtureDatasets>, o: nat, a: nat)
    requires o < |optionsSet| && a < |algorithms|
    ensures CompList.TestOf(math, optionsSet[o], algorithms[a], dist(optionsSet[o], algorithms[a]), ds)
            in RunOf(math, dist, optionsSet, algorithms, ds)
  {
    var tests := AllTests(math, dist, optionsSet, algorithms, ds, |optionsSet|);
    AllTestsAt(math, dist, optionsSet, algorithms, ds, |optionsSet|, o, a);
    Sorting.SortKeepsElement(tests, o * |algorithms| + a, ResultLeq);
  }

  /** Run. The results list is sorted in place by List.Sort. */
  method Run(math: MathLib, dist: Measures, optionsSet: seq<Algorithms.Options>,
             algorithms: seq<Algorithms.Kind>, mixDataset: seq<CompList.MixtureDatasets>)
    returns (r: seq<CompList.TestResult>)
    ensures r == RunOf(math, dist, optionsSet, algorithms, mixDataset)
  {
    var results: seq<CompList.TestResult> := [];
    for i := 0 to |optionsSet|
      invariant results == AllTests(math, dist, optionsSet, algorithms, mixDataset, i)
    {
      var options := optionsSet[i];
      ghost var done := results;
      for j := 0 to |algorithms|
        invariant results == done + TestsFor(math, dist, options, algorithms, mixDataset)[..j]
      {
        var algorithm := algorithms[j];
        var testResult := CompList.Test(math, options, algorithm, dist(options, algorithm), mixDataset);
        assert TestsFor(math, dist, options, algorithms, mixDataset)[..j + 1]
               == TestsFor(math, dist, options, algorithms, mixDataset)[..j] + [testResult];
        results := results + [testResult];
      }
      assert TestsFor(math, dist, options, algorithms, mixDataset)[..|algorithms|]
             == TestsFor(math, dist, options, algorithms, mixDataset);
    }
    results := Sorting.Sort(results, ResultLeq);
    r := results;
  }
}
