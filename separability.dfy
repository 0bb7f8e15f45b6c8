/** CompList/Program.cs, the separability analysis of one test: how well the
    distances within one mixture (same) are told apart from the distances
    between two mixtures (diff), by a threshold between the two and by the
    count of "exceptions", diff distances not above a same distance. */
module Separability {
  import opened Numerics
  import Sorting
  import CompList

  type ComparisonResult = CompList.ComparisonResult

  /** `comparisons.Where(c => c.Mixtures.AreSame == same)`, order kept. */
  function Where(cs: seq<ComparisonResult>, same: bool): (r: seq<ComparisonResult>)
    ensures |r| <= |cs|
  {
    if cs == [] then []
    else
      var rest := Where(cs[..|cs| - 1], same);
      var last := cs[|cs| - 1];
      assert cs == cs[..|cs| - 1] + [last];
      if CompList.AreSame(last.mixtures) == same then rest + [last] else rest
  }

  /** Where keeps exactly the comparisons of the asked kind. */
  lemma {:induction false} WhereSpec(cs: seq<ComparisonResult>, same: bool, c: ComparisonResult)
    ensures c in Where(cs, same) <==> c in cs && CompList.AreSame(c.mixtures) == same
    decreases |cs|
  {
    if cs != [] {
      WhereSpec(cs[..|cs| - 1], same, c);
      assert cs == cs[..|cs| - 1] + [cs[|cs| - 1]];
    }
  }

  /** The distances of the comparisons, one after the other (AddRange). */
  function Concat(cs: seq<ComparisonResult>): seq<real> {
    if cs == [] then [] else Concat(cs[..|cs| - 1]) + cs[|cs| - 1].distances
  }

  // Threshold estimation

  /** The first index from i on where the diff distance exceeds the same
      distance, or the shorter length when there is none. */
  function FirstCrossing(same: seq<real>, diff: seq<real>, i: nat): (k: nat)
    requires i <= |same| && i <= |diff|
    ensures i <= k <= |same| && k <= |diff|
    ensures forall j :: i <= j < k ==> diff[j] <= same[j]
    ensures k < |same| && k < |diff| ==> diff[k] > same[k]
    decreases |same| - i
  {
    if i == |diff| || i == |same| then i
    else if diff[i] > same[i] then i
    else FirstCrossing(same, diff, i + 1)
  }

  /** The midpoint at the first crossing, or 0 without one. */
  function Threshold(same: seq<real>, diff: seq<real>): real {
    var k := FirstCrossing(same, diff, 0);
    if k < |same| && k < |diff| then (diff[k] + same[k]) / 2.0 else 0.0
  }

  /** At the first crossing k the threshold lies strictly between the two
      distances, and before it no diff distance exceeds its same distance;
      without a crossing the threshold is 0. */
  lemma ThresholdSpec(same: seq<real>, diff: seq<real>)
    ensures var k := FirstCrossing(same, diff, 0);
            (forall j :: 0 <= j < k ==> diff[j] <= same[j])
            && (k < |same| && k < |diff| ==> same[k] < Threshold(same, diff) < diff[k])
            && (k == |same| || k == |diff| ==> Threshold(same, diff) == 0.0)
  {
  }

  /** With same descending and diff ascending, beyond the crossing every same
      distance lies below the threshold and every diff distance above it. */
  lemma ThresholdSeparatesTails(same: seq<real>, diff: seq<real>)
    requires forall i, j :: 0 <= i < j < |same| ==> same[i] >= same[j]
    requires forall i, j :: 0 <= i < j < |diff| ==> diff[i] <= diff[j]
    ensures var k := FirstCrossing(same, diff, 0);
            k < |same| && k < |diff| ==>
              (forall j :: k <= j < |same| ==> same[j] < Threshold(same, diff))
              && (forall j :: k <= j < |diff| ==> diff[j] > Threshold(same, diff))
  {
  }

  /** `values.Where(d => d < t).Count()`. */
  function CountBelow(values: seq<real>, t: real): (n: nat)
    ensures n <= |values|
  {
    if values == [] then 0
    else CountBelow(values[..|values| - 1], t) + (if values[|values| - 1] < t then 1 else 0)
  }

  /** `values.Where(d => d >= t).Count()`. */
  function CountAtLeast(values: seq<real>, t: real): (n: nat)
    ensures n <= |values|
  {
    if values == [] then 0
    else CountAtLeast(values[..|values| - 1], t) + (if values[|values| - 1] >= t then 1 else 0)
  }

  /** The share of same distances below and diff distances at or above the
      threshold; with no distances at all the source divides 0 by 0 (None). */
  function SuccessRate(same: seq<real>, diff: seq<real>, t: real): Option<real> {
    if |same| + |diff| == 0 then None
    else Some((CountBelow(same, t) + CountAtLeast(diff, t)) as real / (|same| + |diff|) as real)
  }

  /** The success rate is a share: between 0 and 1. */
  lemma SuccessRateInUnitRange(same: seq<real>, diff: seq<real>, t: real)
    ensures |same| + |diff| > 0 <==> SuccessRate(same, diff, t).Some?
    ensures SuccessRate(same, diff, t).Some? ==> 0.0 <= SuccessRate(same, diff, t).value <= 1.0
  {
    if |same| + |diff| > 0 {
      DivAtMostOne((CountBelow(same, t) + CountAtLeast(diff, t)) as real, (|same| + |diff|) as real);
    }
  }

  /** The same distances, sorted and reversed: descending. */
  function SameDescending(sameMixtures: seq<ComparisonResult>): seq<real> {
    Sorting.Reverse(Sorting.SortReals(Concat(sameMixtures)))
  }

  /** The diff distances, sorted: ascending. */
  function DiffAscending(diffMixtures: seq<ComparisonResult>): seq<real> {
    Sorting.SortReals(Concat(diffMixtures))
  }

  /** The two orders are as the threshold search expects them, and each is a
      permutation of the distances it was made from. */
  lemma SortedDistances(sameMixtures: seq<ComparisonResult>, diffMixtures: seq<ComparisonResult>)
    ensures var same := SameDescending(sameMixtures);
            multiset(same) == multiset(Concat(sameMixtures))
            && forall i, j :: 0 <= i < j < |same| ==> same[i] >= same[j]
    ensures var diff := DiffAscending(diffMixtures);
            multiset(diff) == multiset(Concat(diffMixtures))
            && forall i, j :: 0 <= i < j < |diff| ==> diff[i] <= diff[j]
  {
    var sorted := Sorting.SortReals(Concat(sameMixtures));
    Sorting.SortRealsSpec(Concat(sameMixtures));
    Sorting.ReverseMultiset(sorted);
    Sorting.ReverseOfAscending(sorted);
    Sorting.SortRealsSpec(Concat(diffMixtures));
  }

  /** Same distances 0.1, 0.2, 0.3 and diff distances 0.25, 0.4, 0.5: the
      lists cross at the second place, the threshold is 0.3 and four of the
      six distances fall on their side of it. */
  lemma ThresholdExample()
    ensures Threshold([0.3, 0.2, 0.1], [0.25, 0.4, 0.5]) == 0.3
    ensures SuccessRate([0.3, 0.2, 0.1], [0.25, 0.4, 0.5], 0.3) == Some(4.0 / 6.0)
  {
    var same, diff := [0.3, 0.2, 0.1], [0.25, 0.4, 0.5];
    assert FirstCrossing(same, diff, 0) == 1;
    assert same[..2] == [0.3, 0.2] && same[..2][..1] == [0.3] && [0.3][..0] == [];
    assert diff[..2] == [0.25, 0.4] && diff[..2][..1] == [0.25] && [0.25][..0] == [];
    assert CountBelow(same, 0.3) == 2;
    assert CountAtLeast(diff, 0.3) == 2;
  }

  /** What EstimateThreshold returns: the threshold and the success rate. */
  function EstimateOf(sameMixtures: seq<ComparisonResult>, diffMixtures: seq<ComparisonResult>): (real, Option<real>) {
    var same := SameDescending(sameMixtures);
    var diff := DiffAscending(diffMixtures);
    var t := Threshold(same, diff);
    (t, SuccessRate(same, diff, t))
  }

  /** The threshold found separates the tails of the two sorted lists. */
  lemma EstimateSeparates(sameMixtures: seq<ComparisonResult>, diffMixtures: seq<ComparisonResult>)
    ensures var same := SameDescending(sameMixtures);
            var diff := DiffAscending(diffMixtures);
            var k := FirstCrossing(same, diff, 0);
            k < |same| && k < |diff| ==>
              (forall j :: k <= j < |same| ==> same[j] < EstimateOf(sameMixtures, diffMixtures).0)
              && (forall j :: k <= j < |diff| ==> diff[j] > EstimateOf(sameMixtures, diffMixtures).0)
  {
    SortedDistances(sameMixtures, diffMixtures);
    ThresholdSeparatesTails(SameDescending(sameMixtures), DiffAscending(diffMixtures));
  }

  /** EstimateThreshold. */
  method EstimateThreshold(sameMixtures: seq<ComparisonResult>, diffMixtures: seq<ComparisonResult>)
    returns (threshold: real, successRate: Option<real>)
    ensures (threshold, successRate) == EstimateOf(sameMixtures, diffMixtures)
  {
    var distOfSameMixtures := Collect(sameMixtures);
    distOfSameMixtures := Sorting.SortReals(distOfSameMixtures);
    distOfSameMixtures := Sorting.Reverse(distOfSameMixtures);

    var distOfDiffMixtures := Collect(diffMixtures);
    distOfDiffMixtures := Sorting.SortReals(distOfDiffMixtures);

    threshold := FindThreshold(distOfSameMixtures, distOfDiffMixtures);
    var total := |distOfSameMixtures| + |distOfDiffMixtures|;
    successRate := if total == 0 then None
                   else Some((CountBelow(distOfSameMixtures, threshold)
                              + CountAtLeast(distOfDiffMixtures, threshold)) as real / total as real);
  }

  /** The AddRange loop. */
  method Collect(cs: seq<ComparisonResult>) returns (r: seq<real>)
    ensures r == Concat(cs)
  {
    r := [];
    for i := 0 to |cs|
      invariant r == Concat(cs[..i])
    {
      assert cs[..i + 1][..i] == cs[..i];
      r := r + cs[i].distances;
    }
    assert cs[..|cs|] == cs;
  }

  /** The threshold loop: the first crossing, then break. */
  method FindThreshold(same: seq<real>, diff: seq<real>) returns (threshold: real)
    ensures threshold == Threshold(same, diff)
  {
    threshold := 0.0;
    var i := 0;
    while i < |diff| && i < |same|
      invariant i <= |diff| && i <= |same|
      invariant FirstCrossing(same, diff, i) == FirstCrossing(same, diff, 0)
    {
      if diff[i] > same[i] {
        threshold := (diff[i] + same[i]) / 2.0;
        break;
      }
      i := i + 1;
    }
  }

  // Exception statistics

  /** totalCount, count and minDistance of the exception loop; double.MaxValue
      is Infinity. */
  datatype Tally = Tally(totalCount: nat, count: nat, minDistance: ExtReal)

  const Initial: Tally := Tally(0, 0, Infinity)

  /** `minDistance > dist`. */
  predicate Exceeds(m: ExtReal, x: real) {
    m.Infinity? || m.value > x
  }

  /** One pass of the innermost loop, for a same distance s and a diff distance d. */
  function Step(t: Tally, s: real, d: real): Tally {
    var dist := d - s;
    Tally(t.totalCount + 1,
          if d <= s then t.count + 1 else t.count,
          if Exceeds(t.minDistance, dist) then Finite(dist) else t.minDistance)
  }

  /** The tally over (same, diff) distance pairs, in order. */
  function Fold(t: Tally, gaps: seq<(real, real)>): Tally {
    if gaps == [] then t
    else
      var last := gaps[|gaps| - 1];
      Step(Fold(t, gaps[..|gaps| - 1]), last.0, last.1)
  }

  lemma {:induction false} FoldAppend(t: Tally, a: seq<(real, real)>, b: seq<(real, real)>)
    ensures Fold(t, a + b) == Fold(Fold(t, a), b)
    decreases |b|
  {
    if b == [] {
      assert a + b == a;
    } else {
      assert (a + b)[..|a + b| - 1] == a + b[..|b| - 1];
      FoldAppend(t, a, b[..|b| - 1]);
    }
  }

  /** From the initial tally: totalCount counts the pairs, count those where
      the diff distance is not above the same distance, and minDistance is
      the least d - s (Infinity for no pairs). */
  lemma {:induction false} FoldSpec(gaps: seq<(real, real)>)
    ensures Fold(Initial, gaps).totalCount == |gaps|
    ensures Fold(Initial, gaps).count <= |gaps|
    ensures Fold(Initial, gaps).count > 0 <==> exists k :: 0 <= k < |gaps| && gaps[k].1 <= gaps[k].0
    ensures Fold(Initial, gaps).minDistance.Infinity? <==> gaps == []
    ensures forall k :: 0 <= k < |gaps| ==>
              Fold(Initial, gaps).minDistance.value <= gaps[k].1 - gaps[k].0
    ensures gaps != [] ==>
              exists k :: 0 <= k < |gaps| && Fold(Initial, gaps).minDistance.value == gaps[k].1 - gaps[k].0
    decreases |gaps|
  {
    if gaps != [] {
      var p := gaps[..|gaps| - 1];
      FoldSpec(p);
      var last := gaps[|gaps| - 1];
      assert forall k :: 0 <= k < |p| ==> gaps[k] == p[k];
      if Fold(Initial, p).count > 0 {
        var k :| 0 <= k < |p| && p[k].1 <= p[k].0;
        assert gaps[k] == p[k];
      }
      if p != [] && !Exceeds(Fold(Initial, p).minDistance, last.1 - last.0) {
        var k :| 0 <= k < |p| && Fold(Initial, p).minDistance.value == p[k].1 - p[k].0;
        assert gaps[k] == p[k];
      }
    }
  }

  /** With at least one pair, there is an exception exactly when the least
      d - s is at most 0. */
  lemma ExceptionIffMinDistance(gaps: seq<(real, real)>)
    requires gaps != []
    ensures Fold(Initial, gaps).count > 0 <==> Fold(Initial, gaps).minDistance.value <= 0.0
  {
    FoldSpec(gaps);
    if Fold(Initial, gaps).minDistance.value <= 0.0 {
      var k :| 0 <= k < |gaps| && Fold(Initial, gaps).minDistance.value == gaps[k].1 - gaps[k].0;
      assert gaps[k].1 <= gaps[k].0;
    }
  }

  /** The pairs of one same distance with each of a list of diff distances. */
  function Inner(s: real, ds: seq<real>): (r: seq<(real, real)>)
    ensures |r| == |ds|
  {
    seq(|ds|, k requires 0 <= k < |ds| => (s, ds[k]))
  }

  /** The pairs of two lists of distances, the same distance varying slower. */
  function Cross(ss: seq<real>, ds: seq<real>): seq<(real, real)> {
    if ss == [] then [] else Cross(ss[..|ss| - 1], ds) + Inner(ss[|ss| - 1], ds)
  }

  /** The pairs of one same-mixture comparison with the diff comparisons. */
  function GroupGaps(sameResult: ComparisonResult, diffMixtures: seq<ComparisonResult>): seq<(real, real)> {
    if diffMixtures == [] then []
    else GroupGaps(sameResult, diffMixtures[..|diffMixtures| - 1])
         + Cross(sameResult.distances, diffMixtures[|diffMixtures| - 1].distances)
  }

  /** The pairs the four loops visit, in order. */
  function AllGaps(sameMixtures: seq<ComparisonResult>, diffMixtures: seq<ComparisonResult>): seq<(real, real)> {
    if sameMixtures == [] then []
    else AllGaps(sameMixtures[..|sameMixtures| - 1], diffMixtures)
         + GroupGaps(sameMixtures[|sameMixtures| - 1], diffMixtures)
  }

  lemma {:induction false} CrossLength(ss: seq<real>, ds: seq<real>)
    ensures |Cross(ss, ds)| == |ss| * |ds|
    decreases |ss|
  {
    if ss != [] {
      CrossLength(ss[..|ss| - 1], ds);
      assert |ss| * |ds| == (|ss| - 1) * |ds| + |ds|;
    }
  }

  lemma {:induction false} ConcatLength(cs: seq<ComparisonResult>)
    ensures |Concat(cs)| == if cs == [] then 0 else |Concat(cs[..|cs| - 1])| + |cs[|cs| - 1].distances|
  {
  }

  lemma {:induction false} GroupGapsLength(sameResult: ComparisonResult, diffMixtures: seq<ComparisonResult>)
    ensures |GroupGaps(sameResult, diffMixtures)| == |sameResult.distances| * |Concat(diffMixtures)|
    decreases |diffMixtures|
  {
    if diffMixtures != [] {
      var n := |diffMixtures|;
      GroupGapsLength(sameResult, diffMixtures[..n - 1]);
      CrossLength(sameResult.distances, diffMixtures[n - 1].distances);
      var w := |sameResult.distances|;
      var a := |Concat(diffMixtures[..n - 1])|;
      var b := |diffMixtures[n - 1].distances|;
      assert |Concat(diffMixtures)| == a + b;
      ProductSumLeft(|GroupGaps(sameResult, diffMixtures[..n - 1])|,
                     |Cross(sameResult.distances, diffMixtures[n - 1].distances)|, a, b, w);
    }
  }

  /** The pairs of one same distance are it with each diff distance. */
  lemma InnerMembers(s: real, ds: seq<real>, x: (real, real))
    ensures x in Inner(s, ds) <==> x.0 == s && x.1 in ds
  {
    if x.0 == s && x.1 in ds {
      var k :| 0 <= k < |ds| && ds[k] == x.1;
      assert Inner(s, ds)[k] == x;
    }
  }

  /** Cross holds every same distance with every diff distance, and nothing else. */
  lemma {:induction false} CrossMembers(ss: seq<real>, ds: seq<real>, x: (real, real))
    ensures x in Cross(ss, ds) <==> x.0 in ss && x.1 in ds
    decreases |ss|
  {
    if ss != [] {
      var init := ss[..|ss| - 1];
      CrossMembers(init, ds, x);
      InnerMembers(ss[|ss| - 1], ds, x);
      assert ss == init + [ss[|ss| - 1]];
    }
  }

  lemma {:induction false} ConcatMembers(cs: seq<ComparisonResult>, v: real)
    ensures v in Concat(cs) <==> exists k :: 0 <= k < |cs| && v in cs[k].distances
    decreases |cs|
  {
    if cs != [] {
      var init := cs[..|cs| - 1];
      ConcatMembers(init, v);
      assert forall k :: 0 <= k < |init| ==> init[k] == cs[k];
    }
  }

  lemma {:induction false} GroupMembers(sameResult: ComparisonResult, diffMixtures: seq<ComparisonResult>, x: (real, real))
    ensures x in GroupGaps(sameResult, diffMixtures) <==> x.0 in sameResult.distances && x.1 in Concat(diffMixtures)
    decreases |diffMixtures|
  {
    if diffMixtures != [] {
      var n := |diffMixtures|;
      GroupMembers(sameResult, diffMixtures[..n - 1], x);
      CrossMembers(sameResult.distances, diffMixtures[n - 1].distances, x);
    }
  }

  /** The four loops visit every (same distance, diff distance) pair, and
      only those. */
  lemma {:induction false} AllGapsMembers(sameMixtures: seq<ComparisonResult>, diffMixtures: seq<ComparisonResult>,
                                          x: (real, real))
    ensures x in AllGaps(sameMixtures, diffMixtures) <==> x.0 in Concat(sameMixtures) && x.1 in Concat(diffMixtures)
    decreases |sameMixtures|
  {
    if sameMixtures != [] {
      var n := |sameMixtures|;
      AllGapsMembers(sameMixtures[..n - 1], diffMixtures, x);
      GroupMembers(sameMixtures[n - 1], diffMixtures, x);
    }
  }

  /** Lengths of a concatenation of products with a shared factor. */
  lemma ProductSum(l: int, g: int, a: int, b: int, w: int)
    requires l == a * w && g == b * w
    ensures l + g == (a + b) * w
  {
  }

  lemma ProductSumLeft(l: int, g: int, a: int, b: int, w: int)
    requires l == w * a && g == w * b
    ensures l + g == w * (a + b)
  {
  }

  /** totalCount is the number of same distances times the number of diff
      distances: every same distance meets every diff distance once. */
  lemma {:induction false} AllGapsLength(sameMixtures: seq<ComparisonResult>, diffMixtures: seq<ComparisonResult>)
    ensures |AllGaps(sameMixtures, diffMixtures)| == |Concat(sameMixtures)| * |Concat(diffMixtures)|
    decreases |sameMixtures|
  {
    if sameMixtures != [] {
      var n := |sameMixtures|;
      AllGapsLength(sameMixtures[..n - 1], diffMixtures);
      GroupGapsLength(sameMixtures[n - 1], diffMixtures);
      var w := |Concat(diffMixtures)|;
      var a := |Concat(sameMixtures[..n - 1])|;
      var b := |sameMixtures[n - 1].distances|;
      assert |Concat(sameMixtures)| == a + b;
      assert |AllGaps(sameMixtures, diffMixtures)|
          == |AllGaps(sameMixtures[..n - 1], diffMixtures)| + |GroupGaps(sameMixtures[n - 1], diffMixtures)|;
      ProductSum(|AllGaps(sameMixtures[..n - 1], diffMixtures)|,
                 |GroupGaps(sameMixtures[n - 1], diffMixtures)|, a, b, w);
    }
  }

  /** The exception statistics of one test: the tally of all pairs, and
      oddPerc, the share of exceptions in percent (None where the source
      divides by a zero totalCount). */
  function ExceptionStatsOf(comparisons: seq<ComparisonResult>): (Tally, Option<real>) {
    var t := Fold(Initial, AllGaps(Where(comparisons, true), Where(comparisons, false)));
    (t, OddPercent(t.count, t.totalCount))
  }

  /** `100.0 * count / totalCount`, None (NaN) for a zero totalCount; a
      share in percent when count <= totalCount. */
  function OddPercent(count: nat, totalCount: nat): (r: Option<real>)
    ensures r.None? <==> totalCount == 0
    ensures r.Some? && count <= totalCount ==> 0.0 <= r.value <= 100.0
  {
    if totalCount == 0 then None
    else
      Percent(count as real, totalCount as real);
      Some(100.0 * count as real / totalCount as real)
  }

  /** oddPerc lies in [0, 100]; totalCount is |same| |diff|; count is at
      most totalCount, and with any pairs at all count > 0 exactly when
      minDistance <= 0. */
  lemma ExceptionStatsSpec(comparisons: seq<ComparisonResult>)
    ensures var (t, oddPerc) := ExceptionStatsOf(comparisons);
            t.totalCount == |Concat(Where(comparisons, true))| * |Concat(Where(comparisons, false))|
            && t.count <= t.totalCount
            && (t.totalCount > 0 ==> (t.count > 0 <==> t.minDistance.value <= 0.0))
            && (oddPerc.Some? ==> 0.0 <= oddPerc.value <= 100.0)
  {
    var gaps := AllGaps(Where(comparisons, true), Where(comparisons, false));
    FoldSpec(gaps);
    AllGapsLength(Where(comparisons, true), Where(comparisons, false));
    if gaps != [] {
      ExceptionIffMinDistance(gaps);
    }
  }

  /** What the tally means for the distances themselves: an exception is a
      diff distance not above a same distance, and minDistance is the least
      difference diff - same over all pairs (MaxValue when there is none). */
  lemma ExceptionStatsMeaning(comparisons: seq<ComparisonResult>)
    ensures var t := ExceptionStatsOf(comparisons).0;
            var same, diff := Concat(Where(comparisons, true)), Concat(Where(comparisons, false));
            (t.count > 0 <==> exists s, d :: s in same && d in diff && d <= s)
            && (forall s, d :: s in same && d in diff ==> t.minDistance.Finite? && t.minDistance.value <= d - s)
            && (t.minDistance.Finite? ==> exists s, d :: s in same && d in diff && t.minDistance.value == d - s)
  {
    var sameMixtures, diffMixtures := Where(comparisons, true), Where(comparisons, false);
    var gaps := AllGaps(sameMixtures, diffMixtures);
    forall x: (real, real)
      ensures x in gaps <==> x.0 in Concat(sameMixtures) && x.1 in Concat(diffMixtures)
    {
      AllGapsMembers(sameMixtures, diffMixtures, x);
    }
    GapsMeaning(Concat(sameMixtures), Concat(diffMixtures), gaps);
  }

  /** The tally of any list of gaps that holds exactly the pairs of a same
      distance and a diff distance. */
  lemma GapsMeaning(same: seq<real>, diff: seq<real>, gaps: seq<(real, real)>)
    requires forall x :: x in gaps <==> x.0 in same && x.1 in diff
    ensures var t := Fold(Initial, gaps);
            (t.count > 0 <==> exists s, d :: s in same && d in diff && d <= s)
            && (forall s, d :: s in same && d in diff ==> t.minDistance.Finite? && t.minDistance.value <= d - s)
            && (t.minDistance.Finite? ==> exists s, d :: s in same && d in diff && t.minDistance.value == d - s)
  {
    var t := Fold(Initial, gaps);
    FoldSpec(gaps);
    if t.count > 0 {
      var k :| 0 <= k < |gaps| && gaps[k].1 <= gaps[k].0;
      assert gaps[k] in gaps;
    }
    if exists s, d :: s in same && d in diff && d <= s {
      var s, d :| s in same && d in diff && d <= s;
      assert (s, d) in gaps;
      var k :| 0 <= k < |gaps| && gaps[k] == (s, d);
    }
    forall s, d | s in same && d in diff
      ensures t.minDistance.Finite? && t.minDistance.value <= d - s
    {
      assert (s, d) in gaps;
      var k :| 0 <= k < |gaps| && gaps[k] == (s, d);
    }
    if t.minDistance.Finite? {
      var k :| 0 <= k < |gaps| && t.minDistance.value == gaps[k].1 - gaps[k].0;
      assert gaps[k] in gaps;
    }
  }

  /** 100 c / n for 0 <= c <= n, n > 0, lies in [0, 100]. */
  lemma Percent(c: real, n: real)
    requires n > 0.0
    ensures 0.0 <= c <= n ==> 0.0 <= 100.0 * c / n <= 100.0
  {
    if 0.0 <= c <= n {
      DivUnit(c, n);
      assert 100.0 * c / n == 100.0 * (c / n);
    }
  }

  /** The counting loop of PrintExceptionStats. */
  method ExceptionStats(comparisons: seq<ComparisonResult>) returns (t: Tally, oddPerc: Option<real>)
    ensures (t, oddPerc) == ExceptionStatsOf(comparisons)
  {
    var sameMixtures := Where(comparisons, true);
    var diffMixtures := Where(comparisons, false);
    var totalCount, count, minDistance := 0, 0, Infinity;
    for a := 0 to |sameMixtures|
      invariant Tally(totalCount, count, minDistance) == Fold(Initial, AllGaps(sameMixtures[..a], diffMixtures))
    {
      ghost var before := AllGaps(sameMixtures[..a], diffMixtures);
      assert sameMixtures[..a + 1][..a] == sameMixtures[..a];
      FoldAppend(Initial, before, GroupGaps(sameMixtures[a], diffMixtures));
      totalCount, count, minDistance := TallyGroup(sameMixtures[a], diffMixtures, totalCount, count, minDistance);
    }
    assert sameMixtures[..|sameMixtures|] == sameMixtures;
    t := Tally(totalCount, count, minDistance);
    oddPerc := if totalCount == 0 then None else Some(100.0 * count as real / totalCount as real);
    assert oddPerc == OddPercent(count, totalCount);
  }

  /** The loop over the diff comparisons for one same comparison. */
  method TallyGroup(sameResult: ComparisonResult, diffMixtures: seq<ComparisonResult>,
                    totalCount: nat, count: nat, minDistance: ExtReal)
    returns (totalCount': nat, count': nat, minDistance': ExtReal)
    ensures Tally(totalCount', count', minDistance')
            == Fold(Tally(totalCount, count, minDistance), GroupGaps(sameResult, diffMixtures))
  {
    totalCount', count', minDistance' := totalCount, count, minDistance;
    for b := 0 to |diffMixtures|
      invariant Tally(totalCount', count', minDistance')
                == Fold(Tally(totalCount, count, minDistance), GroupGaps(sameResult, diffMixtures[..b]))
    {
      assert diffMixtures[..b + 1][..b] == diffMixtures[..b];
      FoldAppend(Tally(totalCount, count, minDistance), GroupGaps(sameResult, diffMixtures[..b]),
                 Cross(sameResult.distances, diffMixtures[b].distances));
      totalCount', count', minDistance' := TallyCross(sameResult.distances, diffMixtures[b].distances,
                                                      totalCount', count', minDistance');
    }
    assert diffMixtures[..|diffMixtures|] == diffMixtures;
  }

  /** The loop over the same distances of one same comparison. */
  method TallyCross(smrDists: seq<real>, dmrDists: seq<real>, totalCount: nat, count: nat, minDistance: ExtReal)
    returns (totalCount': nat, count': nat, minDistance': ExtReal)
    ensures Tally(totalCount', count', minDistance')
            == Fold(Tally(totalCount, count, minDistance), Cross(smrDists, dmrDists))
  {
    totalCount', count', minDistance' := totalCount, count, minDistance;
    for c := 0 to |smrDists|
      invariant Tally(totalCount', count', minDistance')
                == Fold(Tally(totalCount, count, minDistance), Cross(smrDists[..c], dmrDists))
    {
      assert smrDists[..c + 1][..c] == smrDists[..c];
      FoldAppend(Tally(totalCount, count, minDistance), Cross(smrDists[..c], dmrDists), Inner(smrDists[c], dmrDists));
      totalCount', count', minDistance' := TallyInner(smrDists[c], dmrDists, totalCount', count', minDistance');
    }
    assert smrDists[..|smrDists|] == smrDists;
  }

  /** The innermost loop: one same distance against each diff distance. */
  method TallyInner(smrDist: real, dmrDists: seq<real>, totalCount: nat, count: nat, minDistance: ExtReal)
    returns (totalCount': nat, count': nat, minDistance': ExtReal)
    ensures Tally(totalCount', count', minDistance')
            == Fold(Tally(totalCount, count, minDistance), Inner(smrDist, dmrDists))
  {
    totalCount', count', minDistance' := totalCount, count, minDistance;
    for e := 0 to |dmrDists|
      invariant Tally(totalCount', count', minDistance')
                == Fold(Tally(totalCount, count, minDistance), Inner(smrDist, dmrDists[..e]))
    {
      var dmrDist := dmrDists[e];
      assert Inner(smrDist, dmrDists[..e + 1])[..e] == Inner(smrDist, dmrDists[..e]);
      totalCount' := totalCount' + 1;
      var dist := dmrDist - smrDist;
      if Exceeds(minDistance', dist) {
        minDistance' := Finite(dist);
      }
      if dmrDist <= smrDist {
        count' := count' + 1;
      }
    }
    assert dmrDists[..|dmrDists|] == dmrDists;
  }
}
