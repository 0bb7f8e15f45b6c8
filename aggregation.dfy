/** The accumulation every metric shares: a per-index term summed over the first n
    index positions of two vectors, and the count of those positions. In rectified
    mode only the active positions, where either vector is non-zero, are taken;
    otherwise every position is. */
module Aggregation {
  import opened Numerics

  /** Whether position (x, y) takes part: always, or only when it is active. */
  predicate Kept(rectified: bool, x: real, y: real) {
    !rectified || x != 0.0 || y != 0.0
  }

  /** The sum of t(a[i], b[i]) over the kept positions i < n, in index order. */
  function SumOver(t: (real, real) -> real, rectified: bool, a: seq<real>, b: seq<real>, n: nat): real
    requires n <= |a| && n <= |b|
  {
    if n == 0 then 0.0
    else SumOver(t, rectified, a, b, n - 1) + (if Kept(rectified, a[n - 1], b[n - 1]) then t(a[n - 1], b[n - 1]) else 0.0)
  }

  /** The number of kept positions i < n. */
  function CountOver(rectified: bool, a: seq<real>, b: seq<real>, n: nat): nat
    requires n <= |a| && n <= |b|
  {
    if n == 0 then 0
    else CountOver(rectified, a, b, n - 1) + (if Kept(rectified, a[n - 1], b[n - 1]) then 1 else 0)
  }

  /** Outside rectified mode every position is counted; in any mode at most n are. */
  lemma {:induction false} CountOverBounds(rectified: bool, a: seq<real>, b: seq<real>, n: nat)
    requires n <= |a| && n <= |b|
    ensures CountOver(rectified, a, b, n) <= n
    ensures !rectified ==> CountOver(rectified, a, b, n) == n
  {
    if n > 0 {
      CountOverBounds(rectified, a, b, n - 1);
    }
  }

  /** When t at (a[i], b[i]) always equals u at (b[i], a[i]), swapping the vectors
      turns the sum of t into the sum of u. With t == u this is the symmetry of a
      symmetric term; with a == b it equates two sums over one vector. */
  lemma {:induction false} SumOverSwap(t: (real, real) -> real, u: (real, real) -> real, rectified: bool, a: seq<real>, b: seq<real>, n: nat)
    requires n <= |a| && n <= |b|
    requires forall i :: 0 <= i < n ==> t(a[i], b[i]) == u(b[i], a[i])
    ensures SumOver(t, rectified, a, b, n) == SumOver(u, rectified, b, a, n)
  {
    if n > 0 {
      SumOverSwap(t, u, rectified, a, b, n - 1);
    }
  }

  lemma {:induction false} CountOverSymmetric(rectified: bool, a: seq<real>, b: seq<real>, n: nat)
    requires n <= |a| && n <= |b|
    ensures CountOver(rectified, a, b, n) == CountOver(rectified, b, a, n)
  {
    if n > 0 {
      CountOverSymmetric(rectified, a, b, n - 1);
    }
  }

  /** Terms that vanish on equal arguments give 0 for identical vectors. */
  lemma {:induction false} SumOverIdentical(t: (real, real) -> real, rectified: bool, a: seq<real>, n: nat)
    requires n <= |a|
    requires forall i :: 0 <= i < n ==> t(a[i], a[i]) == 0.0
    ensures SumOver(t, rectified, a, a, n) == 0.0
  {
    if n > 0 {
      SumOverIdentical(t, rectified, a, n - 1);
    }
  }

  /** Kept terms in [0, 1] give a sum between 0 and the count. */
  lemma {:induction false} SumOverUnit(t: (real, real) -> real, rectified: bool, a: seq<real>, b: seq<real>, n: nat)
    requires n <= |a| && n <= |b|
    requires forall i :: 0 <= i < n && Kept(rectified, a[i], b[i]) ==> 0.0 <= t(a[i], b[i]) <= 1.0
    ensures 0.0 <= SumOver(t, rectified, a, b, n) <= CountOver(rectified, a, b, n) as real
  {
    if n > 0 {
      SumOverUnit(t, rectified, a, b, n - 1);
    }
  }

  /** Non-negative kept terms give a sum that is 0 exactly when every kept term is 0. */
  lemma {:induction false} SumOverZeroIff(t: (real, real) -> real, rectified: bool, a: seq<real>, b: seq<real>, n: nat)
    requires n <= |a| && n <= |b|
    requires forall i :: 0 <= i < n && Kept(rectified, a[i], b[i]) ==> t(a[i], b[i]) >= 0.0
    ensures SumOver(t, rectified, a, b, n) >= 0.0
    ensures SumOver(t, rectified, a, b, n) == 0.0 <==>
      forall i :: 0 <= i < n && Kept(rectified, a[i], b[i]) ==> t(a[i], b[i]) == 0.0
  {
    if n > 0 {
      SumOverZeroIff(t, rectified, a, b, n - 1);
    }
  }

  /** Pointwise smaller kept terms give a smaller sum. */
  lemma {:induction false} SumOverMono(t: (real, real) -> real, u: (real, real) -> real, rectified: bool, a: seq<real>, b: seq<real>, n: nat)
    requires n <= |a| && n <= |b|
    requires forall i :: 0 <= i < n && Kept(rectified, a[i], b[i]) ==> t(a[i], b[i]) <= u(a[i], b[i])
    ensures SumOver(t, rectified, a, b, n) <= SumOver(u, rectified, a, b, n)
  {
    if n > 0 {
      SumOverMono(t, u, rectified, a, b, n - 1);
    }
  }

  /** Terms that are a constant multiple of other terms give that multiple of their sum. */
  lemma {:induction false} SumOverScale(t: (real, real) -> real, u: (real, real) -> real, c: real, rectified: bool, a: seq<real>, b: seq<real>, n: nat)
    requires n <= |a| && n <= |b|
    requires forall i :: 0 <= i < n ==> u(a[i], b[i]) == c * t(a[i], b[i])
    ensures SumOver(u, rectified, a, b, n) == c * SumOver(t, rectified, a, b, n)
  {
    if n > 0 {
      SumOverScale(t, u, c, rectified, a, b, n - 1);
    }
  }

  /** With no counted position every sum is 0. */
  lemma {:induction false} SumOverWithoutCounted(t: (real, real) -> real, rectified: bool, a: seq<real>, b: seq<real>, n: nat)
    requires n <= |a| && n <= |b| && CountOver(rectified, a, b, n) == 0
    ensures SumOver(t, rectified, a, b, n) == 0.0
  {
    if n > 0 {
      SumOverWithoutCounted(t, rectified, a, b, n - 1);
    }
  }

  /** A sum over at most `count` kept terms, each in [0, 1], divided by the floored
      count, lies in [0, 1]. */
  lemma MeanOfUnitTerms(t: (real, real) -> real, rectified: bool, a: seq<real>, b: seq<real>, n: nat)
    requires n <= |a| && n <= |b|
    requires forall i :: 0 <= i < n && Kept(rectified, a[i], b[i]) ==> 0.0 <= t(a[i], b[i]) <= 1.0
    ensures 0.0 <= SumOver(t, rectified, a, b, n) / Floor1(CountOver(rectified, a, b, n)) <= 1.0
  {
    SumOverUnit(t, rectified, a, b, n);
    var c := CountOver(rectified, a, b, n);
    if c == 0 {
      assert SumOver(t, rectified, a, b, n) == 0.0;
    } else {
      UnitQuotient(SumOver(t, rectified, a, b, n), c as real);
    }
  }

  /** The floored mean of a term that is symmetric at every position does not
      change when the two vectors are swapped. */
  lemma MeanSymmetric(t: (real, real) -> real, rectified: bool, a: seq<real>, b: seq<real>)
    requires |a| == |b|
    requires forall i :: 0 <= i < |a| ==> t(a[i], b[i]) == t(b[i], a[i])
    ensures SumOver(t, rectified, a, b, |a|) / Floor1(CountOver(rectified, a, b, |a|))
         == SumOver(t, rectified, b, a, |a|) / Floor1(CountOver(rectified, b, a, |a|))
  {
    SumOverSwap(t, t, rectified, a, b, |a|);
    CountOverSymmetric(rectified, a, b, |a|);
  }

  /** The floored mean of a term that vanishes on equal arguments is 0 for a
      vector compared with itself. */
  lemma MeanIdentical(t: (real, real) -> real, rectified: bool, a: seq<real>)
    requires forall i :: 0 <= i < |a| ==> t(a[i], a[i]) == 0.0
    ensures SumOver(t, rectified, a, a, |a|) / Floor1(CountOver(rectified, a, a, |a|)) == 0.0
  {
    SumOverIdentical(t, rectified, a, |a|);
  }
}
