/** The library sorts the source calls (Array.Sort, List.Sort followed by
    List.Reverse), modelled by one insertion sort over an ordering `leq`. */
module Sorting {

  ghost predicate Total<T(!new)>(leq: (T, T) -> bool) {
    forall x: T, y: T :: leq(x, y) || leq(y, x)
  }

  ghost predicate Transitive<T(!new)>(leq: (T, T) -> bool) {
    forall x: T, y: T, z: T :: leq(x, y) && leq(y, z) ==> leq(x, z)
  }

  ghost predicate Antisymmetric<T(!new)>(leq: (T, T) -> bool) {
    forall x: T, y: T :: leq(x, y) && leq(y, x) ==> x == y
  }

  ghost predicate SortedBy<T>(s: seq<T>, leq: (T, T) -> bool) {
    forall i, j :: 0 <= i < j < |s| ==> leq(s[i], s[j])
  }

  function Insert<T>(x: T, s: seq<T>, leq: (T, T) -> bool): (r: seq<T>)
    ensures multiset(r) == multiset(s) + multiset{x}
    ensures |r| == |s| + 1
  {
    if s == [] then [x]
    else if leq(x, s[0]) then [x] + s
    else
      assert s == [s[0]] + s[1..];
      [s[0]] + Insert(x, s[1..], leq)
  }

  /** The ascending sort of `s` under `leq`: a permutation of `s`. */
  function Sort<T>(s: seq<T>, leq: (T, T) -> bool): (r: seq<T>)
    ensures multiset(r) == multiset(s)
    ensures |r| == |s|
  {
    if s == [] then []
    else
      assert s == [s[0]] + s[1..];
      Insert(s[0], Sort(s[1..], leq), leq)
  }

  lemma {:induction false} InsertSorted<T(!new)>(x: T, s: seq<T>, leq: (T, T) -> bool)
    requires Total(leq) && Transitive(leq)
    requires SortedBy(s, leq)
    ensures SortedBy(Insert(x, s, leq), leq)
  {
    if s != [] && !leq(x, s[0]) {
      var t := Insert(x, s[1..], leq);
      InsertSorted(x, s[1..], leq);
      assert leq(s[0], x);
      forall k | 0 <= k < |t| ensures leq(s[0], t[k]) {
        assert t[k] in multiset(t);
        assert t[k] in multiset(s[1..]) + multiset{x};
        if t[k] != x {
          assert t[k] in s[1..];
        }
      }
    }
  }

  /** The sort is ascending under any total, transitive `leq`. */
  lemma {:induction false} SortSorted<T(!new)>(s: seq<T>, leq: (T, T) -> bool)
    requires Total(leq) && Transitive(leq)
    ensures SortedBy(Sort(s, leq), leq)
  {
    if s != [] {
      SortSorted(s[1..], leq);
      InsertSorted(s[0], Sort(s[1..], leq), leq);
    }
  }

  /** The head of a non-empty ascending sequence is below each of its elements. */
  lemma HeadIsLeast<T(!new)>(x: seq<T>, e: T, leq: (T, T) -> bool)
    requires Total(leq) && SortedBy(x, leq)
    requires e in multiset(x)
    ensures leq(x[0], e)
  {
    var k :| 0 <= k < |x| && x[k] == e;
    if k == 0 {
      assert leq(e, e) || leq(e, e);
    } else {
      assert leq(x[0], x[k]);
    }
  }

  /** Under a total order, two ascending sequences with the same elements are equal:
      the sort of a sequence depends only on its elements, not on their order. */
  lemma {:induction false} SortedUnique<T(!new)>(x: seq<T>, y: seq<T>, leq: (T, T) -> bool)
    requires Total(leq) && Antisymmetric(leq)
    requires SortedBy(x, leq) && SortedBy(y, leq)
    requires multiset(x) == multiset(y)
    ensures x == y
  {
    if x == [] {
      assert |y| == |multiset(y)| == 0;
    } else {
      SameHead(x, y, leq);
      SortedTail(x, leq);
      SortedTail(y, leq);
      SortedUnique(x[1..], y[1..], leq);
      ConsTail(x, y);
    }
  }

  lemma ConsTail<T>(x: seq<T>, y: seq<T>)
    requires x != [] && y != [] && x[0] == y[0] && x[1..] == y[1..]
    ensures x == y
  {
    assert x == [x[0]] + x[1..] && y == [y[0]] + y[1..];
  }

  /** Two non-empty ascending sequences with the same elements start alike. */
  lemma SameHead<T(!new)>(x: seq<T>, y: seq<T>, leq: (T, T) -> bool)
    requires Total(leq) && Antisymmetric(leq)
    requires SortedBy(x, leq) && SortedBy(y, leq)
    requires x != [] && multiset(x) == multiset(y)
    ensures y != [] && x[0] == y[0]
  {
    assert x[0] in multiset(x);
    assert y[0] in multiset(y);
    HeadIsLeast(y, x[0], leq);
    HeadIsLeast(x, y[0], leq);
  }

  /** The tail of an ascending sequence is ascending and holds all but its head. */
  lemma SortedTail<T>(x: seq<T>, leq: (T, T) -> bool)
    requires x != [] && SortedBy(x, leq)
    ensures SortedBy(x[1..], leq)
    ensures multiset(x[1..]) == multiset(x) - multiset{x[0]}
  {
    assert x == [x[0]] + x[1..];
  }

  /** Every element of a sequence is an element of its sort. */
  lemma SortKeepsElement<T>(s: seq<T>, k: nat, leq: (T, T) -> bool)
    requires k < |s|
    ensures s[k] in Sort(s, leq)
  {
    assert s[k] in multiset(s);
    assert s[k] in multiset(Sort(s, leq));
  }

  /** The sort of a sequence is the sort of any permutation of it. */
  lemma SortPermutationInvariant<T(!new)>(s: seq<T>, t: seq<T>, leq: (T, T) -> bool)
    requires Total(leq) && Transitive(leq) && Antisymmetric(leq)
    requires multiset(s) == multiset(t)
    ensures Sort(s, leq) == Sort(t, leq)
  {
    SortSorted(s, leq);
    SortSorted(t, leq);
    SortedUnique(Sort(s, leq), Sort(t, leq), leq);
  }

  /** List.Reverse. */
  function Reverse<T>(s: seq<T>): (r: seq<T>)
    ensures |r| == |s|
    ensures forall i :: 0 <= i < |s| ==> r[i] == s[|s| - 1 - i]
  {
    if s == [] then [] else Reverse(s[1..]) + [s[0]]
  }

  lemma ReverseMultiset<T>(s: seq<T>)
    ensures multiset(Reverse(s)) == multiset(s)
  {
    if s != [] {
      ReverseMultiset(s[1..]);
      assert s == [s[0]] + s[1..];
    }
  }

  /** Reversing an ascending sequence of reals makes it descending. */
  lemma ReverseOfAscending(s: seq<real>)
    requires forall i, j :: 0 <= i < j < |s| ==> s[i] <= s[j]
    ensures forall i, j :: 0 <= i < j < |Reverse(s)| ==> Reverse(s)[i] >= Reverse(s)[j]
  {
    var r := Reverse(s);
    forall i, j | 0 <= i < j < |r|
      ensures r[i] >= r[j]
    {
      var i', j' := |s| - 1 - i, |s| - 1 - j;
      assert r[i] == s[i'] && r[j] == s[j'];
      assert j' < i';
    }
  }

  /** The ascending order of reals. */
  predicate RealLeq(x: real, y: real) {
    x <= y
  }

  lemma RealLeqIsTotalOrder()
    ensures Total(RealLeq) && Transitive(RealLeq) && Antisymmetric(RealLeq)
  {
  }

  /** Array.Sort of a float array, as a function. */
  function SortReals(s: seq<real>): (r: seq<real>)
    ensures |r| == |s|
  {
    Sort(s, RealLeq)
  }

  /** SortReals returns an ascending permutation of its argument. */
  lemma SortRealsSpec(s: seq<real>)
    ensures multiset(SortReals(s)) == multiset(s)
    ensures forall i, j :: 0 <= i < j < |SortReals(s)| ==> SortReals(s)[i] <= SortReals(s)[j]
  {
    RealLeqIsTotalOrder();
    SortSorted(s, RealLeq);
  }

  /** For reals, the sort is the unique ascending permutation. */
  lemma SortRealsUnique(s: seq<real>, t: seq<real>)
    requires multiset(s) == multiset(t)
    requires forall i, j :: 0 <= i < j < |t| ==> t[i] <= t[j]
    ensures SortReals(s) == t
  {
    RealLeqIsTotalOrder();
    SortRealsSpec(s);
    SortedUnique(SortReals(s), t, RealLeq);
  }
}
