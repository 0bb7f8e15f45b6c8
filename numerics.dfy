/** Real-number vocabulary shared by the model: absolute value, minimum and maximum,
    sums, the count floor used by every metric, an extended real for the
    "MaxValue" sentinels of the source, and the square root and natural
    logarithm, which are supplied by the caller together with the laws the
    model relies on. */
module Numerics {

  /** `Option` stands for a nullable value (`float?`, a value that may be null or NaN). */
  datatype Option<T> = None | Some(value: T)

  /** A real or the "not reached" sentinel. The source writes float.MaxValue or
      double.MaxValue for it; the model keeps it apart from every finite value. */
  datatype ExtReal = Finite(value: real) | Infinity

  /** Math.Sqrt and Math.Log, passed in by the caller. */
  datatype MathLib = MathLib(sqrt: real -> real, ln: real -> real)

  /** The laws of the square root and the logarithm that the model uses. Nothing
      else is known about either function; in particular the square root of a
      negative number (NaN in the source) is left unspecified. */
  ghost predicate Lawful(m: MathLib) {
    m.sqrt(0.0) == 0.0
    && (forall x: real :: x >= 0.0 ==> m.sqrt(x) >= 0.0 && m.sqrt(x) * m.sqrt(x) == x)
    && m.ln(1.0) == 0.0
    && (forall x: real :: x >= 1.0 ==> m.ln(x) >= 0.0)
  }

  function Abs(x: real): (r: real)
    ensures r >= 0.0 && (r == x || r == -x)
  {
    if x < 0.0 then -x else x
  }

  function Min(x: real, y: real): (r: real)
    ensures r <= x && r <= y && (r == x || r == y)
  {
    if x <= y then x else y
  }

  function Max(x: real, y: real): (r: real)
    ensures r >= x && r >= y && (r == x || r == y)
  {
    if x >= y then x else y
  }

  /** `count > 0 ? count : 1`, the floor every metric puts under its divisor. */
  function Floor1(count: int): (r: real)
    ensures r >= 1.0
    ensures count > 0 ==> r == count as real
  {
    if count > 0 then count as real else 1.0
  }

  /** LINQ Max over a non-empty sequence. */
  function SeqMax(s: seq<real>): (r: real)
    requires |s| > 0
    ensures r in s
    ensures forall i :: 0 <= i < |s| ==> s[i] <= r
  {
    if |s| == 1 then s[0] else Max(SeqMax(s[..|s| - 1]), s[|s| - 1])
  }

  /** LINQ Min over a non-empty sequence. */
  function SeqMin(s: seq<real>): (r: real)
    requires |s| > 0
    ensures r in s
    ensures forall i :: 0 <= i < |s| ==> r <= s[i]
  {
    if |s| == 1 then s[0] else Min(SeqMin(s[..|s| - 1]), s[|s| - 1])
  }

  /** The sum of the first `n` elements, accumulated in index order. */
  function SumTo(s: seq<real>, n: nat): real
    requires n <= |s|
  {
    if n == 0 then 0.0 else SumTo(s, n - 1) + s[n - 1]
  }

  function Sum(s: seq<real>): real {
    SumTo(s, |s|)
  }

  lemma MulPos(x: real, y: real)
    requires x > 0.0 && y > 0.0
    ensures x * y > 0.0
  {
  }

  lemma Square(x: real)
    ensures x * x >= 0.0
  {
    if x < 0.0 {
      assert x * x == (-x) * (-x);
      MulPos(-x, -x);
    } else if x > 0.0 {
      MulPos(x, x);
    }
  }

  /** The sum of the squares of two numbers. */
  function SumOfSquares(x: real, y: real): real {
    x * x + y * y
  }

  /** A sum of two squares is never negative. */
  lemma SumOfSquaresNonNegative(x: real, y: real)
    ensures SumOfSquares(x, y) >= 0.0
  {
    Square(x);
    Square(y);
  }

  /** Negating both numbers leaves the sum of squares as it is. */
  lemma SumOfSquaresNegated(x: real, y: real)
    ensures SumOfSquares(-x, -y) == SumOfSquares(x, y)
  {
    assert (-x) * (-x) == x * x;
    assert (-y) * (-y) == y * y;
  }

  /** A quotient of a value in [0, c] by a divisor c >= 1, or of 0 by anything, lies in [0, 1]. */
  lemma UnitQuotient(x: real, c: real)
    requires c >= 1.0 && 0.0 <= x <= c
    ensures 0.0 <= x / c <= 1.0
  {
  }

  /** Dividing by a positive number keeps the order, both ways. */
  lemma DivMonotone(x: real, y: real, d: real)
    requires d > 0.0
    ensures x <= y <==> x / d <= y / d
  {
    assert x / d * d == x && y / d * d == y;
    if x / d <= y / d {
      assert x / d * d <= y / d * d;
    }
  }

  /** A value between 0 and a positive d, divided by d, lies in [0, 1]. */
  lemma DivUnit(x: real, d: real)
    requires d > 0.0 && 0.0 <= x <= d
    ensures 0.0 <= x / d <= 1.0
    ensures x == 0.0 ==> x / d == 0.0
    ensures x == d ==> x / d == 1.0
  {
    DivMonotone(0.0, x, d);
    DivMonotone(x, d, d);
  }

  /** A value at most a positive d, divided by d, is at most 1, and d / d is 1. */
  lemma DivAtMostOne(x: real, d: real)
    requires d > 0.0 && x <= d
    ensures x / d <= 1.0 && (x == d ==> x / d == 1.0)
  {
    assert d / d == 1.0;
    DivMonotone(x, d, d);
  }
}
