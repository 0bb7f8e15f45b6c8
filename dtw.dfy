/** Dynamic time warping with a Sakoe-Chiba band: a table of accumulated costs
    over the index pairs of the two vectors, filled row by row, where only the
    cells within WindowSize of the diagonal are computed and every other cell
    keeps the float.MaxValue sentinel (Infinity here). */
module Dtw {
  import opened Numerics

  const WindowSize: nat := 10

  /** The order of extended reals: every finite value is below the sentinel. */
  predicate LessEq(x: ExtReal, y: ExtReal) {
    y.Infinity? || (x.Finite? && x.value <= y.value)
  }

  /** Math.Min on table cells. */
  function MinExt(x: ExtReal, y: ExtReal): ExtReal {
    if LessEq(x, y) then x else y
  }

  /** A cost added to a cell: the sentinel absorbs it. */
  function AddCost(c: real, x: ExtReal): ExtReal {
    if x.Infinity? then Infinity else Finite(c + x.value)
  }

  /** Cell (i, j), i >= 1, is computed by the third pass: max(1, i - 10) <= j <=
      min(n2, i + 10). */
  predicate InBand(n2: nat, i: nat, j: nat) {
    1 <= i && 1 <= j && j <= n2 && i - WindowSize <= j <= i + WindowSize
  }

  /** Math.BandStart(i), the first column of row i's band. */
  function BandStart(i: nat): (j: nat)
    ensures j >= 1
  {
    if i - WindowSize > 1 then i - WindowSize else 1
  }

  /** Math.Min(n2, i + WindowSize), the last column of row i's band. */
  function BandEnd(n2: nat, i: nat): nat {
    if n2 < i + WindowSize then n2 else i + WindowSize
  }

  /** The accumulated cost of warping the first i values of a onto the first j
      values of b, within the band. */
  function Cell(a: seq<real>, b: seq<real>, i: nat, j: nat): ExtReal
    requires i <= |a| && j <= |b|
    decreases i + j, 1
  {
    if i == 0 && j == 0 then Finite(0.0)
    else if !InBand(|b|, i, j) then Infinity
    else Extend(a, b, i, j)
  }

  /** A band cell: the cost of pairing a[i - 1] with b[j - 1] added to the
      cheapest of the three cells it can be reached from. */
  function Extend(a: seq<real>, b: seq<real>, i: nat, j: nat): ExtReal
    requires i <= |a| && InBand(|b|, i, j)
    decreases i + j, 0
  {
    AddCost(Abs(a[i - 1] - b[j - 1]),
            MinExt(Cell(a, b, i - 1, j), MinExt(Cell(a, b, i, j - 1), Cell(a, b, i - 1, j - 1))))
  }

  /** The integer quotient (n1 + n2 + 2) / 2 the final cell is divided by. */
  function Normalizer(n1: nat, n2: nat): (k: nat)
    ensures k >= 1
  {
    (n1 + n2 + 2) / 2
  }

  /** The final cell divided by the normaliser. An unreached final cell gives the
      sentinel Infinity; the source divides float.MaxValue there as well, and the
      model does not keep that quotient. */
  function Distance(a: seq<real>, b: seq<real>): ExtReal {
    match Cell(a, b, |a|, |b|)
    case Infinity => Infinity
    case Finite(v) => Finite(v / Normalizer(|a|, |b|) as real)
  }

  /** The table after the first two passes: 0 at (0, 0) and in the band, the
      sentinel elsewhere. */
  function Initial(n2: nat, i: nat, j: nat): ExtReal {
    if (i == 0 && j == 0) || InBand(n2, i, j) then Finite(0.0) else Infinity
  }

  /** Outside the band the table already holds its final value before the third
      pass. */
  lemma OutsideBand(a: seq<real>, b: seq<real>, i: nat, j: nat)
    requires i <= |a| && j <= |b| && !InBand(|b|, i, j)
    ensures Cell(a, b, i, j) == Initial(|b|, i, j)
  {
  }

  predicate Shaped(result: array2<ExtReal>, a: seq<real>, b: seq<real>) {
    result.Length0 == |a| + 1 && result.Length1 == |b| + 1
  }

  /** (p, q) comes before (i, j) in row-major order. */
  predicate Before(p: nat, q: nat, i: nat, j: nat) {
    p < i || (p == i && q < j)
  }

  /** During the third pass, at cell (i, j): the cells before it hold their final
      value, the others what the first two passes left. */
  ghost predicate Filled(result: array2<ExtReal>, a: seq<real>, b: seq<real>, i: nat, j: nat)
    requires Shaped(result, a, b)
    reads result
  {
    forall p, q | 0 <= p <= |a| && 0 <= q <= |b| ::
      result[p, q] == if Before(p, q, i, j) then Cell(a, b, p, q) else Initial(|b|, p, q)
  }

  /** The banded DTW distance of the two vectors divided by the normaliser; the
      sentinel when the final cell is out of reach. */
  method ComputeDistance(a: seq<real>, b: seq<real>) returns (d: ExtReal)
    ensures d == Distance(a, b)
  {
    var result := new ExtReal[|a| + 1, |b| + 1];
    FillSentinel(result);
    result[0, 0] := Finite(0.0);
    ZeroBand(result, a, b);
    var i := 1;
    FilledFirstRow(result, a, b);
    while i <= |a|
      invariant 1 <= i <= |a| + 1
      invariant Filled(result, a, b, i, 0)
    {
      ComputeRow(result, a, b, i);
      i := i + 1;
    }
    assert result[|a|, |b|] == Cell(a, b, |a|, |b|);
    match result[|a|, |b|]
    case Infinity => d := Infinity;
    case Finite(v) => d := Finite(v / ((|a| + |b| + 2) / 2) as real);
  }

  /** The first pass: every cell holds the sentinel. */
  method FillSentinel(result: array2<ExtReal>)
    modifies result
    ensures forall p, q | 0 <= p < result.Length0 && 0 <= q < result.Length1 :: result[p, q] == Infinity
  {
    for i := 0 to result.Length0
      invariant forall p, q | 0 <= p < i && 0 <= q < result.Length1 :: result[p, q] == Infinity
    {
      for j := 0 to result.Length1
        invariant forall p, q | 0 <= p < i && 0 <= q < result.Length1 :: result[p, q] == Infinity
        invariant forall q | 0 <= q < j :: result[i, q] == Infinity
      {
        result[i, j] := Infinity;
      }
    }
  }

  /** The second pass, after (0, 0) is set: 0 in every band cell. */
  method ZeroBand(result: array2<ExtReal>, a: seq<real>, b: seq<real>)
    requires Shaped(result, a, b)
    requires forall p, q | 0 <= p <= |a| && 0 <= q <= |b| ::
      result[p, q] == if p == 0 && q == 0 then Finite(0.0) else Infinity
    modifies result
    ensures forall p, q | 0 <= p <= |a| && 0 <= q <= |b| :: result[p, q] == Initial(|b|, p, q)
  {
    for i := 1 to |a| + 1
      invariant forall p, q | 0 <= p <= |a| && 0 <= q <= |b| ::
        result[p, q] == if p < i then Initial(|b|, p, q) else if p == 0 && q == 0 then Finite(0.0) else Infinity
    {
      var j := BandStart(i);
      while j <= BandEnd(|b|, i)
        invariant BandStart(i) <= j
        invariant forall p, q | 0 <= p <= |a| && 0 <= q <= |b| ::
          result[p, q] == if p < i || (p == i && q < j) then Initial(|b|, p, q) else Infinity
        decreases |b| - j
      {
        result[i, j] := Finite(0.0);
        j := j + 1;
      }
    }
  }

  lemma FilledFirstRow(result: array2<ExtReal>, a: seq<real>, b: seq<real>)
    requires Shaped(result, a, b)
    requires forall p, q | 0 <= p <= |a| && 0 <= q <= |b| :: result[p, q] == Initial(|b|, p, q)
    ensures Filled(result, a, b, 1, 0)
  {
    forall p, q | 0 <= p <= |a| && 0 <= q <= |b| && Before(p, q, 1, 0)
      ensures Cell(a, b, p, q) == Initial(|b|, p, q)
    {
      OutsideBand(a, b, p, q);
    }
  }

  /** Row i of the third pass. */
  method ComputeRow(result: array2<ExtReal>, a: seq<real>, b: seq<real>, i: nat)
    requires Shaped(result, a, b) && 1 <= i <= |a| && Filled(result, a, b, i, 0)
    modifies result
    ensures Filled(result, a, b, i + 1, 0)
  {
    var j := BandStart(i);
    SkipToBand(result, a, b, i, j);
    while j <= BandEnd(|b|, i)
      invariant BandStart(i) <= j
      invariant Filled(result, a, b, i, j)
      decreases |b| - j
    {
      ComputeCell(result, a, b, i, j);
      j := j + 1;
    }
    NextRow(result, a, b, i, j);
  }

  /** The cells of row i left of the band are already final. */
  lemma SkipToBand(result: array2<ExtReal>, a: seq<real>, b: seq<real>, i: nat, j: nat)
    requires Shaped(result, a, b) && 1 <= i <= |a| && j == BandStart(i)
    requires Filled(result, a, b, i, 0)
    ensures Filled(result, a, b, i, j)
  {
    forall p, q | 0 <= p <= |a| && 0 <= q <= |b| && p == i && q < j
      ensures Cell(a, b, p, q) == Initial(|b|, p, q)
    {
      OutsideBand(a, b, p, q);
    }
  }

  /** The cells of row i right of the band are already final. */
  lemma NextRow(result: array2<ExtReal>, a: seq<real>, b: seq<real>, i: nat, j: nat)
    requires Shaped(result, a, b) && 1 <= i <= |a| && j > BandEnd(|b|, i)
    requires Filled(result, a, b, i, j)
    ensures Filled(result, a, b, i + 1, 0)
  {
    forall p, q | 0 <= p <= |a| && 0 <= q <= |b| && p == i && j <= q
      ensures Cell(a, b, p, q) == Initial(|b|, p, q)
    {
      OutsideBand(a, b, p, q);
    }
  }

  /** One cell of the third pass: the cost at (i, j) plus the least of its three
      predecessors, all of them final. */
  method ComputeCell(result: array2<ExtReal>, a: seq<real>, b: seq<real>, i: nat, j: nat)
    requires Shaped(result, a, b) && InBand(|b|, i, j) && i <= |a|
    requires Filled(result, a, b, i, j)
    modifies result
    ensures Filled(result, a, b, i, j + 1)
  {
    Predecessor(result, a, b, i, j, i - 1, j);
    Predecessor(result, a, b, i, j, i, j - 1);
    Predecessor(result, a, b, i, j, i - 1, j - 1);
    var cost := Abs(a[i - 1] - b[j - 1]);
    var value := AddCost(cost, MinExt(result[i - 1, j], MinExt(result[i, j - 1], result[i - 1, j - 1])));
    CellRecurrence(a, b, i, j);
    StoreCell(result, a, b, i, j, value);
  }

  /** The recurrence at a band cell. */
  lemma CellRecurrence(a: seq<real>, b: seq<real>, i: nat, j: nat)
    requires InBand(|b|, i, j) && i <= |a|
    ensures Cell(a, b, i, j) == AddCost(Abs(a[i - 1] - b[j - 1]),
      MinExt(Cell(a, b, i - 1, j), MinExt(Cell(a, b, i, j - 1), Cell(a, b, i - 1, j - 1))))
  {
  }

  /** Writing the final value of (i, j) moves the third pass one cell on. */
  method StoreCell(result: array2<ExtReal>, a: seq<real>, b: seq<real>, i: nat, j: nat, value: ExtReal)
    requires Shaped(result, a, b) && i <= |a| && j <= |b|
    requires Filled(result, a, b, i, j) && value == Cell(a, b, i, j)
    modifies result
    ensures Filled(result, a, b, i, j + 1)
  {
    result[i, j] := value;
  }

  /** A cell before (i, j) holds its final value. */
  lemma Predecessor(result: array2<ExtReal>, a: seq<real>, b: seq<real>, i: nat, j: nat, p: nat, q: nat)
    requires Shaped(result, a, b) && p <= |a| && q <= |b| && Before(p, q, i, j)
    requires Filled(result, a, b, i, j)
    ensures result[p, q] == Cell(a, b, p, q)
  {
  }

  /** Every reached cell holds a non-negative cost. */
  lemma {:induction false} CellNonNegative(a: seq<real>, b: seq<real>, i: nat, j: nat)
    requires i <= |a| && j <= |b|
    ensures Cell(a, b, i, j).Finite? ==> Cell(a, b, i, j).value >= 0.0
    decreases i + j
  {
    if InBand(|b|, i, j) {
      CellNonNegative(a, b, i - 1, j);
      CellNonNegative(a, b, i, j - 1);
      CellNonNegative(a, b, i - 1, j - 1);
    }
  }

  /** Every band cell is reached: a band cell always has a reached predecessor. */
  lemma {:induction false} BandCellReached(a: seq<real>, b: seq<real>, i: nat, j: nat)
    requires i <= |a| && j <= |b| && InBand(|b|, i, j)
    ensures Cell(a, b, i, j).Finite?
    decreases i + j
  {
    if i == 1 && j == 1 {
    } else if i == 1 {
      BandCellReached(a, b, i, j - 1);
    } else if j == 1 {
      BandCellReached(a, b, i - 1, j);
    } else {
      BandCellReached(a, b, i - 1, j - 1);
    }
  }

  /** The final cell is reached, so the distance is not the sentinel, exactly
      when both vectors are empty, or both are non-empty and their lengths differ
      by at most WindowSize. */
  lemma DistanceReached(a: seq<real>, b: seq<real>)
    ensures Distance(a, b).Finite? <==>
      (|a| == 0 && |b| == 0) || (|a| >= 1 && |b| >= 1 && |a| - WindowSize <= |b| <= |a| + WindowSize)
  {
    if InBand(|b|, |a|, |b|) {
      BandCellReached(a, b, |a|, |b|);
    }
  }

  /** A reached distance is not negative. */
  lemma DistanceNonNegative(a: seq<real>, b: seq<real>)
    ensures Distance(a, b).Finite? ==> Distance(a, b).value >= 0.0
  {
    CellNonNegative(a, b, |a|, |b|);
  }

  /** A vector warps onto itself along the diagonal at no cost. */
  lemma {:induction false} DiagonalFree(a: seq<real>, i: nat)
    requires i <= |a|
    ensures Cell(a, a, i, i) == Finite(0.0)
  {
    if i > 0 {
      DiagonalFree(a, i - 1);
      CellNonNegative(a, a, i - 1, i);
      CellNonNegative(a, a, i, i - 1);
    }
  }

  lemma DistanceIdentical(a: seq<real>)
    ensures Distance(a, a) == Finite(0.0)
  {
    DiagonalFree(a, |a|);
  }

  /** Swapping both arguments of the innermost two minima. */
  lemma MinExtExchange(x: ExtReal, y: ExtReal, z: ExtReal)
    ensures MinExt(x, MinExt(y, z)) == MinExt(y, MinExt(x, z))
  {
  }

  lemma BandSymmetric(n1: nat, n2: nat, i: nat, j: nat)
    requires i <= n1 && j <= n2
    ensures InBand(n2, i, j) <==> InBand(n1, j, i)
  {
  }

  /** The band and the recurrence are symmetric in the two vectors. */
  lemma {:induction false} CellSymmetric(a: seq<real>, b: seq<real>, i: nat, j: nat)
    requires i <= |a| && j <= |b|
    ensures Cell(a, b, i, j) == Cell(b, a, j, i)
    decreases i + j, 1
  {
    BandSymmetric(|a|, |b|, i, j);
    if InBand(|b|, i, j) {
      BandCellSymmetric(a, b, i, j);
    } else {
      OutsideBand(a, b, i, j);
      OutsideBand(b, a, j, i);
    }
  }

  lemma {:induction false} BandCellSymmetric(a: seq<real>, b: seq<real>, i: nat, j: nat)
    requires i <= |a| && InBand(|b|, i, j) && InBand(|a|, j, i)
    ensures Cell(a, b, i, j) == Cell(b, a, j, i)
    decreases i + j, 0
  {
    CellSymmetric(a, b, i - 1, j);
    CellSymmetric(a, b, i, j - 1);
    CellSymmetric(a, b, i - 1, j - 1);
    SymmetricStep(a, b, i, j);
  }

  lemma SymmetricStep(a: seq<real>, b: seq<real>, i: nat, j: nat)
    requires i <= |a| && InBand(|b|, i, j) && InBand(|a|, j, i)
    requires Cell(a, b, i - 1, j) == Cell(b, a, j, i - 1)
    requires Cell(a, b, i, j - 1) == Cell(b, a, j - 1, i)
    requires Cell(a, b, i - 1, j - 1) == Cell(b, a, j - 1, i - 1)
    ensures Cell(a, b, i, j) == Cell(b, a, j, i)
  {
    CellRecurrence(a, b, i, j);
    CellRecurrence(b, a, j, i);
    assert Abs(a[i - 1] - b[j - 1]) == Abs(b[j - 1] - a[i - 1]);
    MinExtExchange(Cell(a, b, i - 1, j), Cell(a, b, i, j - 1), Cell(a, b, i - 1, j - 1));
  }

  lemma DistanceSymmetric(a: seq<real>, b: seq<real>)
    ensures Distance(a, b) == Distance(b, a)
  {
    CellSymmetric(a, b, |a|, |b|);
  }
}
