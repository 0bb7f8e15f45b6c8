/** Algorithms/DataProcessing.cs: the in-place normalisations, the median-band
    rectification and the fixed-window crop applied to a measurement before a
    distance is computed. A measurement is a row-major grid of `height` rows of
    `width` intensities. */
module DataProcessing {
  import opened Numerics
  import opened Extensions
  import opened Grid
  import opened Sorting

  datatype NormalizationType = None | Linear | MinMax | RawWise

  /** The grid shape passed alongside the data. */
  datatype Size = Size(width: nat, height: nat)

  /** Entries within this many median absolute deviations of the median are zeroed. */
  const RectificationMedianFactor: real := 3.0

  // ---------------------------------------------------------------- Normalize

  /** Linear: every element divided by the maximum. */
  function LinearScaled(s: seq<real>): (r: seq<real>)
    requires |s| > 0 && SeqMax(s) != 0.0
    ensures |r| == |s|
  {
    var max := SeqMax(s);
    seq(|s|, i requires 0 <= i < |s| => s[i] / max)
  }

  /** MinMax: every element mapped by (x - min) / (max - min). */
  function MinMaxScaled(s: seq<real>): (r: seq<real>)
    requires |s| > 0 && SeqMax(s) > SeqMin(s)
    ensures |r| == |s|
  {
    seq(|s|, i requires 0 <= i < |s| => UnitRange(s[i], SeqMin(s), SeqMax(s)))
  }

  /** (x - min) / (max - min). */
  function UnitRange(x: real, min: real, max: real): real
    requires min < max
  {
    (x - min) / (max - min)
  }

  /** Row r of a grid `w` elements wide. */
  function Row(s: seq<real>, w: nat, r: nat): (row: seq<real>)
    requires (r + 1) * w <= |s|
    ensures |row| == w
  {
    s[r * w .. r * w + w]
  }

  /** Every element x of a span replaced by (x - mean) / std. */
  function Standardized(x: seq<real>, mean: real, std: real): (z: seq<real>)
    requires |x| > 0 ==> std != 0.0
    ensures |z| == |x|
  {
    seq(|x|, i requires 0 <= i < |x| => (x[i] - mean) / std)
  }

  /** The population z-score of every element of a row. */
  function ZScore(m: MathLib, row: seq<real>): (z: seq<real>)
    requires |row| > 0 ==> m.sqrt(PopulationVariance(row)) != 0.0
    ensures |z| == |row|
  {
    Standardized(row, MeanOf(row, Option.None), m.sqrt(PopulationVariance(row)))
  }

  /** Row r exists and, when it is not empty, its standard deviation is not 0. */
  predicate RowScalable(m: MathLib, s: seq<real>, w: nat, r: nat) {
    (r + 1) * w <= |s| && (w > 0 ==> m.sqrt(PopulationVariance(Row(s, w, r))) != 0.0)
  }

  /** The first n rows, each replaced by its z-score. */
  function ZRows(m: MathLib, s: seq<real>, w: nat, n: nat): (z: seq<real>)
    requires n * w <= |s|
    requires forall r :: 0 <= r < n ==> RowScalable(m, s, w, r)
    ensures |z| == n * w
  {
    if n == 0 then []
    else
      assert RowScalable(m, s, w, n - 1);
      RowFits(n - 1, n, w);
      ZRows(m, s, w, n - 1) + ZScore(m, Row(s, w, n - 1))
  }

  /** Rows are standardised independently: element j of row r of ZRows is element j
      of the z-score of the original row r. */
  lemma {:induction false} ZRowsAt(m: MathLib, s: seq<real>, w: nat, n: nat, r: nat, j: nat)
    requires n * w <= |s|
    requires forall q :: 0 <= q < n ==> RowScalable(m, s, w, q)
    requires r < n && j < w
    ensures r * w + j < n * w && RowScalable(m, s, w, r)
    ensures ZRows(m, s, w, n)[r * w + j] == ZScore(m, Row(s, w, r))[j]
  {
    RowFits(r, n, w);
    if r < n - 1 {
      MulMono(n - 1, n, w);
      ZRowsAt(m, s, w, n - 1, r, j);
      ZRowsPrefixAt(m, s, w, n, r * w + j);
    } else {
      ZRowsLastAt(m, s, w, n, r, j);
    }
  }

  /** The rows before the last are those of ZRows of one row fewer. */
  lemma ZRowsPrefixAt(m: MathLib, s: seq<real>, w: nat, n: nat, k: nat)
    requires n * w <= |s| && n > 0
    requires forall q :: 0 <= q < n ==> RowScalable(m, s, w, q)
    requires k < (n - 1) * w
    ensures (n - 1) * w <= |s| && k < n * w
    ensures ZRows(m, s, w, n)[k] == ZRows(m, s, w, n - 1)[k]
  {
    RowFits(n - 1, n, w);
    assert RowScalable(m, s, w, n - 1);
    ConcatAt(ZRows(m, s, w, n - 1), ZScore(m, Row(s, w, n - 1)), k);
  }

  /** The last row of ZRows is the z-score of the last row. */
  lemma ZRowsLastAt(m: MathLib, s: seq<real>, w: nat, n: nat, r: nat, j: nat)
    requires n * w <= |s| && r == n - 1 && n > 0 && j < w
    requires forall q :: 0 <= q < n ==> RowScalable(m, s, w, q)
    ensures r * w + j < n * w && RowScalable(m, s, w, r)
    ensures ZRows(m, s, w, n)[r * w + j] == ZScore(m, Row(s, w, r))[j]
  {
    RowFits(r, n, w);
    assert RowScalable(m, s, w, r);
    ConcatAt(ZRows(m, s, w, r), ZScore(m, Row(s, w, r)), r * w + j);
  }

  /** When the chosen normalisation is defined: the maximum and the minimum need
      data, and the divisor (maximum, range, row deviation) must not be 0. */
  predicate NormalizeDefined(m: MathLib, s: seq<real>, size: Size, t: NormalizationType) {
    match t
    case None => true
    case Linear => |s| > 0 && SeqMax(s) != 0.0
    case MinMax => |s| > 0 && SeqMax(s) > SeqMin(s)
    case RawWise =>
      size.height * size.width <= |s| &&
      forall r :: 0 <= r < size.height ==> RowScalable(m, s, size.width, r)
  }

  /** The data after Normalize(data, size, t). */
  function Normalized(m: MathLib, s: seq<real>, size: Size, t: NormalizationType): (r: seq<real>)
    requires NormalizeDefined(m, s, size, t)
    ensures |r| == |s|
  {
    match t
    case None => s
    case Linear => LinearScaled(s)
    case MinMax => MinMaxScaled(s)
    case RawWise => ZRows(m, s, size.width, size.height) + s[size.height * size.width..]
  }

  /** RawWise: element j of row r (r < height) becomes element j of the row's
      z-score; elements past height * width keep their values. */
  lemma RawWiseAt(m: MathLib, s: seq<real>, size: Size, r: nat, j: nat)
    requires NormalizeDefined(m, s, size, RawWise)
    requires r < size.height && j < size.width
    ensures r * size.width + j < |s| && RowScalable(m, s, size.width, r)
    ensures Normalized(m, s, size, RawWise)[r * size.width + j] == ZScore(m, Row(s, size.width, r))[j]
  {
    ZRowsAt(m, s, size.width, size.height, r, j);
    var z := ZRows(m, s, size.width, size.height);
    assert (z + s[size.height * size.width..])[r * size.width + j] == z[r * size.width + j];
  }

  lemma RawWiseTail(m: MathLib, s: seq<real>, size: Size, k: nat)
    requires NormalizeDefined(m, s, size, RawWise)
    requires size.height * size.width <= k < |s|
    ensures Normalized(m, s, size, RawWise)[k] == s[k]
  {
  }

  /** Normalize overwrites `data` with the normalised values and touches nothing else. */
  method Normalize(m: MathLib, data: array<real>, size: Size, t: NormalizationType)
    requires NormalizeDefined(m, data[..], size, t)
    modifies data
    ensures data[..] == Normalized(m, old(data[..]), size, t)
  {
    match t
    case None =>
    case Linear => DivideByMax(data);
    case MinMax => ScaleToUnitRange(data);
    case RawWise => StandardizeRows(m, data, size);
  }

  /** The Linear branch: data[i] := data[i] / max. */
  method DivideByMax(data: array<real>)
    requires data.Length > 0 && SeqMax(data[..]) != 0.0
    modifies data
    ensures data[..] == LinearScaled(old(data[..]))
  {
    ghost var target := LinearScaled(data[..]);
    var max := SeqMax(data[..]);
    for i := 0 to data.Length
      invariant forall k :: 0 <= k < i ==> data[k] == target[k]
      invariant forall k :: i <= k < data.Length ==> data[k] == old(data[k])
    {
      data[i] := data[i] / max;
    }
  }

  /** The MinMax branch: data[i] := (data[i] - min) / (max - min). */
  method ScaleToUnitRange(data: array<real>)
    requires data.Length > 0 && SeqMax(data[..]) > SeqMin(data[..])
    modifies data
    ensures data[..] == MinMaxScaled(old(data[..]))
  {
    ghost var target := MinMaxScaled(data[..]);
    var min := SeqMin(data[..]);
    var max := SeqMax(data[..]);
    var range := max - min;
    for i := 0 to data.Length
      invariant forall k :: 0 <= k < i ==> data[k] == target[k]
      invariant forall k :: i <= k < data.Length ==> data[k] == old(data[k])
    {
      assert target[i] == UnitRange(data[i], min, max);
      data[i] := (data[i] - min) / range;
    }
  }

  /** With a positive maximum, Linear keeps the order of the elements (both ways),
      bounds every value by 1 and maps the maximal elements to 1. */
  lemma LinearScaledSpec(s: seq<real>)
    requires |s| > 0 && SeqMax(s) > 0.0
    ensures forall i :: 0 <= i < |s| ==> LinearScaled(s)[i] == s[i] / SeqMax(s)
    ensures forall i :: 0 <= i < |s| ==> LinearScaled(s)[i] <= 1.0
    ensures forall i :: 0 <= i < |s| && s[i] == SeqMax(s) ==> LinearScaled(s)[i] == 1.0
    ensures forall i, j :: 0 <= i < |s| && 0 <= j < |s| ==>
      (s[i] <= s[j] <==> LinearScaled(s)[i] <= LinearScaled(s)[j])
  {
    var max, r := SeqMax(s), LinearScaled(s);
    forall i | 0 <= i < |s|
      ensures r[i] <= 1.0 && (s[i] == max ==> r[i] == 1.0)
    {
      assert r[i] == s[i] / max && s[i] <= max;
      DivAtMostOne(s[i], max);
    }
    forall i, j | 0 <= i < |s| && 0 <= j < |s|
      ensures s[i] <= s[j] <==> r[i] <= r[j]
    {
      assert r[i] == s[i] / max && r[j] == s[j] / max;
      DivMonotone(s[i], s[j], max);
    }
  }

  /** With max > min, MinMax maps every value into [0, 1], the minimal elements to
      0 and the maximal ones to 1, keeping the order of the elements (both ways). */
  lemma MinMaxScaledSpec(s: seq<real>)
    requires |s| > 0 && SeqMax(s) > SeqMin(s)
    ensures forall i :: 0 <= i < |s| ==> 0.0 <= MinMaxScaled(s)[i] <= 1.0
    ensures forall i :: 0 <= i < |s| && s[i] == SeqMin(s) ==> MinMaxScaled(s)[i] == 0.0
    ensures forall i :: 0 <= i < |s| && s[i] == SeqMax(s) ==> MinMaxScaled(s)[i] == 1.0
    ensures forall i, j :: 0 <= i < |s| && 0 <= j < |s| ==>
      (s[i] <= s[j] <==> MinMaxScaled(s)[i] <= MinMaxScaled(s)[j])
  {
    var min, max, r := SeqMin(s), SeqMax(s), MinMaxScaled(s);
    forall i | 0 <= i < |s|
      ensures 0.0 <= r[i] <= 1.0 && (s[i] == min ==> r[i] == 0.0) && (s[i] == max ==> r[i] == 1.0)
    {
      UnitRangeBounds(s[i], min, max);
    }
    forall i, j | 0 <= i < |s| && 0 <= j < |s|
      ensures s[i] <= s[j] <==> r[i] <= r[j]
    {
      UnitRangeOrder(s[i], s[j], min, max);
    }
  }

  lemma UnitRangeBounds(x: real, min: real, max: real)
    requires min <= x <= max && min < max
    ensures var y := UnitRange(x, min, max);
      0.0 <= y <= 1.0 && (x == min ==> y == 0.0) && (x == max ==> y == 1.0)
  {
    DivUnit(x - min, max - min);
  }

  lemma UnitRangeOrder(x: real, y: real, min: real, max: real)
    requires min < max
    ensures x <= y <==> UnitRange(x, min, max) <= UnitRange(y, min, max)
  {
    DivMonotone(x - min, y - min, max - min);
  }

  /** None leaves the data as it is; every normalisation keeps the length. */
  lemma NormalizedNone(m: MathLib, s: seq<real>, size: Size)
    ensures Normalized(m, s, size, NormalizationType.None) == s
  {
  }

  /** The RawWise branch: each of the `height` rows of `width` elements is replaced,
      in place, by its z-score; elements past the last row are left alone. */
  method StandardizeRows(m: MathLib, data: array<real>, size: Size)
    requires NormalizeDefined(m, data[..], size, RawWise)
    modifies data
    ensures data[..] == ZRows(m, old(data[..]), size.width, size.height) + old(data[..])[size.height * size.width..]
  {
    ghost var s := data[..];
    for row := 0 to size.height
      invariant RowsDone(m, s, size, row, data[..])
    {
      StandardizeRow(m, data, size, row, s);
    }
  }

  /** The RawWise loop invariant: the first `row` rows are standardised and the
      rest of the data is as it was. */
  predicate RowsDone(m: MathLib, s: seq<real>, size: Size, row: nat, cur: seq<real>) {
    NormalizeDefined(m, s, size, RawWise) && row <= size.height &&
    (RowFits(row, size.height + 1, size.width);
     cur == ZRows(m, s, size.width, row) + s[row * size.width..])
  }

  /** Before row r is processed it still holds the original row r. */
  lemma CurrentRow(m: MathLib, s: seq<real>, size: Size, row: nat, before: seq<real>)
    requires row < size.height && RowsDone(m, s, size, row, before)
    ensures row * size.width + size.width <= |before|
    ensures before[row * size.width .. row * size.width + size.width] == Row(s, size.width, row)
    ensures size.width > 0 ==>
      m.sqrt(PopulationVariance(before[row * size.width .. row * size.width + size.width])) != 0.0
  {
    RowFits(row, size.height, size.width);
    assert RowScalable(m, s, size.width, row);
    assert |ZRows(m, s, size.width, row)| == row * size.width;
  }

  /** Processing row r extends the standardised prefix by that row. */
  lemma NextRow(m: MathLib, s: seq<real>, size: Size, row: nat, before: seq<real>, after: seq<real>)
    requires row < size.height && RowsDone(m, s, size, row, before)
    requires row * size.width + size.width <= |before|
    requires size.width > 0 ==>
      m.sqrt(PopulationVariance(before[row * size.width .. row * size.width + size.width])) != 0.0
    requires after == before[..row * size.width] +
      ZScore(m, before[row * size.width .. row * size.width + size.width]) + before[row * size.width + size.width..]
    ensures RowsDone(m, s, size, row + 1, after)
  {
    var w := size.width;
    CurrentRow(m, s, size, row, before);
    RowFits(row, size.height, w);
    var done := ZRows(m, s, w, row);
    assert |done| == row * w;
    assert before[..row * w] == done;
    assert before[row * w + w..] == s[row * w + w..];
    assert after == ZRows(m, s, w, row + 1) + s[(row + 1) * w..];
  }

  /** One pass of the RawWise row loop: the mean and the standard deviation of the
      row, then the row's elements standardised with them. */
  method StandardizeRow(m: MathLib, data: array<real>, size: Size, row: nat, ghost s: seq<real>)
    requires row < size.height && RowsDone(m, s, size, row, data[..])
    modifies data
    ensures RowsDone(m, s, size, row + 1, data[..])
  {
    ghost var before := data[..];
    CurrentRow(m, s, size, row, before);
    var w := size.width;
    var start := row * w;
    var rowData := data[start .. start + w];
    var mean, std := MeanAndStandardDeviation(m, rowData);
    StandardizeSpan(data, start, w, mean, std);
    NextRow(m, s, size, row, before, data[..]);
  }

  /** The inner loop of the RawWise branch: the `len` elements from `start` on
      become (x - mean) / std; nothing else changes. */
  method StandardizeSpan(data: array<real>, start: nat, len: nat, mean: real, std: real)
    requires start + len <= data.Length && (len > 0 ==> std != 0.0)
    modifies data
    ensures data[..] == old(data[..])[..start] + Standardized(old(data[..])[start..start + len], mean, std) +
      old(data[..])[start + len..]
  {
    ghost var s := data[..];
    for i := 0 to len
      invariant forall k :: start <= k < start + i ==> data[k] == (s[k] - mean) / std
      invariant forall k :: 0 <= k < data.Length && !(start <= k < start + i) ==> data[k] == s[k]
    {
      data[start + i] := (data[start + i] - mean) / std;
    }
    assert data[..] == s[..start] + Standardized(s[start..start + len], mean, std) + s[start + len..];
  }

  // ---------------------------------------------------------------- Rectify

  /** Every element minus `c`. */
  function Shifted(s: seq<real>, c: real): (r: seq<real>)
    ensures |r| == |s|
  {
    seq(|s|, i requires 0 <= i < |s| => s[i] - c)
  }

  /** Shifting non-empty data moves its median by the same amount: the median is
      translation-equivariant, so the data Rectify centres has median 0. (The
      median of no data is 0 whatever the shift.) */
  lemma MedianOfShifted(s: seq<real>, c: real)
    requires |s| > 0
    ensures Median(Shifted(s, c)) == Median(s) - c
    ensures Median(Shifted(s, Median(s))) == 0.0
  {
    ShiftMovesMedian(s, c);
    ShiftMovesMedian(s, Median(s));
  }

  lemma ShiftMovesMedian(s: seq<real>, c: real)
    requires |s| > 0
    ensures Median(Shifted(s, c)) == Median(s) - c
  {
    SortOfShifted(s, c);
    var t := Shifted(s, c);
    var sorted, shiftedSorted := SortReals(s), SortReals(t);
    var mid := |s| / 2;
    assert |t| == |s|;
    assert shiftedSorted[mid] == sorted[mid] - c;
    if |s| % 2 == 0 {
      assert shiftedSorted[mid - 1] == sorted[mid - 1] - c;
      assert Median(t) == (shiftedSorted[mid] + shiftedSorted[mid - 1]) / 2.0;
      assert Median(s) == (sorted[mid] + sorted[mid - 1]) / 2.0;
      assert ((sorted[mid] - c) + (sorted[mid - 1] - c)) / 2.0 == (sorted[mid] + sorted[mid - 1]) / 2.0 - c;
    } else {
      assert Median(t) == shiftedSorted[mid];
      assert Median(s) == sorted[mid];
    }
  }

  /** Sorting commutes with a shift, since `x - c <= y - c` exactly when `x <= y`. */
  lemma {:induction false} SortOfShifted(s: seq<real>, c: real)
    ensures SortReals(Shifted(s, c)) == Shifted(SortReals(s), c)
  {
    if s != [] {
      var t := Shifted(s, c);
      assert t[0] == s[0] - c && t[1..] == Shifted(s[1..], c);
      SortOfShifted(s[1..], c);
      InsertShifted(s[0], Sort(s[1..], RealLeq), c);
    }
  }

  lemma {:induction false} InsertShifted(x: real, u: seq<real>, c: real)
    ensures Insert(x - c, Shifted(u, c), RealLeq) == Shifted(Insert(x, u, RealLeq), c)
  {
    if u == [] {
      ShiftedCons(x, [], c);
    } else if x <= u[0] {
      InsertShiftedFront(x, u, c);
    } else {
      InsertShifted(x, u[1..], c);
      InsertShiftedLater(x, u, c);
    }
  }

  lemma InsertShiftedFront(x: real, u: seq<real>, c: real)
    requires u != [] && x <= u[0]
    ensures Insert(x - c, Shifted(u, c), RealLeq) == Shifted(Insert(x, u, RealLeq), c)
  {
    var v := Shifted(u, c);
    assert RealLeq(x - c, v[0]);
    assert Insert(x, u, RealLeq) == [x] + u;
    assert Insert(x - c, v, RealLeq) == [x - c] + v;
    ShiftedCons(x, u, c);
  }

  lemma InsertShiftedLater(x: real, u: seq<real>, c: real)
    requires u != [] && x > u[0]
    requires Insert(x - c, Shifted(u[1..], c), RealLeq) == Shifted(Insert(x, u[1..], RealLeq), c)
    ensures Insert(x - c, Shifted(u, c), RealLeq) == Shifted(Insert(x, u, RealLeq), c)
  {
    var v := Shifted(u, c);
    var w := Insert(x, u[1..], RealLeq);
    assert !RealLeq(x - c, v[0]);
    ShiftedTail(u, c);
    calc {
      Insert(x - c, v, RealLeq);
      [v[0]] + Insert(x - c, v[1..], RealLeq);
      [v[0]] + Insert(x - c, Shifted(u[1..], c), RealLeq);
      [v[0]] + Shifted(w, c);
      [u[0] - c] + Shifted(w, c);
      { ShiftedCons(u[0], w, c); }
      Shifted([u[0]] + w, c);
      Shifted(Insert(x, u, RealLeq), c);
    }
  }

  lemma ShiftedTail(u: seq<real>, c: real)
    requires u != []
    ensures Shifted(u, c)[0] == u[0] - c && Shifted(u, c)[1..] == Shifted(u[1..], c)
  {
    assert u == [u[0]] + u[1..];
    ShiftedCons(u[0], u[1..], c);
  }

  lemma ShiftedCons(h: real, u: seq<real>, c: real)
    ensures Shifted([h] + u, c) == [h - c] + Shifted(u, c)
  {
  }

  /** Every element's magnitude. */
  function Magnitudes(s: seq<real>): (r: seq<real>)
    ensures |r| == |s|
    ensures forall i :: 0 <= i < |s| ==> r[i] == Abs(s[i]) && r[i] >= 0.0
  {
    seq(|s|, i requires 0 <= i < |s| => Abs(s[i]))
  }

  /** The band half-width: three times the median absolute deviation from the median. */
  function Band(s: seq<real>): (band: real)
    ensures band >= 0.0
  {
    var mags := Magnitudes(Shifted(s, Median(s)));
    NonNegativeMedian(mags);
    RectificationMedianFactor * Median(mags)
  }

  lemma NonNegativeMedian(s: seq<real>)
    requires forall i :: 0 <= i < |s| ==> s[i] >= 0.0
    ensures Median(s) >= 0.0
  {
    MedianInRange(s);
    if |s| > 0 {
      var k :| 0 <= k < |s| && s[k] == SeqMin(s);
    }
  }

  /** One centred value pulled towards 0 by `band`, or zeroed inside the band. */
  function Shrink(c: real, band: real): real {
    if c > band then c - band else if c < -band then c + band else 0.0
  }

  /** The output of Rectify. */
  function Rectified(s: seq<real>): (r: seq<real>)
    ensures |r| == |s|
  {
    var median := Median(s);
    var band := Band(s);
    seq(|s|, i requires 0 <= i < |s| => Shrink(s[i] - median, band))
  }

  /** Rectify: a fresh array (the input is left alone) holding the median-centred
      data with the band around 0 removed. */
  method Rectify(data: array<real>) returns (result: array<real>)
    ensures fresh(result)
    ensures result[..] == Rectified(data[..])
  {
    ghost var s := data[..];
    var median := Median(data[..]);
    result := new real[data.Length](i reads data requires 0 <= i < data.Length => data[i]);
    assert result[..] == s;
    SubtractMedian(result, median);
    ghost var shifted := result[..];
    var t := AbsoluteCopy(result);
    var medianDeviation := RectificationMedianFactor * Median(t[..]);
    RemoveBand(result, medianDeviation);
    RectifiedFromSteps(s, shifted, t[..], result[..]);
  }

  /** The three loops of Rectify together compute Rectified. */
  lemma RectifiedFromSteps(s: seq<real>, shifted: seq<real>, mags: seq<real>, out: seq<real>)
    requires shifted == Shifted(s, Median(s)) && mags == Magnitudes(shifted) && |out| == |s|
    requires forall k :: 0 <= k < |out| ==> out[k] == Shrink(shifted[k], RectificationMedianFactor * Median(mags))
    ensures out == Rectified(s)
  {
    var band := RectificationMedianFactor * Median(mags);
    assert Band(s) == band;
    RectifiedElements(s);
    forall k | 0 <= k < |s|
      ensures out[k] == Rectified(s)[k]
    {
      assert shifted[k] == s[k] - Median(s);
    }
  }

  /** The first loop of Rectify: the median is subtracted from every element. */
  method SubtractMedian(result: array<real>, median: real)
    modifies result
    ensures result[..] == Shifted(old(result[..]), median)
  {
    for i := 0 to result.Length
      invariant forall k :: 0 <= k < i ==> result[k] == old(result[k]) - median
      invariant forall k :: i <= k < result.Length ==> result[k] == old(result[k])
    {
      result[i] := result[i] - median;
    }
  }

  /** The second loop of Rectify: a fresh copy of the magnitudes. */
  method AbsoluteCopy(result: array<real>) returns (t: array<real>)
    ensures fresh(t)
    ensures t[..] == Magnitudes(result[..])
  {
    t := new real[result.Length](i reads result requires 0 <= i < result.Length => result[i]);
    for i := 0 to t.Length
      modifies t
      invariant forall k :: 0 <= k < i ==> t[k] == Abs(result[k])
      invariant forall k :: i <= k < t.Length ==> t[k] == result[k]
    {
      t[i] := Abs(t[i]);
    }
  }

  /** The last loop of Rectify: values above the band are lowered by it, values
      below minus the band are raised by it, the rest become 0. */
  method RemoveBand(result: array<real>, medianDeviation: real)
    modifies result
    ensures forall k :: 0 <= k < result.Length ==> result[k] == Shrink(old(result[k]), medianDeviation)
  {
    for i := 0 to result.Length
      invariant forall k :: 0 <= k < i ==> result[k] == Shrink(old(result[k]), medianDeviation)
      invariant forall k :: i <= k < result.Length ==> result[k] == old(result[k])
    {
      if result[i] > medianDeviation {
        result[i] := result[i] - medianDeviation;
      } else if result[i] < -medianDeviation {
        result[i] := result[i] + medianDeviation;
      } else {
        result[i] := 0.0;
      }
    }
  }

  lemma RectifiedElements(s: seq<real>)
    ensures forall k :: 0 <= k < |s| ==> Rectified(s)[k] == Shrink(s[k] - Median(s), Band(s))
  {
  }

  /** An output is exactly 0 iff its centred input lies within the band. */
  lemma RectifiedZeroIff(s: seq<real>, i: nat)
    requires i < |s|
    ensures Rectified(s)[i] == 0.0 <==> Abs(s[i] - Median(s)) <= Band(s)
  {
    ShrinkZeroIff(s[i] - Median(s), Band(s));
  }

  lemma ShrinkZeroIff(c: real, band: real)
    ensures Shrink(c, band) == 0.0 <==> Abs(c) <= band
  {
  }

  /** Outside the band an output is its centred input moved towards 0 by the band:
      the sign is kept and the magnitude never grows. */
  lemma RectifiedShrinks(s: seq<real>, i: nat)
    requires i < |s|
    ensures var c, r := s[i] - Median(s), Rectified(s)[i];
      (c > Band(s) ==> r == c - Band(s) && 0.0 < r <= c) &&
      (c < -Band(s) ==> r == c + Band(s) && c <= r < 0.0) &&
      (r > 0.0 ==> c > 0.0) && (r < 0.0 ==> c < 0.0) && Abs(r) <= Abs(c)
  {
    ShrinkKeepsSign(s[i] - Median(s), Band(s));
  }

  lemma ShrinkKeepsSign(c: real, band: real)
    requires band >= 0.0
    ensures var r := Shrink(c, band);
      (c > band ==> r == c - band && 0.0 < r <= c) &&
      (c < -band ==> r == c + band && c <= r < 0.0) &&
      (r > 0.0 ==> c > 0.0) && (r < 0.0 ==> c < 0.0) && Abs(r) <= Abs(c)
  {
  }

  /** A flat signal has no deviation: median c, band 0, and every output is 0. */
  lemma RectifiedConstant(s: seq<real>, c: real)
    requires forall k :: 0 <= k < |s| ==> s[k] == c
    ensures forall k :: 0 <= k < |s| ==> Rectified(s)[k] == 0.0
  {
    if |s| > 0 {
      MedianOfConstant(s, c);
      var mags := Magnitudes(Shifted(s, c));
      MedianOfConstant(mags, 0.0);
      assert Band(s) == 0.0;
      RectifiedElements(s);
    }
  }

  /** Rectify([1, 2, 3, 4]): median 2.5, centred [-1.5, -0.5, 0.5, 1.5], median
      magnitude 1.0 and band 3.0, so every output is 0. */
  lemma RectifyOfOneToFour(s: seq<real>)
    requires |s| == 4 && s[0] == 1.0 && s[1] == 2.0 && s[2] == 3.0 && s[3] == 4.0
    ensures Median(s) == 2.5 && Band(s) == 3.0
    ensures Rectified(s) == seq(4, i => 0.0)
  {
    MedianOfSorted(s);
    var mags := Magnitudes(Shifted(s, 2.5));
    MedianOfCentredMagnitudes(mags);
    assert Band(s) == 3.0;
    forall i | 0 <= i < 4
      ensures Rectified(s)[i] == 0.0
    {
      RectifiedZeroIff(s, i);
    }
  }

  /** The magnitudes [1.5, 0.5, 0.5, 1.5], with the first and third swapped, are
      the ascending [0.5, 0.5, 1.5, 1.5], whose median is 1.0. */
  lemma MedianOfCentredMagnitudes(m: seq<real>)
    requires |m| == 4 && m[0] == 1.5 && m[1] == 0.5 && m[2] == 0.5 && m[3] == 1.5
    ensures Median(m) == 1.0
  {
    var t := m[0 := m[2]][2 := m[0]];
    assert multiset(t) == multiset(m);
    assert t[0] == 0.5 && t[1] == 0.5 && t[2] == 1.5 && t[3] == 1.5;
    SortRealsUnique(m, t);
  }

  // ---------------------------------------------------------------- Crop

  /** The fixed window: rows 0 .. min(59, H - 1) and columns
      min(10, W - 2) .. min(79, W - 1). */
  function IntMin(x: int, y: int): int {
    if x <= y then x else y
  }

  function CropFirstColumn(size: Size): int {
    IntMin(10, size.width - 2)
  }

  function CropLastColumn(size: Size): int {
    IntMin(79, size.width - 1)
  }

  function CropLastRow(size: Size): int {
    IntMin(59, size.height - 1)
  }

  function CropWidth(size: Size): (w: int)
    ensures w >= 2
  {
    CropLastColumn(size) + 1 - CropFirstColumn(size)
  }

  function CropHeight(size: Size): (h: nat)
    ensures h <= size.height && h <= 60
  {
    CropLastRow(size) + 1
  }

  /** The reads stay within the data: nothing is read when there are no rows;
      otherwise the grid needs at least two columns and the last cell of the
      window must exist. */
  predicate CropDefined(n: nat, size: Size) {
    size.height == 0 ||
    (size.width >= 2 && CropLastRow(size) * size.width + CropLastColumn(size) < n)
  }

  /** The cropped grid in row-major order. */
  function Cropped(s: seq<real>, size: Size): (r: seq<real>)
    requires CropDefined(|s|, size)
    ensures |r| == CropHeight(size) * CropWidth(size)
  {
    if size.height == 0 then []
    else
      CropWindowFits(|s|, size);
      Window(s, size.width, CropFirstColumn(size), CropWidth(size), CropHeight(size))
  }

  lemma CropWindowFits(n: nat, size: Size)
    requires CropDefined(n, size) && size.height > 0
    ensures CropFirstColumn(size) >= 0
    ensures WindowFits(n, size.width, CropFirstColumn(size), CropWidth(size), CropHeight(size))
  {
  }

  /** Crop: a fresh array holding the fixed window of the grid. */
  method Crop(data: array<real>, size: Size) returns (result: array<real>)
    requires CropDefined(data.Length, size)
    ensures fresh(result)
    ensures result[..] == Cropped(data[..], size)
  {
    var c0 := CropFirstColumn(size);
    var c1 := CropLastColumn(size);
    var r1 := CropLastRow(size);
    if r1 < 0 {
      result := new real[0];
    } else {
      CropWindowFits(data.Length, size);
      result := CopyWindow(data, size.width, c0, c1 + 1 - c0, r1 + 1);
    }
  }

  /** The window depends on the size alone: a 100 x 70 grid crops to 70 x 60. */
  lemma CropExample(s: seq<real>)
    requires |s| == 100 * 70
    ensures CropDefined(|s|, Size(100, 70))
    ensures CropWidth(Size(100, 70)) == 70 && CropHeight(Size(100, 70)) == 60
    ensures |Cropped(s, Size(100, 70))| == 4200
  {
  }

  /** A grid of W x H values with W >= 2 can always be cropped. */
  lemma CropDefinedOnFullGrid(n: nat, size: Size)
    requires size.width >= 2 && n == size.width * size.height
    ensures CropDefined(n, size)
  {
    if size.height > 0 {
      MulMono(CropLastRow(size) + 1, size.height, size.width);
    }
  }
}
