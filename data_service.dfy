/** Dms/DataService.cs: the data a plot shows for one measurement or for the
    difference of two: the positive or the (negated) negative intensities,
    optionally range-filtered, either as they are or as 2x2 diagonal gradients. */
module DataService {
  import opened Numerics
  import opened DmsMeasurement
  import FilterService
  import Grid

  /** Data.Source: which intensity grid of the scan. */
  datatype Source = Positive | Negative

  /** Data.Type: the values themselves or their gradients. */
  datatype DataType = Raw | Gradient

  /** The filter selector, with the members the service branches on. */
  datatype Filter = Unfiltered | Range

  /** System.Windows.Vector. */
  datatype Vector = Vector(x: real, y: real)

  /** DataArray(Rows, Columns, Values). */
  datatype DataArray = DataArray(rows: nat, columns: nat, values: array<real>)

  /** DataGradient(Rows, Columns, Values). */
  datatype DataGradient = DataGradient(rows: nat, columns: nat, values: array<Vector>)

  // ---------------------------------------------------------------- shape

  /** IsSameShape: equal Height and equal Width. */
  predicate IsSameShape(dms1: Dms, dms2: Dms) {
    dms1.height == dms2.height && dms1.width == dms2.width
  }

  /** Having the same shape is an equivalence. */
  lemma SameShapeIsEquivalence(a: Dms, b: Dms, c: Dms)
    ensures IsSameShape(a, a)
    ensures IsSameShape(a, b) ==> IsSameShape(b, a)
    ensures IsSameShape(a, b) && IsSameShape(b, c) ==> IsSameShape(a, c)
  {
  }

  // ---------------------------------------------------------------- RetrieveData

  /** Elementwise negation, `Select(v => -v)`. */
  function Negated(s: seq<real>): (r: seq<real>)
    ensures |r| == |s|
  {
    seq(|s|, i requires 0 <= i < |s| => -s[i])
  }

  /** Negating twice gives the data back. */
  lemma NegatedTwice(s: seq<real>)
    ensures Negated(Negated(s)) == s
  {
  }

  /** The intensities RetrieveData returns, as a sequence. */
  function Retrieved(dms: Dms, source: Source): (r: seq<real>)
    reads dms.data, dms.intensityBottom
  {
    match source
    case Positive => dms.data[..]
    case Negative => Negated(dms.intensityBottom[..])
  }

  /** RetrieveData: the scan's own IntensityTop array, or a new array with the
      negated IntensityBottom. */
  method RetrieveData(dms: Dms, source: Source) returns (r: array<real>)
    ensures source == Positive ==> r == dms.data
    ensures source == Negative ==> fresh(r)
    ensures r[..] == Retrieved(dms, source)
  {
    match source
    case Positive =>
      r := dms.data;
    case Negative =>
      var bottom := dms.intensityBottom;
      r := new real[bottom.Length](i reads bottom requires 0 <= i < bottom.Length => -bottom[i]);
  }

  // ---------------------------------------------------------------- ApplyFilter

  /** The range filter reads Min and Max of the data when a limit is set. */
  predicate FilterDefined(s: seq<real>, filter: Filter, settings: FilterService.FilterSettings) {
    filter == Range ==> FilterService.FilterDefined(s, settings.from, settings.to)
  }

  /** What ApplyFilter returns, as a sequence. */
  function Filtered(s: seq<real>, filter: Filter, settings: FilterService.FilterSettings): (r: seq<real>)
    requires FilterDefined(s, filter, settings)
    ensures |r| == |s|
  {
    match filter
    case Unfiltered => s
    case Range => FilterService.Filtered(s, settings.from, settings.to, settings.limitType)
  }

  /** The default settings set no limit, so data passes either filter unchanged. */
  lemma DefaultSettingsKeepData(s: seq<real>, filter: Filter)
    ensures FilterDefined(s, filter, FilterService.Default)
    ensures Filtered(s, filter, FilterService.Default) == s
  {
    FilterService.UnboundedKeepsData(s, None, None, FilterService.Absolute);
  }

  /** ApplyFilter: Unfiltered hands the array back; Range runs the range filter. */
  method ApplyFilter(data: array<real>, filter: Filter, settings: FilterService.FilterSettings)
    returns (r: array<real>)
    requires FilterDefined(data[..], filter, settings)
    ensures filter == Unfiltered ==> r == data
    ensures r == data || fresh(r)
    ensures r[..] == Filtered(data[..], filter, settings)
  {
    match filter
    case Unfiltered =>
      r := data;
    case Range =>
      r := FilterService.ApplyFilter(data, settings.from, settings.to, settings.limitType);
  }

  // ---------------------------------------------------------------- raw difference

  /** Element i of the raw difference: the second value minus the first. */
  function Difference(s1: seq<real>, s2: seq<real>): (r: seq<real>)
    requires |s1| <= |s2|
    ensures |r| == |s1|
  {
    seq(|s1|, i requires 0 <= i < |s1| => s2[i] - s1[i])
  }

  /** Adding the difference to the first grid gives the second; swapping the
      grids negates the difference; a grid differs from itself by zeros. */
  lemma DifferenceSpec(s1: seq<real>, s2: seq<real>)
    requires |s1| == |s2|
    ensures forall i :: 0 <= i < |s1| ==> s1[i] + Difference(s1, s2)[i] == s2[i]
    ensures Difference(s2, s1) == Negated(Difference(s1, s2))
    ensures Difference(s1, s1) == seq(|s1|, i => 0.0)
  {
  }

  /** GetDifference(float[], float[], rows, columns). */
  method GetRawDifference(data1: array<real>, data2: array<real>, rows: nat, columns: nat)
    returns (d: DataArray)
    requires data1.Length <= data2.Length
    ensures fresh(d.values) && d.rows == rows && d.columns == columns
    ensures d.values[..] == Difference(data1[..], data2[..])
  {
    var result := new real[data1.Length];
    for i := 0 to data1.Length
      invariant forall k :: 0 <= k < i ==> result[k] == data2[k] - data1[k]
    {
      result[i] := data2[i] - data1[i];
    }
    d := DataArray(rows, columns, result);
  }

  // ---------------------------------------------------------------- gradient

  /** The grid has a row and a column, so the array size (columns - 1) * (rows - 1)
      is not negative; when there is a cell to compute, its rows * columns values
      exist. */
  predicate GradientDefined(n: nat, rows: nat, columns: nat) {
    rows >= 1 && columns >= 1 && (rows == 1 || columns == 1 || rows * columns <= n)
  }

  /** The four corners of cell (r, c) lie in the data. */
  lemma CornersInData(n: nat, rows: nat, columns: nat, r: nat, c: nat)
    requires GradientDefined(n, rows, columns) && r + 1 < rows && c + 1 < columns
    ensures (r + 1) * columns == r * columns + columns
    ensures (r + 1) * columns + c + 1 < n
  {
    Grid.RowFits(r, rows, columns);
    Grid.RowFits(r + 1, rows, columns);
  }

  /** The gradient of cell (r, c): along the main diagonal and along the
      anti-diagonal of its 2x2 neighbourhood. */
  function GradientAt(d: seq<real>, rows: nat, columns: nat, r: nat, c: nat): Vector
    requires GradientDefined(|d|, rows, columns) && r + 1 < rows && c + 1 < columns
  {
    CornersInData(|d|, rows, columns, r, c);
    Vector(d[(r + 1) * columns + c + 1] - d[r * columns + c], d[r * columns + c + 1] - d[(r + 1) * columns + c])
  }

  /** Flat index k of a grid `w` wide: row k / w and column k % w. */
  lemma IndexSplit(k: nat, h: nat, w: nat)
    requires k < w * h
    ensures w > 0 && k / w < h && k % w < w
  {
    assert w * h == h * w;
    var q, m := k / w, k % w;
    assert k == q * w + m && 0 <= m;
    assert (q - h + 1) * w == q * w - h * w + w;
    MulAwayFromZero(q - h + 1, w);
  }

  /** Row r, column c of a grid `w` wide is flat index r * w + c. */
  lemma IndexJoin(r: nat, c: nat, h: nat, w: nat)
    requires r < h && c < w
    ensures r * w + c < w * h
    ensures (r * w + c) / w == r && (r * w + c) % w == c
  {
    Grid.RowFits(r, h, w);
    assert w * h == h * w;
    var k := r * w + c;
    var q, m := k / w, k % w;
    assert k == q * w + m && 0 <= m < w;
    assert (q - r) * w == c - m;
    MulAwayFromZero(q - r, w);
  }

  /** A non-zero whole multiple of w is at least w away from 0. */
  lemma MulAwayFromZero(d: int, w: nat)
    ensures d >= 1 ==> d * w >= w
    ensures d <= -1 ==> d * w + w <= 0
  {
    if d >= 1 {
      Grid.MulMono(0, d - 1, w);
      assert d * w == w + (d - 1) * w;
    } else if d <= -1 {
      Grid.MulMono(0, -d - 1, w);
      assert d * w + w + (-d - 1) * w == 0;
    }
  }

  /** GetGradient, as a sequence: (columns - 1) * (rows - 1) vectors, row by row. */
  function GradientOf(d: seq<real>, rows: nat, columns: nat): (g: seq<Vector>)
    requires GradientDefined(|d|, rows, columns)
    ensures |g| == (columns - 1) * (rows - 1)
  {
    var h, w := rows - 1, columns - 1;
    seq(w * h, k requires 0 <= k < w * h =>
      IndexSplit(k, h, w);
      GradientAt(d, rows, columns, k / w, k % w))
  }

  /** Vector (r, c) of the gradient is the gradient of cell (r, c). */
  lemma GradientIndex(d: seq<real>, rows: nat, columns: nat, r: nat, c: nat)
    requires GradientDefined(|d|, rows, columns) && r + 1 < rows && c + 1 < columns
    ensures r * (columns - 1) + c < |GradientOf(d, rows, columns)|
    ensures GradientOf(d, rows, columns)[r * (columns - 1) + c] == GradientAt(d, rows, columns, r, c)
  {
    IndexJoin(r, c, rows - 1, columns - 1);
  }

  /** A constant grid has no gradient. */
  lemma GradientOfConstant(d: seq<real>, rows: nat, columns: nat, v: real)
    requires GradientDefined(|d|, rows, columns)
    requires forall i :: 0 <= i < |d| ==> d[i] == v
    ensures forall k :: 0 <= k < |GradientOf(d, rows, columns)| ==> GradientOf(d, rows, columns)[k] == Vector(0.0, 0.0)
  {
    forall k | 0 <= k < |GradientOf(d, rows, columns)|
      ensures GradientOf(d, rows, columns)[k] == Vector(0.0, 0.0)
    {
      VectorOfConstant(d, rows, columns, v, k);
    }
  }

  lemma VectorOfConstant(d: seq<real>, rows: nat, columns: nat, v: real, k: nat)
    requires GradientDefined(|d|, rows, columns) && k < |GradientOf(d, rows, columns)|
    requires forall i :: 0 <= i < |d| ==> d[i] == v
    ensures GradientOf(d, rows, columns)[k] == Vector(0.0, 0.0)
  {
    IndexSplit(k, rows - 1, columns - 1);
    CornersInData(|d|, rows, columns, k / (columns - 1), k % (columns - 1));
  }

  /** Adding a constant to every value leaves the gradient as it is. */
  lemma GradientShiftInvariant(d: seq<real>, e: seq<real>, rows: nat, columns: nat, shift: real)
    requires |d| == |e| && GradientDefined(|d|, rows, columns)
    requires forall i :: 0 <= i < |d| ==> e[i] == d[i] + shift
    ensures GradientOf(e, rows, columns) == GradientOf(d, rows, columns)
  {
    forall k | 0 <= k < |GradientOf(d, rows, columns)|
      ensures GradientOf(e, rows, columns)[k] == GradientOf(d, rows, columns)[k]
    {
      VectorShiftInvariant(d, e, rows, columns, shift, k);
    }
  }

  lemma VectorShiftInvariant(d: seq<real>, e: seq<real>, rows: nat, columns: nat, shift: real, k: nat)
    requires |d| == |e| && GradientDefined(|d|, rows, columns) && k < |GradientOf(d, rows, columns)|
    requires forall i :: 0 <= i < |d| ==> e[i] == d[i] + shift
    ensures GradientOf(e, rows, columns)[k] == GradientOf(d, rows, columns)[k]
  {
    IndexSplit(k, rows - 1, columns - 1);
    CellShiftInvariant(d, e, rows, columns, shift, k / (columns - 1), k % (columns - 1));
  }

  lemma CellShiftInvariant(d: seq<real>, e: seq<real>, rows: nat, columns: nat, shift: real, r: nat, c: nat)
    requires |d| == |e| && GradientDefined(|d|, rows, columns) && r + 1 < rows && c + 1 < columns
    requires forall i :: 0 <= i < |d| ==> e[i] == d[i] + shift
    ensures GradientAt(e, rows, columns, r, c) == GradientAt(d, rows, columns, r, c)
  {
    CornersInData(|d|, rows, columns, r, c);
  }

  /** The first n vectors of `cur` are those of `g`. */
  predicate Filled(cur: seq<Vector>, g: seq<Vector>, n: nat) {
    |cur| == |g| && n <= |cur| && forall k :: 0 <= k < n ==> cur[k] == g[k]
  }

  lemma FilledAll(cur: seq<Vector>, g: seq<Vector>)
    requires Filled(cur, g, |g|)
    ensures cur == g
  {
  }

  /** GetGradient: a new array of (columns - 1) * (rows - 1) vectors, filled row
      by row. Every read of the data is in bounds. */
  method GetGradient(dms: array<real>, rows: nat, columns: nat) returns (g: DataGradient)
    requires GradientDefined(dms.Length, rows, columns)
    ensures fresh(g.values) && g.rows == rows - 1 && g.columns == columns - 1
    ensures g.values[..] == GradientOf(dms[..], rows, columns)
  {
    var width := columns - 1;
    var height := rows - 1;
    var result := new Vector[width * height];
    ghost var gradient := GradientOf(dms[..], rows, columns);
    assert |gradient| == result.Length;
    GradientRows(dms, rows, columns, result, gradient);
    FilledAll(result[..], gradient);
    g := DataGradient(height, width, result);
  }

  /** The outer loop of GetGradient, over the rows. */
  method GradientRows(dms: array<real>, rows: nat, columns: nat, result: array<Vector>, ghost g: seq<Vector>)
    requires GradientDefined(dms.Length, rows, columns)
    requires g == GradientOf(dms[..], rows, columns) && result.Length == |g|
    modifies result
    ensures Filled(result[..], g, |g|)
  {
    var width := columns - 1;
    var height := rows - 1;
    for r := 0 to height
      invariant Filled(result[..], g, r * width)
    {
      GradientRow(dms, rows, columns, result, r, g);
    }
    assert height * width == width * height;
  }

  /** One pass of the outer loop of GetGradient: row r of the vectors. */
  method GradientRow(dms: array<real>, rows: nat, columns: nat, result: array<Vector>, r: nat,
                     ghost g: seq<Vector>)
    requires GradientDefined(dms.Length, rows, columns) && r + 1 < rows
    requires g == GradientOf(dms[..], rows, columns)
    requires Filled(result[..], g, r * (columns - 1))
    modifies result
    ensures Filled(result[..], g, (r + 1) * (columns - 1))
  {
    var width := columns - 1;
    for c := 0 to width
      invariant Filled(result[..], g, r * width + c)
    {
      GradientCell(dms, rows, columns, result, r, c, g);
    }
    assert r * width + width == (r + 1) * width;
  }

  /** One pass of the inner loop of GetGradient: the vector of cell (r, c). */
  method GradientCell(dms: array<real>, rows: nat, columns: nat, result: array<Vector>, r: nat, c: nat,
                      ghost g: seq<Vector>)
    requires GradientDefined(dms.Length, rows, columns) && r + 1 < rows && c + 1 < columns
    requires g == GradientOf(dms[..], rows, columns)
    requires Filled(result[..], g, r * (columns - 1) + c)
    modifies result
    ensures Filled(result[..], g, r * (columns - 1) + c + 1)
  {
    var width := columns - 1;
    CornersInData(dms.Length, rows, columns, r, c);
    GradientIndex(dms[..], rows, columns, r, c);
    var v := Vector(
      dms[(r + 1) * columns + c + 1] - dms[r * columns + c],
      dms[r * columns + c + 1] - dms[(r + 1) * columns + c]
    );
    assert v == g[r * width + c];
    result[r * width + c] := v;
  }

  // ---------------------------------------------------------------- gradient difference

  /** The squared length of the difference of two vectors. */
  function SquaredDistance(v1: Vector, v2: Vector): real {
    SumOfSquares(v1.x - v2.x, v1.y - v2.y)
  }

  /** The length of the difference of two vectors. */
  function VectorDistance(m: MathLib, v1: Vector, v2: Vector): real {
    m.sqrt(SquaredDistance(v1, v2))
  }

  /** The squared distance is symmetric, never negative, and zero between
      equal vectors. */
  lemma SquaredDistanceSpec(v1: Vector, v2: Vector)
    ensures SquaredDistance(v1, v2) >= 0.0
    ensures SquaredDistance(v1, v2) == SquaredDistance(v2, v1)
    ensures SquaredDistance(v1, v1) == 0.0
  {
    SumOfSquaresNonNegative(v1.x - v2.x, v1.y - v2.y);
    SumOfSquaresNegated(v1.x - v2.x, v1.y - v2.y);
  }

  /** The distance of two vectors is non-negative, symmetric, and zero between
      equal vectors. */
  lemma VectorDistanceSpec(m: MathLib, v1: Vector, v2: Vector)
    requires Lawful(m)
    ensures VectorDistance(m, v1, v2) >= 0.0
    ensures VectorDistance(m, v1, v2) == VectorDistance(m, v2, v1)
    ensures VectorDistance(m, v1, v1) == 0.0
  {
    SquaredDistanceSpec(v1, v2);
  }

  /** GetDifference of two gradients, as a sequence. */
  function GradientDistance(m: MathLib, g1: seq<Vector>, g2: seq<Vector>): (r: seq<real>)
    requires |g1| <= |g2|
    ensures |r| == |g1|
  {
    seq(|g1|, i requires 0 <= i < |g1| => VectorDistance(m, g1[i], g2[i]))
  }

  /** GetDifference(DataGradient, DataGradient): the elementwise distances, in
      a new array with the first gradient's shape. */
  method GetGradientDifference(m: MathLib, gradient1: DataGradient, gradient2: DataGradient)
    returns (d: DataArray)
    requires gradient1.values.Length <= gradient2.values.Length
    ensures fresh(d.values) && d.rows == gradient1.rows && d.columns == gradient1.columns
    ensures d.values[..] == GradientDistance(m, gradient1.values[..], gradient2.values[..])
  {
    var size := gradient1.values.Length;
    var result := new real[size];
    for i := 0 to size
      invariant forall k :: 0 <= k < i ==> result[k] == VectorDistance(m, gradient1.values[k], gradient2.values[k])
    {
      var v1 := gradient1.values[i];
      var v2 := gradient2.values[i];
      result[i] := m.sqrt(SquaredDistance(v1, v2));
    }
    d := DataArray(gradient1.rows, gradient1.columns, result);
  }

  // ---------------------------------------------------------------- ToDataArray

  /** The mean absolute component of a vector. */
  function Magnitude(v: Vector): real {
    (Abs(v.x) + Abs(v.y)) / 2.0
  }

  /** The magnitude is non-negative, and zero exactly for the zero vector. */
  lemma MagnitudeSpec(v: Vector)
    ensures Magnitude(v) >= 0.0
    ensures Magnitude(v) == 0.0 <==> v == Vector(0.0, 0.0)
  {
  }

  function Magnitudes(g: seq<Vector>): (r: seq<real>)
    ensures |r| == |g|
  {
    seq(|g|, i requires 0 <= i < |g| => Magnitude(g[i]))
  }

  /** DataGradient.ToDataArray: the magnitude of each of the Rows * Columns
      vectors, in a new array of the same shape. */
  method ToDataArray(gradient: DataGradient) returns (a: DataArray)
    requires gradient.columns * gradient.rows <= gradient.values.Length
    ensures fresh(a.values) && a.rows == gradient.rows && a.columns == gradient.columns
    ensures a.values[..] == Magnitudes(gradient.values[..gradient.columns * gradient.rows])
  {
    var size := gradient.columns * gradient.rows;
    var result := new real[size];
    for i := 0 to size
      invariant forall k :: 0 <= k < i ==> result[k] == Magnitude(gradient.values[k])
    {
      var v := gradient.values[i];
      result[i] := (Abs(v.x) + Abs(v.y)) / 2.0;
    }
    a := DataArray(gradient.rows, gradient.columns, result);
  }

  // ---------------------------------------------------------------- GetRaw and GetDifference

  /** `filterSettings ?? FilterSettings.Default`. */
  function SettingsOrDefault(settings: Option<FilterService.FilterSettings>): FilterService.FilterSettings {
    match settings
    case Some(s) => s
    case None => FilterService.Default
  }

  /** The retrieved and filtered data of one measurement. */
  function Prepared(dms: Dms, source: Source, filter: Filter, settings: FilterService.FilterSettings): (r: seq<real>)
    reads dms.data, dms.intensityBottom
    requires FilterDefined(Retrieved(dms, source), filter, settings)
    ensures |r| == |Retrieved(dms, source)|
  {
    Filtered(Retrieved(dms, source), filter, settings)
  }

  /** What a measurement must offer for the requested data type: the gradient
      reads all Height * Width values. */
  predicate PreparedDefined(dms: Dms, dataType: DataType, source: Source, filter: Filter,
                            settings: FilterService.FilterSettings)
    reads dms.data, dms.intensityBottom
  {
    FilterDefined(Retrieved(dms, source), filter, settings)
    && (dataType == Gradient ==> GradientDefined(|Retrieved(dms, source)|, dms.height, dms.width))
  }

  /** The values GetRaw returns for the filtered data of a rows x columns grid. */
  function RawValues(dataType: DataType, f: seq<real>, rows: nat, columns: nat): seq<real>
    requires dataType == Gradient ==> GradientDefined(|f|, rows, columns)
  {
    match dataType
    case Raw => f
    case Gradient => Magnitudes(GradientOf(f, rows, columns))
  }

  /** GetRaw: the filtered data itself, or the magnitudes of its gradients. */
  method GetRaw(dms: Dms, dataType: DataType, source: Source, filter: Filter,
                filterSettings: Option<FilterService.FilterSettings>) returns (a: DataArray)
    requires PreparedDefined(dms, dataType, source, filter, SettingsOrDefault(filterSettings))
    ensures dataType == Raw ==> a.rows == dms.height && a.columns == dms.width
    ensures dataType == Gradient ==> a.rows == dms.height - 1 && a.columns == dms.width - 1
    ensures a.values[..] == RawValues(dataType, Prepared(dms, source, filter, SettingsOrDefault(filterSettings)),
                                      dms.height, dms.width)
  {
    var raw := RetrieveData(dms, source);
    var filtered := ApplyFilter(raw, filter, SettingsOrDefault(filterSettings));
    match dataType
    case Raw =>
      a := DataArray(dms.height, dms.width, filtered);
    case Gradient =>
      var g := GetGradient(filtered, dms.height, dms.width);
      assert g.columns * g.rows == g.values.Length;
      a := ToDataArray(g);
      assert g.values[..][..g.columns * g.rows] == g.values[..];
  }

  /** Whether two grids can be compared: the raw difference reads the second
      grid at every index of the first, the gradient difference needs both
      gradients. */
  predicate DifferenceDefined(dataType: DataType, f1: seq<real>, f2: seq<real>, rows: nat, columns: nat) {
    match dataType
    case Raw => |f1| <= |f2|
    case Gradient => GradientDefined(|f1|, rows, columns) && GradientDefined(|f2|, rows, columns)
  }

  /** The values of the difference of two filtered grids. */
  function DifferenceOf(m: MathLib, dataType: DataType, f1: seq<real>, f2: seq<real>, rows: nat, columns: nat): seq<real>
    requires DifferenceDefined(dataType, f1, f2, rows, columns)
  {
    match dataType
    case Raw => Difference(f1, f2)
    case Gradient => GradientDistance(m, GradientOf(f1, rows, columns), GradientOf(f2, rows, columns))
  }

  /** Swapping the two measurements negates the raw difference and leaves the
      gradient difference as it is. */
  lemma DifferenceOfSwap(m: MathLib, dataType: DataType, f1: seq<real>, f2: seq<real>, rows: nat, columns: nat)
    requires |f1| == |f2| && DifferenceDefined(dataType, f1, f2, rows, columns)
    ensures dataType == Raw ==> DifferenceOf(m, dataType, f2, f1, rows, columns) == Negated(DifferenceOf(m, dataType, f1, f2, rows, columns))
    ensures dataType == Gradient ==> DifferenceOf(m, dataType, f2, f1, rows, columns) == DifferenceOf(m, dataType, f1, f2, rows, columns)
  {
    if dataType == Raw {
      DifferenceSpec(f1, f2);
    } else {
      var g1, g2 := GradientOf(f1, rows, columns), GradientOf(f2, rows, columns);
      forall i | 0 <= i < |g1|
        ensures VectorDistance(m, g2[i], g1[i]) == VectorDistance(m, g1[i], g2[i])
      {
        var dx, dy := g1[i].x - g2[i].x, g1[i].y - g2[i].y;
        assert (g2[i].x - g1[i].x) * (g2[i].x - g1[i].x) == dx * dx;
        assert (g2[i].y - g1[i].y) * (g2[i].y - g1[i].y) == dy * dy;
      }
    }
  }

  /** A grid differs from itself by zeros, raw or as gradients. */
  lemma DifferenceOfSelf(m: MathLib, dataType: DataType, f: seq<real>, rows: nat, columns: nat)
    requires Lawful(m) && DifferenceDefined(dataType, f, f, rows, columns)
    ensures forall i :: 0 <= i < |DifferenceOf(m, dataType, f, f, rows, columns)| ==>
              DifferenceOf(m, dataType, f, f, rows, columns)[i] == 0.0
  {
    if dataType == Gradient {
      var g := GradientOf(f, rows, columns);
      forall i | 0 <= i < |g|
        ensures VectorDistance(m, g[i], g[i]) == 0.0
      {
        VectorDistanceSpec(m, g[i], g[i]);
      }
    }
  }

  /** GetDifference(Dms?, Dms?, ...): null when a measurement is missing or the
      shapes differ; otherwise the difference of the two filtered grids. */
  method GetDifference(m: MathLib, dms1: Dms?, dms2: Dms?, dataType: DataType, source: Source, filter: Filter,
                       filterSettings: FilterService.FilterSettings) returns (r: Option<DataArray>)
    requires dms1 != null && dms2 != null && IsSameShape(dms1, dms2) ==>
               PreparedDefined(dms1, dataType, source, filter, filterSettings)
               && PreparedDefined(dms2, dataType, source, filter, filterSettings)
               && DifferenceDefined(dataType, Prepared(dms1, source, filter, filterSettings),
                                    Prepared(dms2, source, filter, filterSettings), dms1.height, dms1.width)
    ensures r.None? <==> dms1 == null || dms2 == null || !IsSameShape(dms1, dms2)
    ensures r.Some? ==> fresh(r.value.values)
    ensures r.Some? && dataType == Raw ==> r.value.rows == dms1.height && r.value.columns == dms1.width
    ensures r.Some? && dataType == Gradient ==> r.value.rows == dms1.height - 1 && r.value.columns == dms1.width - 1
    ensures r.Some? ==> r.value.values[..] == DifferenceOf(m, dataType, Prepared(dms1, source, filter, filterSettings),
                                                          Prepared(dms2, source, filter, filterSettings),
                                                          dms1.height, dms1.width)
  {
    if dms1 == null || dms2 == null || !IsSameShape(dms1, dms2) {
      return None;
    }
    var raw1 := RetrieveData(dms1, source);
    var raw2 := RetrieveData(dms2, source);
    var filtered1 := ApplyFilter(raw1, filter, filterSettings);
    var filtered2 := ApplyFilter(raw2, filter, filterSettings);
    match dataType
    case Raw =>
      var d := GetRawDifference(filtered1, filtered2, dms1.height, dms1.width);
      r := Some(d);
    case Gradient =>
      var g1 := GetGradient(filtered1, dms1.height, dms1.width);
      var g2 := GetGradient(filtered2, dms2.height, dms2.width);
      var d := GetGradientDifference(m, g1, g2);
      r := Some(d);
  }
}
