/** Dms/FilterService.cs: the range filter. Values below the lower limit are raised
    to it and values above the upper limit are lowered to it; the limits come
    from the optional From/To settings, read according to the limit type. */
module FilterService {
  import opened Numerics
  import Extensions

  /** DataLimitType: how From and To are read. */
  datatype LimitType = Absolute | RelativeToMinimum | RelativeToMedian | Percentage

  /** FilterSettings(From, To, LimitType), with null as None. */
  datatype FilterSettings = FilterSettings(from: Option<real>, to: Option<real>, limitType: LimitType)

  /** FilterSettings.Default. */
  const Default: FilterSettings := FilterSettings(None, None, Absolute)

  /** `x ?? d`. */
  function OrElse(x: Option<real>, d: real): real {
    match x
    case Some(v) => v
    case None => d
  }

  /** Neither limit is set: the filter hands its input back. */
  predicate Unbounded(from: Option<real>, to: Option<real>) {
    from.None? && to.None?
  }

  /** The filter reads Min and Max of the data (LINQ MinMax, which fails on an
      empty sequence) whenever a limit is set. */
  predicate FilterDefined(data: seq<real>, from: Option<real>, to: Option<real>) {
    !Unbounded(from, to) ==> |data| > 0
  }

  /** The (low, high) limits for the limit type, read against the data's
      minimum, maximum and median. */
  function Limits(data: seq<real>, from: Option<real>, to: Option<real>, limitType: LimitType): (real, real)
    requires |data| > 0
  {
    LimitsFrom(SeqMin(data), SeqMax(data), Extensions.Median(data), from, to, limitType)
  }

  function LimitsFrom(min: real, max: real, median: real, from: Option<real>, to: Option<real>,
                      limitType: LimitType): (real, real)
  {
    match limitType
    case Absolute => (OrElse(from, 0.0), OrElse(to, max))
    case RelativeToMinimum => (min + OrElse(from, 0.0), min + OrElse(to, max - min))
    case RelativeToMedian => (median + OrElse(from, 0.0), median + OrElse(to, max - median))
    case Percentage =>
      var interval := max - min;
      (PercentOf(min, interval, OrElse(from, 0.0)), PercentOf(min, interval, OrElse(to, 100.0)))
  }

  /** `min + interval * percent / 100`. */
  function PercentOf(min: real, interval: real, percent: real): real {
    min + interval * percent / 100.0
  }

  /** 0 % is the minimum and 100 % the maximum. */
  lemma PercentEnds(min: real, max: real)
    ensures PercentOf(min, max - min, 0.0) == min
    ensures PercentOf(min, max - min, 100.0) == max
  {
  }

  /** The limit that is not set defaults to the edge of the data it is read
      against: a missing To always gives the maximum; a missing From gives 0
      for absolute limits, the minimum for limits relative to the minimum or
      in percent, and the median for limits relative to the median. */
  lemma LimitDefaults(data: seq<real>, from: Option<real>, to: Option<real>, limitType: LimitType)
    requires |data| > 0
    ensures to.None? ==> Limits(data, from, to, limitType).1 == SeqMax(data)
    ensures from.None? && limitType == Absolute ==> Limits(data, from, to, limitType).0 == 0.0
    ensures from.None? && (limitType == RelativeToMinimum || limitType == Percentage) ==>
              Limits(data, from, to, limitType).0 == SeqMin(data)
    ensures from.None? && limitType == RelativeToMedian ==>
              Limits(data, from, to, limitType).0 == Extensions.Median(data)
  {
    PercentEnds(SeqMin(data), SeqMax(data));
  }

  /** What set limits are offsets from: 0 for absolute limits, the minimum,
      or the median. */
  function Origin(data: seq<real>, limitType: LimitType): real
    requires |data| > 0 && limitType != Percentage
  {
    OriginFrom(SeqMin(data), Extensions.Median(data), limitType)
  }

  function OriginFrom(min: real, median: real, limitType: LimitType): real
    requires limitType != Percentage
  {
    match limitType
    case Absolute => 0.0
    case RelativeToMinimum => min
    case RelativeToMedian => median
  }

  /** Set limits, except percentages, are offsets from the origin. */
  lemma SetLimitsAreOffsets(data: seq<real>, from: real, to: real, limitType: LimitType)
    requires |data| > 0 && limitType != Percentage
    ensures Limits(data, Some(from), Some(to), limitType)
              == (Origin(data, limitType) + from, Origin(data, limitType) + to)
  {
    SetLimitsFromAreOffsets(SeqMin(data), SeqMax(data), Extensions.Median(data), from, to, limitType);
  }

  lemma SetLimitsFromAreOffsets(min: real, max: real, median: real, from: real, to: real, limitType: LimitType)
    requires limitType != Percentage
    ensures LimitsFrom(min, max, median, Some(from), Some(to), limitType)
              == (OriginFrom(min, median, limitType) + from, OriginFrom(min, median, limitType) + to)
  {
    if limitType == Absolute {
      assert 0.0 + from == from && 0.0 + to == to;
    }
  }

  /** Percentage limits of 0 and 100 are the minimum and the maximum. */
  lemma PercentageLimits(data: seq<real>)
    requires |data| > 0
    ensures Limits(data, Some(0.0), Some(100.0), Percentage) == (SeqMin(data), SeqMax(data))
  {
    PercentageLimitsFrom(SeqMin(data), SeqMax(data), Extensions.Median(data));
  }

  lemma PercentageLimitsFrom(min: real, max: real, median: real)
    ensures LimitsFrom(min, max, median, Some(0.0), Some(100.0), Percentage) == (min, max)
  {
    PercentEnds(min, max);
  }

  /** One value brought into [low, high]. */
  function Clamp(v: real, low: real, high: real): real {
    if v < low then low else if v > high then high else v
  }

  /** With ordered limits the value ends up inside them, values already inside
      stay as they are, and clamping twice changes nothing more. */
  lemma ClampSpec(v: real, low: real, high: real)
    requires low <= high
    ensures low <= Clamp(v, low, high) <= high
    ensures low <= v <= high ==> Clamp(v, low, high) == v
    ensures Clamp(Clamp(v, low, high), low, high) == Clamp(v, low, high)
  {
  }

  function Clamped(s: seq<real>, low: real, high: real): (r: seq<real>)
    ensures |r| == |s|
  {
    seq(|s|, i requires 0 <= i < |s| => Clamp(s[i], low, high))
  }

  /** What ApplyFilter returns, as a sequence. */
  function Filtered(data: seq<real>, from: Option<real>, to: Option<real>, limitType: LimitType): (r: seq<real>)
    requires FilterDefined(data, from, to)
    ensures |r| == |data|
  {
    if Unbounded(from, to) then data
    else
      var (low, high) := Limits(data, from, to, limitType);
      Clamped(data, low, high)
  }

  /** With a limit set and ordered limits, every output lies between them and
      every input already between them is kept. */
  lemma FilteredInRange(data: seq<real>, from: Option<real>, to: Option<real>, limitType: LimitType)
    requires FilterDefined(data, from, to) && !Unbounded(from, to)
    requires Limits(data, from, to, limitType).0 <= Limits(data, from, to, limitType).1
    ensures forall i :: 0 <= i < |data| ==>
              var (low, high) := Limits(data, from, to, limitType);
              low <= Filtered(data, from, to, limitType)[i] <= high
              && (low <= data[i] <= high ==> Filtered(data, from, to, limitType)[i] == data[i])
  {
    var (low, high) := Limits(data, from, to, limitType);
    forall i | 0 <= i < |data|
      ensures low <= Filtered(data, from, to, limitType)[i] <= high
      ensures low <= data[i] <= high ==> Filtered(data, from, to, limitType)[i] == data[i]
    {
      ClampSpec(data[i], low, high);
    }
  }

  /** Data inside the default limits passes unchanged: with only From set to
      the minimum (or 0 % of the range) the Percentage and RelativeToMinimum
      filters return the data as it is. */
  lemma FilterKeepsDataInDefaults(data: seq<real>, limitType: LimitType)
    requires |data| > 0
    requires limitType == RelativeToMinimum || limitType == Percentage
    ensures Filtered(data, Some(0.0), None, limitType) == data
  {
    var (low, high) := Limits(data, Some(0.0), None, limitType);
    assert low == SeqMin(data) && high == SeqMax(data);
    forall i | 0 <= i < |data|
      ensures Filtered(data, Some(0.0), None, limitType)[i] == data[i]
    {
      ClampSpec(data[i], low, high);
    }
  }

  /** ApplyFilter. The input array itself comes back when neither limit is set;
      otherwise a new array holds the clamped values, and the input is never
      written. */
  method ApplyFilter(data: array<real>, from: Option<real>, to: Option<real>, limitType: LimitType)
    returns (result: array<real>)
    requires FilterDefined(data[..], from, to)
    ensures Unbounded(from, to) ==> result == data
    ensures !Unbounded(from, to) ==> fresh(result)
    ensures result[..] == Filtered(data[..], from, to, limitType)
  {
    if from.None? && to.None? {
      UnboundedKeepsData(data[..], from, to, limitType);
      return data;
    }
    result := new real[data.Length];
    var low, high := ComputeLimits(data, from, to, limitType);
    ClampInto(data, result, low, high);
    FilteredIsClamped(data[..], from, to, limitType, low, high);
  }

  /** The loop of ApplyFilter: raise to low, lower to high, keep otherwise. */
  method ClampInto(data: array<real>, result: array<real>, low: real, high: real)
    requires result != data && result.Length == data.Length
    modifies result
    ensures result[..] == Clamped(data[..], low, high)
  {
    for i := 0 to data.Length
      invariant forall k :: 0 <= k < i ==> result[k] == Clamp(data[k], low, high)
    {
      var value := data[i];
      if value < low {
        result[i] := low;
      } else if value > high {
        result[i] := high;
      } else {
        result[i] := value;
      }
    }
  }

  lemma UnboundedKeepsData(data: seq<real>, from: Option<real>, to: Option<real>, limitType: LimitType)
    requires Unbounded(from, to)
    ensures Filtered(data, from, to, limitType) == data
  {
  }

  lemma FilteredIsClamped(data: seq<real>, from: Option<real>, to: Option<real>, limitType: LimitType,
                          low: real, high: real)
    requires |data| > 0 && !Unbounded(from, to)
    requires (low, high) == Limits(data, from, to, limitType)
    ensures Filtered(data, from, to, limitType) == Clamped(data, low, high)
  {
  }

  /** The limits as ApplyFilter computes them: Min and Max of the data (and its
      median, which only the RelativeToMedian reading uses), then the absolute
      reading, replaced for the other limit types. The filter takes its median
      from the LinqStatistics package rather than from `FloatArrayExt.Median`
      in Common/Extensions.cs; the two agree on non-empty data (the middle of
      the sorted copy, or the mean of the two middles), and MinMax has already
      failed on empty data before the median is read, so `Extensions.Median`
      stands for both. */
  method ComputeLimits(data: array<real>, from: Option<real>, to: Option<real>, limitType: LimitType)
    returns (low: real, high: real)
    requires data.Length > 0
    ensures (low, high) == Limits(data[..], from, to, limitType)
  {
    var min, max := SeqMin(data[..]), SeqMax(data[..]);
    var median := Extensions.Median(data[..]);
    low, high := SelectLimits(min, max, median, from, to, limitType);
  }

  method SelectLimits(min: real, max: real, median: real, from: Option<real>, to: Option<real>,
                      limitType: LimitType) returns (low: real, high: real)
    ensures (low, high) == LimitsFrom(min, max, median, from, to, limitType)
  {
    low := OrElse(from, 0.0);
    high := OrElse(to, max);
    if limitType == RelativeToMinimum {
      low := min + OrElse(from, 0.0);
      high := min + OrElse(to, max - min);
    } else if limitType == RelativeToMedian {
      low := median + OrElse(from, 0.0);
      high := median + OrElse(to, max - median);
    } else if limitType == Percentage {
      var interval := max - min;
      low := PercentOf(min, interval, OrElse(from, 0.0));
      high := PercentOf(min, interval, OrElse(to, 100.0));
    }
  }
}
