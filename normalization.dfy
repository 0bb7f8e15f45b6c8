/** The older three-way normalisation, kept beside DataProcessing.Normalize. */
module Normalization {
  import opened Numerics
  import DataProcessing

  datatype Type = None | Linear | MinMax

  /** The DataProcessing normalisation that has the same name. */
  function AsNormalizationType(t: Type): DataProcessing.NormalizationType {
    match t
    case None => DataProcessing.NormalizationType.None
    case Linear => DataProcessing.NormalizationType.Linear
    case MinMax => DataProcessing.NormalizationType.MinMax
  }

  /** Linear needs a non-zero maximum, MinMax a non-empty range. */
  predicate ProcessDefined(s: seq<real>, t: Type) {
    match t
    case None => true
    case Linear => |s| > 0 && SeqMax(s) != 0.0
    case MinMax => |s| > 0 && SeqMax(s) > SeqMin(s)
  }

  /** The data after Process(data, t). */
  function Processed(s: seq<real>, t: Type): (r: seq<real>)
    requires ProcessDefined(s, t)
    ensures |r| == |s|
  {
    match t
    case None => s
    case Linear => DataProcessing.LinearScaled(s)
    case MinMax => DataProcessing.MinMaxScaled(s)
  }

  /** Process overwrites `data` in place and touches nothing else. */
  method Process(data: array<real>, t: Type)
    requires ProcessDefined(data[..], t)
    modifies data
    ensures data[..] == Processed(old(data[..]), t)
  {
    match t
    case None =>
    case Linear => DataProcessing.DivideByMax(data);
    case MinMax => DataProcessing.ScaleToUnitRange(data);
  }

  /** Process is DataProcessing.Normalize restricted to the three shared types: the
      same precondition and the same result, whatever the grid size. */
  lemma ProcessIsNormalize(m: MathLib, s: seq<real>, size: DataProcessing.Size, t: Type)
    ensures ProcessDefined(s, t) <==> DataProcessing.NormalizeDefined(m, s, size, AsNormalizationType(t))
    ensures ProcessDefined(s, t) ==>
      Processed(s, t) == DataProcessing.Normalized(m, s, size, AsNormalizationType(t))
  {
  }
}
