/** Algorithms/Algorithm.cs: the fifteen distance algorithms behind one template
    method. The public ComputeDistance works on copies of the two measurements,
    optionally rectifies them, normalises them, remembers whether they were
    rectified and returns the absolute value of the algorithm's own hook. */
module Algorithms {
  import opened Numerics
  import DataProcessing
  import Normalization
  import CanberraMetric = Canberra
  import CosineMetric = Cosine
  import DtwMetric = Dtw
  import EuclidianMetric = Euclidian
  import HammingMetric = Hamming
  import JaccardMetric = Jaccard
  import JensenShannonMetric = JensenShannon
  import KullbackLeiblerMetric = KullbackLeibler
  import LorentzianMetric = Lorentzian
  import ManhattanMetric = Manhattan
  import PearsonMetric = Pearson
  import RuzickaMetric = Ruzicka
  import SorensenMetric = Sorensen
  import WassersteinMetric = Wasserstein
  import WaveHedgesMetric = WaveHedges

  /** The subclasses of Algorithm. */
  datatype Kind =
    | Canberra | Cosine | DTW | Euclidian | Hamming | Jaccard | JensenShannon
    | KullbackLeibler | Lorentzian | Manhattan | Pearson | Ruzicka | Sorensen
    | Wasserstein | WaveHedges

  /** The Name property of each algorithm. */
  function Name(k: Kind): string {
    match k
    case Canberra => "Canberra"
    case Cosine => "Cosine"
    case DTW => "DTW"
    case Euclidian => "Euclidian"
    case Hamming => "Hamming"
    case Jaccard => "Jaccard"
    case JensenShannon => "Jensen-Shannon"
    case KullbackLeibler => "Kullback-Leibler"
    case Lorentzian => "Lorentzian"
    case Manhattan => "Manhattan"
    case Pearson => "Pearson"
    case Ruzicka => "Ruzicka"
    case Sorensen => "Sorensen"
    case Wasserstein => "Wasserstein"
    case WaveHedges => "Wave Hedges"
  }

  /** IsVisible: three algorithms hide themselves from the lists. */
  predicate IsVisible(k: Kind) {
    !(k == JensenShannon || k == KullbackLeibler || k == Wasserstein)
  }

  /** What the hooks demand of their arguments: the elementwise loops read
      data2 at every index of data1, and Jensen-Shannon divides by the totals. */
  predicate HookDefined(k: Kind, a: seq<real>, b: seq<real>, rectified: bool) {
    match k
    case DTW => true
    case Wasserstein => true
    case JensenShannon => |a| <= |b| && JensenShannonMetric.TotalsDefined(a, b, rectified)
    case _ => |a| <= |b|
  }

  /** The hook ComputeDistance(data1, data2) of each algorithm; DTW's sentinel
      is the only non-finite value. */
  function Hook(m: MathLib, k: Kind, a: seq<real>, b: seq<real>, rectified: bool): ExtReal
    requires HookDefined(k, a, b, rectified)
  {
    match k
    case Canberra => Finite(CanberraMetric.Distance(a, b, rectified))
    case Cosine => Finite(CosineMetric.Distance(m, a, b, rectified))
    case DTW => DtwMetric.Distance(a, b)
    case Euclidian => Finite(EuclidianMetric.Distance(m, a, b, rectified))
    case Hamming => Finite(HammingMetric.Distance(a, b, rectified))
    case Jaccard => Finite(JaccardMetric.Distance(a, b, rectified))
    case JensenShannon => Finite(JensenShannonMetric.Distance(m, a, b, rectified))
    case KullbackLeibler => Finite(KullbackLeiblerMetric.Distance(m, a, b, rectified))
    case Lorentzian => Finite(LorentzianMetric.Distance(m, a, b, rectified))
    case Manhattan => Finite(ManhattanMetric.Distance(m, a, b, rectified))
    case Pearson => Finite(PearsonMetric.Distance(m, a, b, rectified))
    case Ruzicka => Finite(RuzickaMetric.Distance(a, b, rectified))
    case Sorensen => Finite(SorensenMetric.DistanceAsWritten(a, b, rectified))
    case Wasserstein => Finite(WassersteinMetric.Distance(a, b))
    case WaveHedges => Finite(WaveHedgesMetric.Distance(a, b, rectified))
  }

  /** The virtual call of the hook. */
  method ComputeHook(m: MathLib, k: Kind, a: seq<real>, b: seq<real>, rectified: bool) returns (d: ExtReal)
    requires HookDefined(k, a, b, rectified)
    ensures d == Hook(m, k, a, b, rectified)
  {
    var v: real;
    match k {
      case Canberra => v := CanberraMetric.ComputeDistance(a, b, rectified);
      case Cosine => v := CosineMetric.ComputeDistance(m, a, b, rectified);
      case DTW => d := DtwMetric.ComputeDistance(a, b); return;
      case Euclidian => v := EuclidianMetric.ComputeDistance(m, a, b, rectified);
      case Hamming => v := HammingMetric.ComputeDistance(a, b, rectified);
      case Jaccard => v := JaccardMetric.ComputeDistance(a, b, rectified);
      case JensenShannon => v := JensenShannonMetric.ComputeDistance(m, a, b, rectified);
      case KullbackLeibler => v := KullbackLeiblerMetric.ComputeDistance(m, a, b, rectified);
      case Lorentzian => v := LorentzianMetric.ComputeDistance(m, a, b, rectified);
      case Manhattan => v := ManhattanMetric.ComputeDistance(m, a, b, rectified);
      case Pearson => v := PearsonMetric.ComputeDistance(m, a, b, rectified);
      case Ruzicka => v := RuzickaMetric.ComputeDistance(a, b, rectified);
      case Sorensen => v := SorensenMetric.ComputeDistance(a, b, rectified);
      case Wasserstein => v := WassersteinMetric.ComputeDistance(a, b);
      case WaveHedges => v := WaveHedgesMetric.ComputeDistance(a, b, rectified);
    }
    d := Finite(v);
  }

  /** Math.Abs on a hook result. */
  function AbsExt(x: ExtReal): (r: ExtReal)
    ensures r.Infinity? <==> x.Infinity?
    ensures r.Finite? ==> r.value >= 0.0 && (r.value == x.value || r.value == -x.value)
  {
    match x
    case Infinity => Infinity
    case Finite(v) => Finite(Abs(v))
  }

  /** One measurement after the optional rectification: what Normalization.Process
      receives. */
  function Rectified(s: seq<real>, rectify: bool): (r: seq<real>)
    ensures |r| == |s|
  {
    if rectify then DataProcessing.Rectified(s) else s
  }

  /** Both measurements can be normalised, and the hook accepts the results. */
  predicate PipelineDefined(m: MathLib, k: Kind, a: seq<real>, b: seq<real>, rectify: bool, t: Normalization.Type) {
    Normalization.ProcessDefined(Rectified(a, rectify), t)
    && Normalization.ProcessDefined(Rectified(b, rectify), t)
    && HookDefined(k, Prepared(a, rectify, t), Prepared(b, rectify, t), rectify)
  }

  /** One measurement as the hook sees it. */
  function Prepared(s: seq<real>, rectify: bool, t: Normalization.Type): (r: seq<real>)
    requires Normalization.ProcessDefined(Rectified(s, rectify), t)
    ensures |r| == |s|
  {
    Normalization.Processed(Rectified(s, rectify), t)
  }

  /** The value of the public ComputeDistance. */
  function Pipeline(m: MathLib, k: Kind, a: seq<real>, b: seq<real>, rectify: bool, t: Normalization.Type): ExtReal
    requires PipelineDefined(m, k, a, b, rectify, t)
  {
    AbsExt(Hook(m, k, Prepared(a, rectify, t), Prepared(b, rectify, t), rectify))
  }

  /** An algorithm object: its kind and the rectification flag its hook reads. */
  class Algorithm {
    const kind: Kind
    var isDataRectified: bool

    constructor(kind: Kind)
      ensures this.kind == kind && !isDataRectified
    {
      this.kind := kind;
      isDataRectified := false;
    }

    /** The template method. The caller's arrays are never written: only the
        object's flag changes. */
    method ComputeDistance(m: MathLib, data1: array<real>, data2: array<real>, shouldRectify: bool, t: Normalization.Type)
      returns (d: ExtReal)
      requires PipelineDefined(m, kind, data1[..], data2[..], shouldRectify, t)
      modifies this
      ensures isDataRectified == shouldRectify
      ensures d == Pipeline(m, kind, data1[..], data2[..], shouldRectify, t)
    {
      var copy1 := Prepare(data1, shouldRectify, t);
      var copy2 := Prepare(data2, shouldRectify, t);
      isDataRectified := shouldRectify;
      var h := ComputeHook(m, kind, copy1[..], copy2[..], isDataRectified);
      d := AbsExt(h);
    }
  }

  /** The clone, the optional Rectify and Process for one measurement. */
  method Prepare(data: array<real>, rectify: bool, t: Normalization.Type) returns (copy: array<real>)
    requires Normalization.ProcessDefined(Rectified(data[..], rectify), t)
    ensures fresh(copy) && copy[..] == Prepared(data[..], rectify, t)
  {
    copy := Clone(data);
    if rectify {
      copy := DataProcessing.Rectify(copy);
    }
    Normalization.Process(copy, t);
  }

  /** The (UseRectification, NormalizationType, Crop) triple the batch runner
      passes with the grid size. */
  datatype Options = Options(useRectification: bool, normalizationType: Normalization.Type, crop: bool)

  /** A measurement after the optional crop. */
  function Cut(s: seq<real>, size: DataProcessing.Size, crop: bool): seq<real>
    requires crop ==> DataProcessing.CropDefined(|s|, size)
  {
    if crop then DataProcessing.Cropped(s, size) else s
  }

  predicate ConfiguredDefined(m: MathLib, k: Kind, a: seq<real>, b: seq<real>, size: DataProcessing.Size, o: Options) {
    (o.crop ==> DataProcessing.CropDefined(|a|, size) && DataProcessing.CropDefined(|b|, size))
    && PipelineDefined(m, k, Cut(a, size, o.crop), Cut(b, size, o.crop), o.useRectification, o.normalizationType)
  }

  /** The distance under the options: crop, then the template method. */
  function Configured(m: MathLib, k: Kind, a: seq<real>, b: seq<real>, size: DataProcessing.Size, o: Options): ExtReal
    requires ConfiguredDefined(m, k, a, b, size, o)
  {
    Pipeline(m, k, Cut(a, size, o.crop), Cut(b, size, o.crop), o.useRectification, o.normalizationType)
  }

  /** The overload with a size and options: the optional crop comes first. */
  method ComputeConfigured(alg: Algorithm, m: MathLib, data1: array<real>, data2: array<real>,
                           size: DataProcessing.Size, o: Options) returns (d: ExtReal)
    requires ConfiguredDefined(m, alg.kind, data1[..], data2[..], size, o)
    modifies alg
    ensures alg.isDataRectified == o.useRectification
    ensures d == Configured(m, alg.kind, data1[..], data2[..], size, o)
  {
    var cut1 := data1;
    var cut2 := data2;
    if o.crop {
      cut1 := DataProcessing.Crop(data1, size);
      cut2 := DataProcessing.Crop(data2, size);
    }
    d := alg.ComputeDistance(m, cut1, cut2, o.useRectification, o.normalizationType);
  }

  /** (float[])data.Clone(). */
  method Clone(data: array<real>) returns (copy: array<real>)
    ensures fresh(copy) && copy[..] == data[..]
  {
    copy := new real[data.Length](i reads data requires 0 <= i < data.Length => data[i]);
  }

  /** Math.Abs makes every finite result non-negative. */
  lemma PipelineNonNegative(m: MathLib, k: Kind, a: seq<real>, b: seq<real>, rectify: bool, t: Normalization.Type)
    requires PipelineDefined(m, k, a, b, rectify, t)
    ensures Pipeline(m, k, a, b, rectify, t).Finite? ==> Pipeline(m, k, a, b, rectify, t).value >= 0.0
    ensures Pipeline(m, k, a, b, rectify, t).Infinity? ==> k == DTW
  {
  }

  /** A measurement compared with itself is at distance 0 under every algorithm
      except the three whose formula gives a constant on degenerate data
      (Cosine, Pearson and Ruzicka; see their own modules). */
  lemma PipelineIdentical(m: MathLib, k: Kind, a: seq<real>, rectify: bool, t: Normalization.Type)
    requires Lawful(m) && PipelineDefined(m, k, a, a, rectify, t)
    requires k != Cosine && k != Pearson && k != Ruzicka
    ensures Pipeline(m, k, a, a, rectify, t) == Finite(0.0)
  {
    var p := Prepared(a, rectify, t);
    match k
    case Canberra => CanberraMetric.DistanceIdentical(p, rectify);
    case DTW => DtwMetric.DistanceIdentical(p);
    case Euclidian => EuclidianMetric.DistanceIdentical(m, p, rectify);
    case Hamming => HammingMetric.DistanceIdentical(p, rectify);
    case Jaccard => JaccardMetric.DistanceIdentical(p, rectify);
    case JensenShannon => JensenShannonMetric.DistanceIdentical(m, p, rectify);
    case KullbackLeibler => KullbackLeiblerMetric.DistanceIdentical(m, p, rectify);
    case Lorentzian => LorentzianMetric.DistanceIdentical(m, p, rectify);
    case Manhattan => ManhattanMetric.DistanceIdentical(m, p, rectify);
    case Sorensen => SorensenMetric.AsWrittenIdentical(p, rectify);
    case Wasserstein => WassersteinMetric.DistanceIdentical(p);
    case WaveHedges => WaveHedgesMetric.DistanceIdentical(p, rectify);
  }

  /** Every algorithm except Kullback-Leibler gives the same distance with the
      measurements exchanged. */
  lemma PipelineSymmetric(m: MathLib, k: Kind, a: seq<real>, b: seq<real>, rectify: bool, t: Normalization.Type)
    requires Lawful(m) && |a| == |b| && k != KullbackLeibler
    requires PipelineDefined(m, k, a, b, rectify, t) && PipelineDefined(m, k, b, a, rectify, t)
    ensures Pipeline(m, k, a, b, rectify, t) == Pipeline(m, k, b, a, rectify, t)
  {
    var p := Prepared(a, rectify, t);
    var q := Prepared(b, rectify, t);
    match k
    case Canberra => CanberraMetric.DistanceSymmetric(p, q, rectify);
    case Cosine => CosineMetric.DistanceSymmetric(m, p, q, rectify);
    case DTW => DtwMetric.DistanceSymmetric(p, q);
    case Euclidian => EuclidianMetric.DistanceSymmetric(m, p, q, rectify);
    case Hamming => HammingMetric.DistanceSymmetric(p, q, rectify);
    case Jaccard => JaccardMetric.DistanceSymmetric(p, q, rectify);
    case JensenShannon => JensenShannonMetric.DistanceSymmetric(m, p, q, rectify);
    case Lorentzian => LorentzianMetric.DistanceSymmetric(m, p, q, rectify);
    case Manhattan => ManhattanMetric.DistanceSymmetric(m, p, q, rectify);
    case Pearson => PearsonMetric.DistanceSymmetric(m, p, q, rectify);
    case Ruzicka => RuzickaMetric.DistanceSymmetric(p, q, rectify);
    case Sorensen => SorensenMetric.AsWrittenSymmetric(p, q, rectify);
    case Wasserstein => WassersteinMetric.DistanceSymmetric(p, q);
    case WaveHedges => WaveHedgesMetric.DistanceSymmetric(p, q, rectify);
  }
}
