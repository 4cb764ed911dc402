/** `sparsify`: choose the masking strategy from the method tag and pass the
    parameters through. Every strategy's random or sorted inputs come in one
    `Oracle` value. */
module Dispatch {
  import opened Errors
  import opened Tensors
  import opened Orders
  import TopKMagnitude
  import OutlierBand
  import BernoulliMask
  import RankSampling

  /** The method tags, each with its string value. */
  datatype SparsificationMethod =
    | Magnitude
    | Random
    | MagnitudeOutliers
    | RankMagnitudeSampling
    | ConsensusTa
    | ConsensusTies
  {
    function Value(): string
    {
      match this
      case Magnitude => "magnitude"
      case Random => "random"
      case MagnitudeOutliers => "magnitude_outliers"
      case RankMagnitudeSampling => "rank_magnitude_sampling"
      case ConsensusTa => "consensus_ta"
      case ConsensusTies => "consensus_ties"
    }
  }

  /** Distinct tags have distinct string values, so comparing a tag with a
      string compares members. */
  lemma ValueInjective(a: SparsificationMethod, b: SparsificationMethod)
    ensures a.Value() == b.Value() <==> a == b
  {
  }

  /** The keyword arguments of `sparsify`. */
  datatype Params = Params(gamma: real, rescale: bool, epsilon: real)

  /** `gamma = 0`, `rescale = False`, `epsilon = 0.15`. */
  const DefaultParams: Params := Params(0.0, false, 0.15)

  /** What the tensor library supplies: the descending and ascending argsort
      of the flat magnitudes, the ascending argsort of every row, and the
      0/1 draws of `torch.bernoulli`. */
  datatype Oracle = Oracle(descending: seq<int>, ascending: seq<int>, rowAscending: seq<seq<int>>, draws: seq<real>)

  ghost predicate OracleFits(t: seq<real>, shape: Shape, o: Oracle)
  {
    && ArgsortDescending(t, o.descending)
    && ArgsortAscending(t, o.ascending)
    && RankSampling.WellShaped(t, shape, o.rowAscending, o.draws)
    && RankSampling.RowArgsorts(t, shape, o.rowAscending)
    && IsBinary(o.draws)
  }

  /** What the strategies themselves need beyond well-formed inputs. */
  predicate Admissible(m: SparsificationMethod, density: real, p: Params, shape: Shape)
  {
    && (m == Random && density < 1.0 && p.rescale ==> density != 0.0)
    && (m == RankMagnitudeSampling && density < 1.0 && !RankSampling.BandInvalid(density, p.epsilon) ==>
          2 <= shape.cols && RankSampling.ProbabilitiesAccepted(density, p.epsilon))
  }

  /** The value `sparsify(tensor, density, method, gamma, rescale, epsilon)`
      returns, or its failure. */
  function SparsifyOf(t: seq<real>, shape: Shape, density: real, m: SparsificationMethod, p: Params, o: Oracle): (r: Result<seq<real>>)
    requires OracleFits(t, shape, o) && Admissible(m, density, p, shape)
    ensures r.Ok? ==> |r.value| == |t|
    ensures m == ConsensusTa ==> r == Err(NotImplemented("consensus_ta"))
  {
    if m == Magnitude || m == ConsensusTies then
      TopKMagnitude.MagnitudeOf(t, density, p.rescale, o.descending)
    else if m == Random then
      Ok(BernoulliMask.BernoulliOf(t, density, p.rescale, o.draws))
    else if m == MagnitudeOutliers then
      Ok(OutlierBand.WrittenOutliersOf(t, density, p.gamma, p.rescale, o.ascending))
    else if m == RankMagnitudeSampling then
      RankSampling.RankMagnitudeOf(t, shape, density, p.rescale, p.epsilon, o.rowAscending, o.draws)
    else
      Err(NotImplemented(m.Value()))
  }

  /** The caller's tensor after the call: the two magnitude strategies scale
      it in place when rescaling. */
  function TensorAfterSparsify(t: seq<real>, shape: Shape, density: real, m: SparsificationMethod, p: Params, o: Oracle): (s: seq<real>)
    requires OracleFits(t, shape, o)
    ensures |s| == |t|
    ensures !p.rescale || (m != Magnitude && m != ConsensusTies && m != MagnitudeOutliers) ==> s == t
    ensures forall i :: 0 <= i < |t| ==> (s[i] == 0.0 <==> t[i] == 0.0)
  {
    if m == Magnitude || m == ConsensusTies then
      TopKMagnitude.TensorAfterMagnitude(t, density, p.rescale, o.descending)
    else if m == MagnitudeOutliers then
      OutlierBand.TensorAfterOutliers(t, density, p.gamma, p.rescale, o.ascending)
    else t
  }

  /** Every routed tag leaves a tensor alone at density 1 or more. */
  lemma SparsifyIdentity(t: seq<real>, shape: Shape, density: real, m: SparsificationMethod, p: Params, o: Oracle)
    requires OracleFits(t, shape, o) && Admissible(m, density, p, shape)
    requires 1.0 <= density && m != ConsensusTa
    ensures SparsifyOf(t, shape, density, m, p, o) == Ok(t)
    ensures TensorAfterSparsify(t, shape, density, m, p, o) == t
  {
  }

  /** `sparsify` fails exactly for `consensus_ta`, for a magnitude tag whose
      density keeps no entry, and for rank sampling outside its band. */
  lemma SparsifyFailures(t: seq<real>, shape: Shape, density: real, m: SparsificationMethod, p: Params, o: Oracle)
    requires OracleFits(t, shape, o) && Admissible(m, density, p, shape)
    ensures var r := SparsifyOf(t, shape, density, m, p, o);
      r.Err? <==>
        || m == ConsensusTa
        || ((m == Magnitude || m == ConsensusTies) && density < 1.0 && TopKMagnitude.KeepCount(density, |t|) <= 0)
        || (m == RankMagnitudeSampling && density < 1.0 && RankSampling.BandInvalid(density, p.epsilon))
    ensures var r := SparsifyOf(t, shape, density, m, p, o);
      && (r.Err? && m == ConsensusTa ==> r.error == NotImplemented(m.Value()))
      && (r.Err? && (m == Magnitude || m == ConsensusTies) ==> r.error == DegenerateDensity)
      && (r.Err? && m == RankMagnitudeSampling ==> r.error == InvalidBand(density + p.epsilon, density - p.epsilon))
  {
  }

  /** `consensus_ties` is `magnitude` under another name. */
  lemma ConsensusTiesIsMagnitude(t: seq<real>, shape: Shape, density: real, p: Params, o: Oracle)
    requires OracleFits(t, shape, o)
    ensures SparsifyOf(t, shape, density, ConsensusTies, p, o) == SparsifyOf(t, shape, density, Magnitude, p, o)
    ensures TensorAfterSparsify(t, shape, density, ConsensusTies, p, o) == TensorAfterSparsify(t, shape, density, Magnitude, p, o)
  {
  }

  /** With the default keyword arguments, `magnitude_outliers` below density 1
      zeroes every entry and leaves the caller's tensor alone, because the
      default `gamma = 0` makes `n_top` zero. */
  lemma DefaultOutliersKeepNothing(t: seq<real>, shape: Shape, density: real, o: Oracle)
    requires OracleFits(t, shape, o) && density < 1.0
    ensures var r := SparsifyOf(t, shape, density, MagnitudeOutliers, DefaultParams, o);
      && r.Ok?
      && (forall i :: 0 <= i < |t| ==> r.value[i] == 0.0)
    ensures TensorAfterSparsify(t, shape, density, MagnitudeOutliers, DefaultParams, o) == t
  {
    OutlierBand.WrittenSmallGammaKeepsNothing(t, density, DefaultParams.gamma, DefaultParams.rescale, o.ascending);
  }

  /** `sparsify(tensor, density, method, gamma, rescale, epsilon)`. */
  method Sparsify(tensor: array<real>, shape: Shape, density: real, m: SparsificationMethod, p: Params, o: Oracle)
    returns (r: Result<array<real>>)
    requires OracleFits(tensor[..], shape, o) && Admissible(m, density, p, shape)
    modifies tensor
    ensures r.Ok? ==> r.value == tensor || fresh(r.value)
    ensures var spec := SparsifyOf(old(tensor[..]), shape, density, m, p, o);
      && r.Ok? == spec.Ok?
      && (r.Err? ==> r.error == spec.error)
      && (r.Ok? ==> r.value[..] == spec.value)
    ensures tensor[..] == TensorAfterSparsify(old(tensor[..]), shape, density, m, p, o)
  {
    if m == Magnitude || m == ConsensusTies {
      r := TopKMagnitude.Magnitude(tensor, density, p.rescale, o.descending);
    } else if m == Random {
      var res := BernoulliMask.Bernoulli(tensor, density, p.rescale, o.draws);
      r := Ok(res);
    } else if m == MagnitudeOutliers {
      var res := OutlierBand.MagnitudeOutliers(tensor, density, p.rescale, p.gamma, o.ascending);
      r := Ok(res);
    } else if m == RankMagnitudeSampling {
      r := RankSampling.RankMagnitude(tensor, shape, density, p.rescale, p.epsilon, o.rowAscending, o.draws);
    } else {
      r := Err(NotImplemented(m.Value()));
    }
  }
}
