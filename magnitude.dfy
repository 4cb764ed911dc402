/** `magnitude`: keep the `k = int(density * numel)` entries of largest
    magnitude, refuse a density that keeps none, and optionally rescale
    with `rescale_sum`. */
module TopKMagnitude {
  import opened Errors
  import opened Tensors
  import opened Orders
  import opened Rescaling

  /** `k = int(density * tensor.numel())`. */
  function KeepCount(density: real, n: nat): (k: int)
    ensures density < 1.0 ==> k <= n
    ensures 0 < k <==> 1.0 <= density * n as real
  {
    FractionBelowWhole(density, n);
    Trunc(density * n as real)
  }

  lemma FractionBelowWhole(density: real, n: nat)
    ensures density < 1.0 && n > 0 ==> density * n as real < n as real
  {
    if density < 1.0 && n > 0 {
      assert n as real - density * n as real == (1.0 - density) * n as real;
    }
  }

  /** The mask `magnitude` builds: ones at the first `k` positions of the
      descending order. */
  function MagnitudeMask(n: nat, order: seq<int>, density: real): (m: seq<real>)
    requires |order| == n && density < 1.0
    ensures |m| == n && IsBinary(m)
  {
    var k := KeepCount(density, n);
    BandMask(n, order, 0, if k < 0 then 0 else k)
  }

  /** The value `magnitude(tensor, density, rescale)` returns, or its failure. */
  function MagnitudeOf(t: seq<real>, density: real, rescale: bool, order: seq<int>): (r: Result<seq<real>>)
    requires |order| == |t|
    ensures density >= 1.0 ==> r == Ok(t)
    ensures density < 1.0 ==> (r.Err? <==> KeepCount(density, |t|) <= 0)
    ensures r.Err? ==> r.error == DegenerateDensity
    ensures r.Ok? ==> |r.value| == |t|
    ensures density < 1.0 && r.Ok? && !rescale ==> r.value == Mul(t, MagnitudeMask(|t|, order, density))
  {
    if density >= 1.0 then Ok(t)
    else if KeepCount(density, |t|) <= 0 then Err(DegenerateDensity)
    else
      var mask := MagnitudeMask(|t|, order, density);
      Ok(if rescale then RescaleSumOf(t, mask) else Mul(t, mask))
  }

  /** The caller's tensor after the call: only a rescaled, successful call
      below density 1 changes it. */
  function TensorAfterMagnitude(t: seq<real>, density: real, rescale: bool, order: seq<int>): (s: seq<real>)
    requires |order| == |t|
    ensures |s| == |t|
    ensures !rescale || density >= 1.0 || KeepCount(density, |t|) <= 0 ==> s == t
    ensures forall i :: 0 <= i < |t| ==> (s[i] == 0.0 <==> t[i] == 0.0)
  {
    if density < 1.0 && KeepCount(density, |t|) > 0 && rescale
    then RescaledSource(t, MagnitudeMask(|t|, order, density))
    else t
  }

  /** The mask keeps exactly `k` entries, the first `k` of the descending
      order, and none of them is smaller in magnitude than any dropped one. */
  lemma MagnitudeMaskKeepsLargest(t: seq<real>, density: real, order: seq<int>)
    requires ArgsortDescending(t, order) && density < 1.0 && KeepCount(density, |t|) > 0
    ensures var k := KeepCount(density, |t|);
      var kept := Support(MagnitudeMask(|t|, order, density));
      && kept == Picked(order, 0, k)
      && |kept| == k
      && forall a, b :: a in kept && 0 <= b < |t| && b !in kept ==> Abs(t[a]) >= Abs(t[b])
  {
    var n, k := |t|, KeepCount(density, |t|);
    BandMaskSupport(n, order, 0, k);
    var kept := Support(MagnitudeMask(n, order, density));
    forall a, b | a in kept && 0 <= b < n && b !in kept
      ensures Abs(t[a]) >= Abs(t[b])
    {
      PickedIndex(order, n, 0, k, a);
      PickedIndex(order, n, 0, k, b);
      var i, j := IndexOf(order, a), IndexOf(order, b);
      assert i < j;
    }
  }

  /** What the result holds: exactly the entries of `tensor * mask` that are
      not zero stay non-zero, and with rescaling whose guard holds the
      absolute sum of the whole tensor is kept. */
  lemma MagnitudeResult(t: seq<real>, density: real, rescale: bool, order: seq<int>)
    requires ArgsortDescending(t, order) && density < 1.0 && KeepCount(density, |t|) > 0
    ensures var mask := MagnitudeMask(|t|, order, density);
      var r := MagnitudeOf(t, density, rescale, order).value;
      && Support(r) == Support(Mul(t, mask))
      && Support(r) <= Picked(order, 0, KeepCount(density, |t|))
      && (rescale && RescaleApplies(t, mask) ==> AbsSum(r) == AbsSum(t))
  {
    var mask := MagnitudeMask(|t|, order, density);
    RescaleSumZeroPattern(t, mask);
    if rescale && RescaleApplies(t, mask) {
      RescaleSumPreservesAbsSum(t, mask);
    }
    BandMaskSupport(|t|, order, 0, KeepCount(density, |t|));
  }

  /** `magnitude(tensor, density, rescale)`, with `order` the result of
      `argsort(tensor.abs().view(-1), descending=True)`. With `rescale`, the
      caller's tensor is scaled in place by `rescale_sum`. */
  method Magnitude(tensor: array<real>, density: real, rescale: bool, order: seq<int>)
    returns (r: Result<array<real>>)
    requires ArgsortDescending(tensor[..], order)
    modifies tensor
    ensures density >= 1.0 ==> r == Ok(tensor)
    ensures density < 1.0 && r.Ok? ==> fresh(r.value)
    ensures var spec := MagnitudeOf(old(tensor[..]), density, rescale, order);
      && r.Ok? == spec.Ok?
      && (r.Err? ==> r.error == spec.error)
      && (r.Ok? ==> r.value[..] == spec.value)
    ensures tensor[..] == TensorAfterMagnitude(old(tensor[..]), density, rescale, order)
  {
    if density >= 1.0 {
      return Ok(tensor);
    }
    var k := KeepCount(density, tensor.Length);
    if k <= 0 {
      return Err(DegenerateDensity);
    }
    var mask := BuildBandMask(tensor.Length, order, 0, k);
    var res: array<real>;
    if rescale {
      res := RescaleSum(tensor, mask);
    } else {
      res := MaskedCopy(tensor, mask[..]);
    }
    return Ok(res);
  }
}
