/** `rescale_sum`: mask a tensor and scale what is left so that its absolute
    sum matches the original's, unless either sum is below 1e-8. The scaling
    is applied to the caller's tensor itself, in place, before the mask. */
module Rescaling {
  import opened Tensors

  /** The guard on both absolute sums. */
  const Threshold: real := 1e-8

  /** Both sums are at least the threshold, so the tensor is scaled and the
      ratio `org_sum / new_sum` divides by a positive sum. */
  predicate RescaleApplies(t: seq<real>, m: seq<real>): (b: bool)
    requires |t| == |m|
    ensures b ==> 0.0 < AbsSum(t) && 0.0 < AbsSum(Mul(t, m))
  {
    AbsSum(t) >= Threshold && AbsSum(Mul(t, m)) >= Threshold
  }

  /** The caller's tensor after `rescale_sum`: scaled by `org_sum / new_sum`
      when the guard holds, untouched otherwise. */
  function RescaledSource(t: seq<real>, m: seq<real>): (s: seq<real>)
    requires |t| == |m|
    ensures |s| == |t|
    ensures !RescaleApplies(t, m) ==> s == t
    ensures forall i :: 0 <= i < |t| ==> (s[i] == 0.0 <==> t[i] == 0.0)
  {
    PositiveRatio(t, m);
    if RescaleApplies(t, m) then Scale(t, AbsSum(t) / AbsSum(Mul(t, m))) else t
  }

  /** When the guard holds the scaling factor is positive. */
  lemma PositiveRatio(t: seq<real>, m: seq<real>)
    requires |t| == |m|
    ensures RescaleApplies(t, m) ==> 0.0 < AbsSum(t) / AbsSum(Mul(t, m))
  {
  }

  /** The value `rescale_sum` returns: the (possibly scaled) tensor, masked. */
  function RescaleSumOf(t: seq<real>, m: seq<real>): (r: seq<real>)
    requires |t| == |m|
    ensures |r| == |t|
    ensures !RescaleApplies(t, m) ==> r == Mul(t, m)
  {
    Mul(RescaledSource(t, m), m)
  }

  /** The output is zero exactly where `tensor * mask` is zero. */
  lemma RescaleSumZeroPattern(t: seq<real>, m: seq<real>)
    requires |t| == |m|
    ensures forall i :: 0 <= i < |t| ==> (RescaleSumOf(t, m)[i] == 0.0 <==> t[i] * m[i] == 0.0)
    ensures Support(RescaleSumOf(t, m)) == Support(Mul(t, m))
  {
    if RescaleApplies(t, m) {
      var c := AbsSum(t) / AbsSum(Mul(t, m));
      assert 0.0 < c;
      MulScaleCommute(t, m, c);
    }
  }

  /** When the guard holds, the output's absolute sum is the original's. */
  lemma RescaleSumPreservesAbsSum(t: seq<real>, m: seq<real>)
    requires |t| == |m| && RescaleApplies(t, m)
    ensures AbsSum(RescaleSumOf(t, m)) == AbsSum(t)
  {
    var org, kept := AbsSum(t), AbsSum(Mul(t, m));
    var c := org / kept;
    assert 0.0 < c;
    assert RescaleSumOf(t, m) == Mul(Scale(t, c), m);
    MulScaleCommute(t, m, c);
    AbsSumScale(Mul(t, m), c);
    QuotientTimesDivisor(org, kept);
  }

  lemma QuotientTimesDivisor(a: real, b: real)
    requires b != 0.0
    ensures a / b * b == a
  {
  }

  /** `rescale_sum(tensor, mask)`; the mask is a separate tensor. */
  method RescaleSum(tensor: array<real>, mask: array<real>) returns (res: array<real>)
    requires tensor.Length == mask.Length && tensor != mask
    modifies tensor
    ensures fresh(res)
    ensures tensor[..] == RescaledSource(old(tensor[..]), mask[..])
    ensures res[..] == RescaleSumOf(old(tensor[..]), mask[..])
  {
    var orgSum := AbsSumOf(tensor);
    var masked := MaskedCopy(tensor, mask[..]);
    var newSum := AbsSumOf(masked);
    if orgSum >= Threshold && newSum >= Threshold {
      ScaleInPlace(tensor, orgSum / newSum);
    }
    res := MaskedCopy(tensor, mask[..]);
  }
}
