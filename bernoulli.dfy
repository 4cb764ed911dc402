/** `bernoulli`: keep each entry independently with probability `density`,
    optionally dividing what is kept by `density`. The draws of
    `torch.bernoulli` are a parameter: a 0/1 tensor of the same shape. */
module BernoulliMask {
  import opened Tensors

  /** The value `bernoulli(tensor, density, rescale)` returns for the draws
      `draws`. */
  function BernoulliOf(t: seq<real>, density: real, rescale: bool, draws: seq<real>): (r: seq<real>)
    requires |draws| == |t|
    requires density < 1.0 && rescale ==> density != 0.0
    ensures |r| == |t|
    ensures density >= 1.0 ==> r == t
  {
    if density >= 1.0 then t
    else
      var res := Mul(t, draws);
      if rescale then Scale(res, 1.0 / density) else res
  }

  /** An entry whose draw is 0 is dropped; one whose draw is 1 is kept, divided
      by `density` when rescaling. */
  lemma BernoulliEntries(t: seq<real>, density: real, rescale: bool, draws: seq<real>)
    requires |draws| == |t| && IsBinary(draws) && density < 1.0
    requires rescale ==> density != 0.0
    ensures forall i :: 0 <= i < |t| && draws[i] == 0.0 ==> BernoulliOf(t, density, rescale, draws)[i] == 0.0
    ensures forall i :: 0 <= i < |t| && draws[i] == 1.0 ==>
      BernoulliOf(t, density, rescale, draws)[i] == (if rescale then t[i] / density else t[i])
    ensures Support(BernoulliOf(t, density, rescale, draws)) == Support(Mul(t, draws))
  {
    var r := BernoulliOf(t, density, rescale, draws);
    forall i | 0 <= i < |t|
      ensures draws[i] == 0.0 ==> r[i] == 0.0
      ensures draws[i] == 1.0 ==> r[i] == (if rescale then t[i] / density else t[i])
      ensures r[i] != 0.0 <==> t[i] * draws[i] != 0.0
    {
      if rescale {
        assert r[i] == t[i] * draws[i] * (1.0 / density);
      }
    }
  }

  /** Rescaling multiplies the absolute sum of what is kept by `1 / density`,
      so that its expectation matches the original's. */
  lemma BernoulliRescaleAbsSum(t: seq<real>, density: real, draws: seq<real>)
    requires |draws| == |t| && 0.0 < density < 1.0
    ensures AbsSum(BernoulliOf(t, density, true, draws)) * density == AbsSum(Mul(t, draws))
  {
    var kept := Mul(t, draws);
    AbsSumScale(kept, 1.0 / density);
    assert AbsSum(kept) * (1.0 / density) * density == AbsSum(kept);
  }

  /** `bernoulli(tensor, density, rescale)`: the identity returns `tensor`
      itself; otherwise a new tensor. */
  method Bernoulli(tensor: array<real>, density: real, rescale: bool, draws: seq<real>) returns (res: array<real>)
    requires |draws| == tensor.Length
    requires density < 1.0 && rescale ==> density != 0.0
    ensures density >= 1.0 ==> res == tensor
    ensures density < 1.0 ==> fresh(res)
    ensures res[..] == BernoulliOf(tensor[..], density, rescale, draws)
  {
    if density >= 1.0 {
      return tensor;
    }
    res := MaskedCopy(tensor, draws);
    if rescale {
      ScaleInPlace(res, 1.0 / density);
    }
  }
}
