/** `magnitude_outliers`: drop the `gamma` share of largest magnitudes and
    then the smallest ones, keeping a band of the ascending order that is
    `int(density * numel)` entries wide. */
module OutlierBand {
  import opened Tensors
  import opened Orders
  import opened Rescaling
  import opened TopKMagnitude

  /** `target_n`, `n_top` and `n_bot` after the clamp. */
  datatype Counts = Counts(targetN: int, nTop: int, nBot: int)

  /** The three counts of a tensor with `n` entries. When keeping `target_n`
      and dropping `int(gamma * n)` large entries would leave fewer than none
      to drop at the bottom, fewer large entries are dropped instead. */
  function OutlierCounts(n: nat, density: real, gamma: real): (c: Counts)
    ensures c.targetN == KeepCount(density, n)
    ensures 0 <= c.nBot && c.nBot + c.targetN + c.nTop == n
    ensures var top := Trunc(gamma * n as real);
      if n - c.targetN - top < 0 then c.nTop == n - c.targetN && c.nBot == 0
      else c.nTop == top
  {
    var target := KeepCount(density, n);
    var top := Trunc(gamma * n as real);
    var bot := n - target - top;
    if bot < 0 then Counts(target, top + bot, 0) else Counts(target, top, bot)
  }

  /** The band `indices[n_bot:-n_top]` as written. */
  function WrittenBand(n: nat, density: real, gamma: real): (b: (nat, nat))
    ensures b.0 <= b.1 <= n
  {
    var c := OutlierCounts(n, density, gamma);
    SliceBounds(c.nBot, -c.nTop, n)
  }

  /** The band `indices[n_bot:num_elems - n_top]`, which drops `n_bot` entries
      at the bottom and `n_top` at the top, `n_top == 0` included. */
  function IntendedBand(n: nat, density: real, gamma: real): (b: (nat, nat))
    ensures b.0 <= b.1 <= n
  {
    var c := OutlierCounts(n, density, gamma);
    SliceBounds(c.nBot, n - c.nTop, n)
  }

  /** The intended band is exactly `target_n` wide and sits `n_bot` entries
      above the bottom, for any density below 1 and any non-negative gamma. */
  lemma IntendedBandKeepsTarget(n: nat, density: real, gamma: real)
    requires 0.0 <= density < 1.0 && 0.0 <= gamma
    ensures var c := OutlierCounts(n, density, gamma);
      && IntendedBand(n, density, gamma) == (c.nBot, n - c.nTop)
      && c.targetN == n - c.nTop - c.nBot
      && 0 <= c.nTop
  {
  }

  /** The written band is the intended one whenever `n_top > 0`. */
  lemma WrittenBandAgreesWhenTopPositive(n: nat, density: real, gamma: real)
    requires 0.0 <= density && OutlierCounts(n, density, gamma).nTop > 0
    ensures WrittenBand(n, density, gamma) == IntendedBand(n, density, gamma)
  {
  }

  /** With `n_top == 0` the written slice `indices[n_bot:-0]` is empty. */
  lemma WrittenBandEmptyWhenTopZero(n: nat, density: real, gamma: real)
    requires OutlierCounts(n, density, gamma).nTop == 0
    ensures WrittenBand(n, density, gamma).0 == WrittenBand(n, density, gamma).1
  {
  }

  /** `tensor` masked to the positions `order[lo:hi]`, rescaled or not. */
  function BandOutput(t: seq<real>, rescale: bool, order: seq<int>, band: (nat, nat)): (r: seq<real>)
    requires |order| == |t| && band.0 <= band.1 <= |t|
    ensures |r| == |t|
  {
    var mask := BandMask(|t|, order, band.0, band.1);
    if rescale then RescaleSumOf(t, mask) else Mul(t, mask)
  }

  /** `magnitude_outliers` as written, with the band `indices[n_bot:-n_top]`. */
  function WrittenOutliersOf(t: seq<real>, density: real, gamma: real, rescale: bool, order: seq<int>): (r: seq<real>)
    requires |order| == |t|
    ensures |r| == |t|
    ensures density >= 1.0 ==> r == t
  {
    if density >= 1.0 then t else BandOutput(t, rescale, order, WrittenBand(|t|, density, gamma))
  }

  /** `magnitude_outliers` with the band it means to keep. */
  function MagnitudeOutliersOf(t: seq<real>, density: real, gamma: real, rescale: bool, order: seq<int>): (r: seq<real>)
    requires |order| == |t|
    ensures |r| == |t|
    ensures density >= 1.0 ==> r == t
  {
    if density >= 1.0 then t else BandOutput(t, rescale, order, IntendedBand(|t|, density, gamma))
  }

  /** The caller's tensor after the call, with the band as written:
      `rescale_sum` scales it in place. */
  function TensorAfterOutliers(t: seq<real>, density: real, gamma: real, rescale: bool, order: seq<int>): (s: seq<real>)
    requires |order| == |t|
    ensures |s| == |t|
    ensures !rescale || density >= 1.0 ==> s == t
    ensures forall i :: 0 <= i < |t| ==> (s[i] == 0.0 <==> t[i] == 0.0)
  {
    if density < 1.0 && rescale then
      var band := WrittenBand(|t|, density, gamma);
      RescaledSource(t, BandMask(|t|, order, band.0, band.1))
    else t
  }

  /** Whenever `n_top > 0` the written and the intended band give the same
      result and the same effect on the caller's tensor, so what is proved
      about the intended band holds for the program as written. */
  lemma WrittenAgreesWhenTopPositive(t: seq<real>, density: real, gamma: real, rescale: bool, order: seq<int>)
    requires |order| == |t| && 0.0 <= density && OutlierCounts(|t|, density, gamma).nTop > 0
    ensures WrittenOutliersOf(t, density, gamma, rescale, order) == MagnitudeOutliersOf(t, density, gamma, rescale, order)
    ensures var band := IntendedBand(|t|, density, gamma);
      density < 1.0 && rescale ==>
        TensorAfterOutliers(t, density, gamma, rescale, order) == RescaledSource(t, BandMask(|t|, order, band.0, band.1))
  {
    WrittenBandAgreesWhenTopPositive(|t|, density, gamma);
  }

  /** A gamma below `1 / numel` drops no large entry, so the written band is
      empty. */
  lemma SmallGammaEmptyBand(t: seq<real>, density: real, gamma: real)
    requires density < 1.0 && 0.0 <= gamma && gamma * |t| as real < 1.0
    ensures OutlierCounts(|t|, density, gamma).nTop == 0
    ensures WrittenBand(|t|, density, gamma).0 == WrittenBand(|t|, density, gamma).1
  {
    var n := |t|;
    var x := gamma * |t| as real;
    assert 0.0 <= x by {
      assert 0.0 <= |t| as real;
    }
    assert Trunc(x) == 0;
    assert KeepCount(density, n) <= n;
    WrittenBandEmptyWhenTopZero(n, density, gamma);
  }

  /** As written, a gamma below `1 / numel` (so also `sparsify`'s default
      `gamma = 0`) keeps no entry at all, whatever the density, and leaves
      the caller's tensor alone even when rescaling. */
  lemma WrittenSmallGammaKeepsNothing(t: seq<real>, density: real, gamma: real, rescale: bool, order: seq<int>)
    requires |order| == |t| && density < 1.0
    requires 0.0 <= gamma && gamma * |t| as real < 1.0
    ensures forall i :: 0 <= i < |t| ==> WrittenOutliersOf(t, density, gamma, rescale, order)[i] == 0.0
    ensures TensorAfterOutliers(t, density, gamma, rescale, order) == t
  {
    SmallGammaEmptyBand(t, density, gamma);
    EmptyBandKeepsNothing(t, rescale, order, WrittenBand(|t|, density, gamma));
  }

  /** An empty band zeroes the output, and `rescale_sum` then finds a zero
      kept sum and leaves the caller's tensor alone. */
  lemma EmptyBandKeepsNothing(t: seq<real>, rescale: bool, order: seq<int>, band: (nat, nat))
    requires |order| == |t| && band.0 == band.1 <= |t|
    ensures forall i :: 0 <= i < |t| ==> BandOutput(t, rescale, order, band)[i] == 0.0
    ensures RescaledSource(t, BandMask(|t|, order, band.0, band.1)) == t
  {
    var mask := BandMask(|t|, order, band.0, band.1);
    assert forall i :: 0 <= i < |t| ==> mask[i] == 0.0;
    AbsSumZeros(Mul(t, mask));
  }

  /** A concrete instance: four entries at density 0.5 and gamma 0 should keep
      two, and the written band keeps none. */
  lemma WrittenDefaultGammaExample(t: seq<real>, rescale: bool, order: seq<int>)
    requires |t| == 4 && |order| == 4
    ensures OutlierCounts(4, 0.5, 0.0) == Counts(2, 0, 2)
    ensures WrittenBand(4, 0.5, 0.0) == (2, 2)
    ensures IntendedBand(4, 0.5, 0.0) == (2, 4)
    ensures forall i :: 0 <= i < 4 ==> WrittenOutliersOf(t, 0.5, 0.0, rescale, order)[i] == 0.0
  {
    WrittenSmallGammaKeepsNothing(t, 0.5, 0.0, rescale, order);
  }

  /** The kept entries are the `target_n` entries from position `n_bot` of the
      ascending order: no dropped small entry outweighs a kept one and no kept
      entry outweighs a dropped large one, and the three groups partition the
      tensor into `n_bot`, `target_n` and `n_top` entries. */
  lemma OutliersKeepMiddleBand(t: seq<real>, density: real, gamma: real, order: seq<int>)
    requires ArgsortAscending(t, order) && 0.0 <= density < 1.0 && 0.0 <= gamma
    ensures var n, c := |t|, OutlierCounts(|t|, density, gamma);
      var band := IntendedBand(n, density, gamma);
      var kept := Support(BandMask(n, order, band.0, band.1));
      var low, high := Picked(order, 0, band.0), Picked(order, band.1, n);
      && kept == Picked(order, band.0, band.1)
      && |low| == c.nBot && |kept| == c.targetN && |high| == c.nTop
      && (forall x :: 0 <= x < n ==> x in low || x in kept || x in high)
      && low * kept == {} && kept * high == {} && low * high == {}
      && (forall a, b :: 0 <= a < n && 0 <= b < n && a in kept && b in low ==> Abs(t[b]) <= Abs(t[a]))
      && (forall a, b :: 0 <= a < n && 0 <= b < n && a in kept && b in high ==> Abs(t[a]) <= Abs(t[b]))
  {
    var n := |t|;
    IntendedBandKeepsTarget(n, density, gamma);
    var band := IntendedBand(n, density, gamma);
    BandMaskSupport(n, order, band.0, band.1);
    BandPartition(order, n, band.0, band.1);
    AscendingBandOrder(t, order, band.0, band.1);
  }

  /** Under the intended band a density in `[0, 1)` keeps as many positions
      as `magnitude` would, `int(density * numel)`, and the result's non-zero
      entries are those of `tensor * mask`. */
  lemma MagnitudeOutliersResult(t: seq<real>, density: real, gamma: real, rescale: bool, order: seq<int>)
    requires ArgsortAscending(t, order) && 0.0 <= density < 1.0 && 0.0 <= gamma
    ensures var band := IntendedBand(|t|, density, gamma);
      var mask := BandMask(|t|, order, band.0, band.1);
      var r := MagnitudeOutliersOf(t, density, gamma, rescale, order);
      && |Support(mask)| == KeepCount(density, |t|)
      && Support(r) == Support(Mul(t, mask))
      && Support(r) <= Picked(order, band.0, band.1)
      && (rescale && RescaleApplies(t, mask) ==> AbsSum(r) == AbsSum(t))
  {
    IntendedBandKeepsTarget(|t|, density, gamma);
    var band := IntendedBand(|t|, density, gamma);
    var mask := BandMask(|t|, order, band.0, band.1);
    RescaleSumZeroPattern(t, mask);
    if rescale && RescaleApplies(t, mask) {
      RescaleSumPreservesAbsSum(t, mask);
    }
    BandMaskSupport(|t|, order, band.0, band.1);
  }

  /** Lines 67-76 and the slice of line 84: the counts, the clamp, and the
      positions `indices[n_bot:-n_top]` selects. */
  method WrittenBandBounds(numElems: nat, density: real, gamma: real) returns (band: (nat, nat))
    ensures band == WrittenBand(numElems, density, gamma)
  {
    var targetN := KeepCount(density, numElems);
    var nTop := Trunc(gamma * numElems as real);
    var nBot := numElems - targetN - nTop;
    if nBot < 0 {
      nTop := nTop + nBot;
      nBot := 0;
    }
    assert Counts(targetN, nTop, nBot) == OutlierCounts(numElems, density, gamma);
    band := SliceBounds(nBot, -nTop, numElems);
  }

  /** `magnitude_outliers(tensor, density, rescale, gamma)`, with `order` the
      indices of `torch.sort(tensor.abs().view(-1))`, keeping the band
      `indices[n_bot:-n_top]` as the program does. */
  method MagnitudeOutliers(tensor: array<real>, density: real, rescale: bool, gamma: real, order: seq<int>)
    returns (res: array<real>)
    requires ArgsortAscending(tensor[..], order)
    modifies tensor
    ensures density >= 1.0 ==> res == tensor
    ensures density < 1.0 ==> fresh(res)
    ensures res[..] == WrittenOutliersOf(old(tensor[..]), density, gamma, rescale, order)
    ensures tensor[..] == TensorAfterOutliers(old(tensor[..]), density, gamma, rescale, order)
  {
    if density >= 1.0 {
      return tensor;
    }
    var band := WrittenBandBounds(tensor.Length, density, gamma);
    var mask := BuildBandMask(tensor.Length, order, band.0, band.1);
    if rescale {
      res := RescaleSum(tensor, mask);
    } else {
      res := MaskedCopy(tensor, mask[..]);
    }
  }
}
