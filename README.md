# Sparsification of task vectors (mergekit `sparsify`)

This project models mergekit's sparsification kernel. It takes a task
vector (a tensor of parameter deltas) and a density, and zeroes out part of
the tensor with one of four masking strategies:

- **`magnitude`** keeps the `int(density * numel)` entries of largest magnitude.
  It refuses a density that keeps none.
- **`magnitude_outliers`** drops the `gamma` share of largest magnitudes
  and then the smallest entries. It keeps a band of the ascending order.
- **`random` (`bernoulli`)** keeps every entry independently with
  probability `density`.
- **`rank_magnitude_sampling`** ranks the entries of each row by magnitude
  and maps the ranks linearly onto keep-probabilities in
  `[density - epsilon, density + epsilon]`. Each entry is then kept with its
  own probability.

Optionally, what is kept is rescaled. The two magnitude strategies use
`rescale_sum`, which scales the caller's tensor in place so that the absolute
sum is kept. The two random strategies divide by the keep-probability.
`sparsify` routes a method tag to its strategy. `get_tall_mask` is the TALL
mask used by consensus merging.

A tensor is a flat sequence or array of exact reals: its `view(-1)`, in
row-major order. `rank_magnitude` also gets a `Shape(rows, cols)`, and a 1-D
tensor is a single row. Whatever the tensor library decides by sorting or by
chance is passed in as a parameter:

- argsorts are permutations sorted by magnitude, with ties in any order
  (`Orders.ArgsortDescending`, `Orders.ArgsortAscending`);
- Bernoulli draws are 0/1 tensors.

`rescale_sum`, the four strategies and `sparsify` each have two parts:

- a specification function on sequences (`MagnitudeOf`, `RescaleSumOf`,
  `RankMagnitudeOf`, `SparsifyOf`, …);
- a method on arrays. Its `ensures` ties its result to the function and
  gives the in-place effect on the caller's tensor (`TensorAfter…`).

The methods follow the source's loops and in-place writes step by step: the
band masks, the in-place rescale and the row-ranking loop of
`rank_magnitude` (`RankSampling.RankRows`). Whole-tensor expressions stay
single expressions: `RankSampling.SampleByRank` runs `RankRows` and then
takes lines 143-157 (the min/max normalisation, the probability map, the
mask product and the division) from the specification function
`RankedRows` in one step.

`get_tall_mask` and the work-dtype choice are plain expressions in the
source and are modelled as functions only (`Consensus.TallMask`,
`Precision.WorkDtype`).

The lemmas state what the strategies promise: which entries are kept, how
many, that every kept entry outweighs every dropped one, and that the
absolute sum is kept. They also cover that the probabilities stay in their
band and follow magnitude, when `sparsify` fails and with which error, and
the row-wise structure of rank sampling.

Files:

| file | module | models |
|---|---|---|
| `tensors.dfy` | `Errors`, `Tensors` | error kinds, `Result`, elementwise arithmetic, absolute sums |
| `orders.dfy` | `Orders` | argsort orders, Python slicing, band masks, ranks |
| `rescaling.dfy` | `Rescaling` | `rescale_sum` |
| `magnitude.dfy` | `TopKMagnitude` | `magnitude` |
| `outliers.dfy` | `OutlierBand` | `magnitude_outliers` |
| `precision.dfy` | `Precision` | the work dtype of the random strategies |
| `bernoulli.dfy` | `BernoulliMask` | `bernoulli` |
| `rank_sampling.dfy` | `RankSampling` | `rank_magnitude` |
| `dispatch.dfy` | `Dispatch` | `SparsificationMethod`, `sparsify` |
| `consensus.dfy` | `Consensus` | `get_tall_mask` |

Three details of the code that the model keeps exactly:

- **`consensus_ta`** is not routed: `sparsify` raises `NotImplementedError`
  for it, and `Dispatch.SparsifyOf` fails with `NotImplemented("consensus_ta")`.
- **CPU work dtype.** On the CPU every dtype other than bfloat16, float64
  included, is computed in float32 (`Precision.WorkDtype`).
- **The outlier band.** `magnitude_outliers` keeps `indices[n_bot:-n_top]` as
  written, which is empty when `n_top == 0` (see "## Findings"). The method
  `OutlierBand.MagnitudeOutliers` and `Dispatch.Sparsify` follow the code;
  the corrected band is modelled beside them.

## Model

| member | source | states |
|---|---|---|
| Tensors.Trunc | mergekit/sparsify.py:33 | `int(x)` of a float: the integer next to `x` on the side of zero, so it lies in `[x - 1, x]` or `[x, x + 1]` by sign |
| Tensors.Mul | mergekit/sparsify.py:46 | `tensor * mask`: entry `i` is `t[i] * m[i]`, same length |
| Tensors.Scale | mergekit/sparsify.py:24 | `tensor * c`: entry `i` is `t[i] * c`, same length |
| Tensors.Magnitudes | mergekit/sparsify.py:20-21 | `tensor.abs()`: entry `i` is `abs(t[i])` |
| Tensors.AbsSum | mergekit/sparsify.py:20-21 | `tensor.abs().sum()`, never negative |
| Tensors.AbsSumOf | mergekit/sparsify.py:20-21 | the loop computes `tensor.abs().sum()` of the array |
| Tensors.MaskedCopy | mergekit/sparsify.py:46 | a new tensor holding `tensor * mask` entry by entry |
| Tensors.ScaleInPlace | mergekit/sparsify.py:24 | `tensor *= c` scales every entry in place |
| Tensors.AbsSumScale | mergekit/sparsify.py:24 | scaling by `c >= 0` multiplies the absolute sum by `c` |
| Tensors.SumScale | mergekit/sparsify.py:20-24 | a sum is linear in a scalar factor |
| Tensors.MulScaleCommute | mergekit/sparsify.py:24-25 | scaling before masking equals masking before scaling |
| Orders.ArgsortDescending | mergekit/sparsify.py:40 | `torch.argsort(w, descending=True)`: a permutation of the positions, non-increasing in magnitude, ties in any order; as long as the tensor |
| Orders.ArgsortDescendingFirst | mergekit/sparsify.py:40 | every position appears in a descending argsort, and the first holds a largest magnitude of the tensor |
| Orders.ArgsortAscending | mergekit/sparsify.py:81 | `torch.sort(w).indices`, and each row of `torch.argsort(tensor_abs, dim=1)` at line 135: a permutation of the positions, non-decreasing in magnitude, ties in any order; as long as the tensor |
| Orders.ArgsortAscendingFirst | mergekit/sparsify.py:81 | every position appears in an ascending argsort, and the first holds a smallest magnitude of the tensor |
| Orders.SliceBounds | mergekit/sparsify.py:84 | Python's `s[start:stop]` positions; a negative stop counts from the end; a zero stop selects nothing |
| Orders.BandMask | mergekit/sparsify.py:36-41 | a 0/1 mask whose ones are exactly the positions `order[lo:hi]` |
| Orders.BuildBandMask | mergekit/sparsify.py:82-84 | zero mask, then a one written at each `order[i]` for `lo <= i < hi`; equals `BandMask` |
| Orders.BandMaskSupport | mergekit/sparsify.py:40-41 | the mask keeps exactly the positions of the band, `hi - lo` of them |
| Orders.PickedCard | mergekit/sparsify.py:40 | a slice of a permutation names as many positions as it is long |
| Orders.PickedIndex | mergekit/sparsify.py:40 | a position is in `order[lo:hi]` iff its index in the order is in `[lo, hi)` |
| Orders.BandPartition | mergekit/sparsify.py:81-84 | `order[:lo]`, `order[lo:hi]` and `order[hi:]` partition the positions, sized `lo`, `hi - lo`, `n - hi` |
| Orders.AscendingBandOrder | mergekit/sparsify.py:81-84 | in an ascending order no entry below the band outweighs one in it and none in it outweighs one above |
| Orders.Ranks | mergekit/sparsify.py:138-141 | the column at position `j` of the argsort gets rank `j + 1` |
| Orders.RanksArePermutation | mergekit/sparsify.py:138-141 | the ranks of a row are a permutation of `1 .. n` |
| Orders.RanksFollowMagnitude | mergekit/sparsify.py:135-141 | a strictly smaller magnitude gets a strictly smaller rank |
| Orders.RanksMinMax | mergekit/sparsify.py:144-147 | a row's smallest rank is 1 and its largest is the row length |
| Orders.SeqMin | mergekit/sparsify.py:146 | the row minimum is an entry and is below every entry |
| Orders.SeqMax | mergekit/sparsify.py:145 | the row maximum is an entry and is above every entry |
| Rescaling.RescaleApplies | mergekit/sparsify.py:23 | both absolute sums are at least `1e-8`, so both are positive and `org_sum / new_sum` is defined |
| Rescaling.RescaledSource | mergekit/sparsify.py:20-24 | the caller's tensor after `rescale_sum`: untouched unless both sums reach `1e-8`, and never a zero made or lost |
| Rescaling.RescaleSumOf | mergekit/sparsify.py:18-25 | the result is `tensor * mask` when the guard fails |
| Rescaling.RescaleSumZeroPattern | mergekit/sparsify.py:23-25 | the result is zero exactly where `tensor * mask` is |
| Rescaling.RescaleSumPreservesAbsSum | mergekit/sparsify.py:19-25 | when the guard holds, the result's absolute sum equals the original tensor's |
| Rescaling.RescaleSum | mergekit/sparsify.py:18-25 | scales the tensor in place as `RescaledSource` says and returns a new `RescaleSumOf` tensor |
| TopKMagnitude.KeepCount | mergekit/sparsify.py:33 | `k` is at most `numel` for a density below 1, and positive iff `density * numel >= 1` |
| TopKMagnitude.MagnitudeMask | mergekit/sparsify.py:36-41 | a binary mask of the tensor's length |
| TopKMagnitude.MagnitudeOf | mergekit/sparsify.py:28-48 | identity at density >= 1; below it, fails with `DegenerateDensity` iff `k <= 0`; else `tensor * mask` without rescaling; length kept |
| TopKMagnitude.TensorAfterMagnitude | mergekit/sparsify.py:43-44 | the caller's tensor changes only in a rescaled call that gets past the assertion, and keeps its zeros |
| TopKMagnitude.MagnitudeMaskKeepsLargest | mergekit/sparsify.py:36-41 | the mask keeps the first `k` of the descending order, exactly `k` entries, none smaller than a dropped one |
| TopKMagnitude.MagnitudeResult | mergekit/sparsify.py:43-48 | the result's non-zeros are those of `tensor * mask`, within the top `k`; rescaling keeps the absolute sum |
| TopKMagnitude.Magnitude | mergekit/sparsify.py:28-48 | returns the tensor itself at density >= 1; otherwise the result and error of `MagnitudeOf`, and the caller's tensor as `TensorAfterMagnitude` |
| OutlierBand.OutlierCounts | mergekit/sparsify.py:67-76 | `target_n == k`; the three counts add up to `numel`; `n_bot >= 0`; `n_top` is cut by the deficit exactly when `n_bot` would be negative |
| OutlierBand.WrittenBand | mergekit/sparsify.py:84 | the band `indices[n_bot:-n_top]` as written lies within the tensor |
| OutlierBand.IntendedBand | mergekit/sparsify.py:54-57 | the band `indices[n_bot:numel - n_top]` lies within the tensor |
| OutlierBand.IntendedBandKeepsTarget | mergekit/sparsify.py:54-76 | for `0 <= density < 1` and `gamma >= 0` the intended band is `[n_bot, numel - n_top)`, exactly `target_n` wide, with `n_top >= 0` |
| OutlierBand.WrittenBandAgreesWhenTopPositive | mergekit/sparsify.py:84 | with `n_top > 0` the written slice is the intended band |
| OutlierBand.WrittenBandEmptyWhenTopZero | mergekit/sparsify.py:84 | with `n_top == 0` the written slice is empty |
| OutlierBand.BandOutput | mergekit/sparsify.py:84-90 | masking to a band keeps the tensor's length |
| OutlierBand.WrittenOutliersOf | mergekit/sparsify.py:51-90 | `magnitude_outliers` as written: identity at density >= 1, length kept |
| OutlierBand.MagnitudeOutliersOf | mergekit/sparsify.py:51-90 | `magnitude_outliers` with the intended band: identity at density >= 1, length kept |
| OutlierBand.TensorAfterOutliers | mergekit/sparsify.py:84-87 | the caller's tensor under the written band: changed only in a rescaled call below density 1, and keeping its zeros |
| OutlierBand.WrittenAgreesWhenTopPositive | mergekit/sparsify.py:84-90 | with `n_top > 0` the written and intended bands give the same result and the same effect on the caller's tensor |
| OutlierBand.SmallGammaEmptyBand | mergekit/sparsify.py:69-84 | a gamma below `1 / numel` makes `n_top` zero and the written band empty, for any density below 1 |
| OutlierBand.EmptyBandKeepsNothing | mergekit/sparsify.py:23-25 | an empty band zeroes the output and `rescale_sum` leaves the caller's tensor alone |
| OutlierBand.WrittenSmallGammaKeepsNothing | mergekit/sparsify.py:69-90 | as written, any `0 <= gamma < 1 / numel` (the default of `sparsify` included) zeroes the whole output and leaves the caller's tensor untouched |
| OutlierBand.WrittenDefaultGammaExample | mergekit/sparsify.py:166-178 | four entries at density 0.5 and gamma 0: counts `(2, 0, 2)`, written band empty, intended band `[2, 4)`, output all zeros |
| OutlierBand.OutliersKeepMiddleBand | mergekit/sparsify.py:54-84 | the kept, bottom and top groups partition the tensor into `target_n`, `n_bot` and `n_top` entries; kept entries outweigh the bottom ones and are outweighed by the top ones |
| OutlierBand.MagnitudeOutliersResult | mergekit/sparsify.py:84-90 | the intended band keeps `int(density * numel)` positions; the result's non-zeros are those of `tensor * mask`, within the band; rescaling keeps the absolute sum |
| OutlierBand.WrittenBandBounds | mergekit/sparsify.py:67-84 | the counts, the clamp and the slice `indices[n_bot:-n_top]` computed step by step give `WrittenBand` |
| OutlierBand.MagnitudeOutliers | mergekit/sparsify.py:51-90 | the steps of the source with the slice `indices[n_bot:-n_top]`: the tensor itself at density >= 1, otherwise a new `WrittenOutliersOf` tensor, and the caller's tensor as `TensorAfterOutliers` |
| Precision.WorkDtype | mergekit/sparsify.py:97-101 | the chosen dtype has a CPU Bernoulli kernel; off the CPU it is the tensor's dtype; on the CPU a bfloat16 tensor stays bfloat16 and every other dtype, float16 and float64 included, is upcast or cast to float32 |
| Precision.WorkDtypeIdempotent | mergekit/sparsify.py:124-127 | choosing twice changes nothing; on the CPU a dtype is kept iff it is bfloat16 or float32 |
| BernoulliMask.BernoulliOf | mergekit/sparsify.py:93-110 | identity at density >= 1; length kept |
| BernoulliMask.BernoulliEntries | mergekit/sparsify.py:103-108 | a 0 draw drops an entry; a 1 draw keeps it, divided by `density` when rescaling; the non-zeros are those of `tensor * draws` |
| BernoulliMask.BernoulliRescaleAbsSum | mergekit/sparsify.py:107-108 | rescaling multiplies the kept absolute sum by `1 / density` |
| BernoulliMask.Bernoulli | mergekit/sparsify.py:93-110 | returns the tensor itself at density >= 1, otherwise a new tensor equal to `BernoulliOf` |
| RankSampling.BandInvalid | mergekit/sparsify.py:119 | the refused bands; with epsilon >= 0 a band is accepted iff `density - epsilon > 0` and `density + epsilon < 1` |
| RankSampling.AcceptedBand | mergekit/sparsify.py:119-122 | an accepted band with epsilon >= 0 has both ends strictly inside `(0, 1)`, so it is also in `ProbabilitiesAccepted` |
| RankSampling.Rows | mergekit/sparsify.py:129-135 | the rows of a `rows x cols` tensor, each `cols` long, which laid end to end give the tensor back |
| RankSampling.FlattenLength | mergekit/sparsify.py:159 | rows of `cols` entries flatten to `rows * cols` entries |
| RankSampling.RowsOfFlatten | mergekit/sparsify.py:129-159 | splitting a flattened tensor into rows gives the rows back |
| RankSampling.RankRows | mergekit/sparsify.py:137-141 | the nested loop fills a `rows x cols` table whose row `i` is the ranks of row `i`'s argsort |
| RankSampling.RankRowExtremes | mergekit/sparsify.py:144-147 | a rank row's minimum is 1 and its maximum its length |
| RankSampling.RanksAreRankRow | mergekit/sparsify.py:138-141 | the ranks of a row of two or more entries form a rank row |
| RankSampling.RankProbability | mergekit/sparsify.py:143-151 | the rank-to-probability map sends the lowest rank to `density - epsilon` and the highest to `density + epsilon` |
| RankSampling.RankProbabilityBand | mergekit/sparsify.py:151 | every rank between `lo` and `hi` maps into `[density - abs(epsilon), density + abs(epsilon)]`, for either sign of epsilon |
| RankSampling.RankProbabilityMonotone | mergekit/sparsify.py:151 | the map is non-decreasing in the rank for epsilon >= 0 and non-increasing for epsilon <= 0, strictly when epsilon is not zero |
| RankSampling.KeepProbabilities | mergekit/sparsify.py:143-151 | each probability is the rank's position between the row's min and max rank, mapped onto the band |
| RankSampling.ProbabilityOfRank | mergekit/sparsify.py:143-151 | on a row of `n` ranks the normalisation is `(rank - 1) / (n - 1)`; the smallest magnitude gets `density - epsilon`, the largest `density + epsilon` |
| RankSampling.ProbabilitiesInBand | mergekit/sparsify.py:119-151 | every probability lies within `density -+ abs(epsilon)`; in `(0, 1]` when both ends are; strictly between 0 and 1 when the band passes the check with epsilon >= 0 |
| RankSampling.ProbabilityFollowsMagnitude | mergekit/sparsify.py:133-151 | for a strictly smaller magnitude: a smaller probability when epsilon > 0, a larger one when epsilon < 0, the same when it is 0 |
| RankSampling.SampleRow | mergekit/sparsify.py:153-157 | a 0 draw drops an entry; a 1 draw keeps it, divided by its probability when rescaling |
| RankSampling.RankedRow | mergekit/sparsify.py:151-157 | the same for a row sampled with its rank probabilities |
| RankSampling.RankedRows | mergekit/sparsify.py:153-157 | one sampled row of `cols` entries per row of the tensor |
| RankSampling.RankTable | mergekit/sparsify.py:137-141 | row `i` of the table is the ranks of row `i`'s argsort |
| RankSampling.RankTableRows | mergekit/sparsify.py:137-147 | with two or more columns every row of the table is a rank row of `cols` entries |
| RankSampling.RankMagnitudeOf | mergekit/sparsify.py:113-159 | identity at density >= 1; below it fails iff the band is refused, reporting `density + epsilon` and `density - epsilon`; length kept |
| RankSampling.RankMagnitudeRowwise | mergekit/sparsify.py:135-159 | row `i` of the result is row `i` of the tensor sampled with the ranks and draws of that row alone |
| RankSampling.SampleByRank | mergekit/sparsify.py:133-157 | the ranking loop followed by sampling gives a new tensor holding every row sampled with its ranks |
| RankSampling.RankMagnitude | mergekit/sparsify.py:113-159 | returns the tensor itself at density >= 1; otherwise the result and error of `RankMagnitudeOf` |
| Dispatch.ValueInjective | mergekit/sparsify.py:9-15 | distinct method tags have distinct string values |
| Dispatch.SparsifyOf | mergekit/sparsify.py:162-182 | a routed strategy keeps the length; `consensus_ta` fails with `NotImplemented("consensus_ta")`; `magnitude_outliers` uses the band as written |
| Dispatch.TensorAfterSparsify | mergekit/sparsify.py:170-178 | only the two magnitude strategies with rescaling touch the caller's tensor, and never change its zeros |
| Dispatch.SparsifyIdentity | mergekit/sparsify.py:30-117 | every routed method returns the tensor unchanged at density >= 1 and leaves the caller's tensor alone |
| Dispatch.SparsifyFailures | mergekit/sparsify.py:162-182 | `sparsify` fails iff the tag is `consensus_ta`, or a magnitude tag keeps no entry, or rank sampling's band is refused; each with its own error (within `Admissible`; for `random`, a negative density is read as the draws, see `BernoulliMask.BernoulliOf` under Left out) |
| Dispatch.DefaultOutliersKeepNothing | mergekit/sparsify.py:166-178 | with the default keyword arguments `magnitude_outliers` below density 1 returns all zeros and leaves the caller's tensor alone |
| Dispatch.ConsensusTiesIsMagnitude | mergekit/sparsify.py:170-174 | `consensus_ties` behaves as `magnitude`, in result and in effect |
| Dispatch.Sparsify | mergekit/sparsify.py:162-182 | the result is the tensor itself or a new one; result and error as in `SparsifyOf`; the caller's tensor as in `TensorAfterSparsify` |
| Consensus.TallMask | mergekit/sparsify.py:185-191 | one boolean per entry |
| Consensus.TallMaskAntitone | mergekit/sparsify.py:190 | a larger `lambda` keeps no entry that a smaller one drops |
| Consensus.TallMaskCases | mergekit/sparsify.py:190 | with `lambda >= 0` zeros are dropped; with `lambda == 0`, or where the task and merged vectors agree, exactly the non-zeros are kept |
| Consensus.TallMaskStrict | mergekit/sparsify.py:190 | for all inputs: an entry equal to or below its scaled distance is dropped, one above it kept |
| Consensus.TallMaskStrictExample | mergekit/sparsify.py:190 | two concrete vectors: at exactly the scaled distance both entries are dropped, beyond it both kept |

## Left out

- **Floating point.** Entries are exact reals. Rounding, overflow, NaN and
  infinity are not modelled. Neither are the float casts of the magnitudes
  (`w.float()`) or the dtype casts of the random strategies. A dtype is
  only a tag, and `Precision.WorkDtype` models the choice.
- TopKMagnitude.KeepCount: `int()`'s truncation toward zero is modelled
  (`Tensors.Trunc`), but `density * numel` is taken as an exact real
  product. In the source it is a rounded float product, and the rounding can
  move `k` by one: in doubles `0.29 * 100` is `28.999999999999996`, so
  `magnitude` keeps 28 entries where `KeepCount(0.29, 100)` is 29. The same
  holds for `target_n` and `n_top` of `OutlierBand.OutlierCounts`
  (`density * numel` and `gamma * numel`).
- **Devices.** The device is not modelled beyond the CPU/accelerator split
  in `Precision`.
- **Random draws.** The draws of `torch.bernoulli` are a 0/1 parameter.
  That each is 1 with the stated probability is a fact about the generator,
  so it is not stated.
- **Tie order and the sort itself.** `torch.argsort` and `torch.sort` are
  parameters: any permutation sorted by magnitude is accepted, whatever the
  order between ties.
- **Rank of the tensor.** `rank_magnitude` works on 1-D and 2-D tensors only.
  `unsqueeze(0)` and `squeeze(0)` are implicit: a 1-D tensor is one row and
  the result is flat.
- RankSampling.RankMagnitude: requires, when sampling happens, at least two
  columns and both ends `density -+ epsilon` of the band in `(0, 1]`
  (`ProbabilitiesAccepted`); `RankSampling.RankMagnitudeOf`,
  `RankSampling.SampleByRank` and `Dispatch.Admissible` require the same.
  With one column the source's normalisation divides by zero (NaN). A
  negative epsilon may pass the check at line 119 and still give an end
  outside `[0, 1]`, which `torch.bernoulli` refuses, or an end of exactly 0,
  by which rescaling divides. The model excludes an end of 0 with or without
  rescaling, although without rescaling the source succeeds there (density
  0.3, epsilon -0.3). Bands with both ends in `(0, 1]`, negative epsilons
  included, are modelled.
- RankSampling.RankMagnitude: the argsorts are required to belong to the
  tensor's rows, but the contract does not use this. The result is stated
  for any row permutations.
- BernoulliMask.BernoulliOf: requires a non-zero density when rescaling. The
  source divides by zero there. A negative density is refused by
  `torch.bernoulli`; the model reads it as whatever the draws are.
- Rescaling.RescaleSum: requires the mask to be a different tensor from the
  input. The source never passes the same tensor twice.
- **Error messages.** The assertion text of `magnitude` and the formatted
  text of the `rank_magnitude` error are not modelled. The errors carry
  their kind, and `InvalidBand` carries the two reported values.
- **Defaults.** Each strategy's own parameter defaults (`gamma = 0.01` of
  `magnitude_outliers`, `rescale = True, epsilon = 0.05` of `rank_magnitude`)
  are not modelled separately. Within the core only `sparsify` calls them,
  and it always passes `gamma`, `rescale` and `epsilon` explicitly, so the
  strategies' own defaults never apply through it. `Dispatch.DefaultParams`
  are the defaults of `sparsify` itself.

## Findings

| source | as written | input that shows it | evidently intended | confidence | as-written member | corrected member |
|---|---|---|---|---|---|---|
| mergekit/sparsify.py:84 | the mask keeps `indices[n_bot:-n_top]`; when `n_top == 0` this is `indices[n_bot:0]`, which is empty, so every entry is zeroed | 4 entries, density 0.5, gamma 0 (the default `sparsify` passes): `target_n = 2`, `n_top = 0`, `n_bot = 2`; the band is `[2, 2)` and the output is all zeros | keep the band `[n_bot, numel - n_top)` of the ascending order, `target_n` entries wide, as the docstring at lines 54-57 describes | not executed | OutlierBand.WrittenSmallGammaKeepsNothing | OutlierBand.IntendedBandKeepsTarget |

The written slice is modelled by `OutlierBand.WrittenBand` and
`OutlierBand.WrittenOutliersOf`. The method `OutlierBand.MagnitudeOutliers`
and `Dispatch.Sparsify` follow it, as the program does.
`OutlierBand.WrittenDefaultGammaExample` works the concrete input through
them, and `Dispatch.DefaultOutliersKeepNothing` states it for every call
of `sparsify` with the default keyword arguments. The corrected band is
`OutlierBand.IntendedBand`, with `OutlierBand.MagnitudeOutliersOf`,
`OutlierBand.OutliersKeepMiddleBand` and `OutlierBand.MagnitudeOutliersResult`
proved about it. `OutlierBand.WrittenAgreesWhenTopPositive` carries those
facts over to the program whenever `n_top > 0`.
