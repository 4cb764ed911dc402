/** `rank_magnitude`: rank the entries of every row by magnitude, map the
    ranks linearly onto keep-probabilities in `[density - epsilon,
    density + epsilon]`, draw a Bernoulli mask from them and optionally
    divide what is kept by its probability. A 1-D tensor is one row. The
    argsort of each row and the draws are parameters. */
module RankSampling {
  import opened Errors
  import opened Tensors
  import opened Orders

  /** The band `density -+ epsilon` that `rank_magnitude` refuses. For a
      non-negative epsilon it accepts exactly the bands inside `(0, 1)`. */
  predicate BandInvalid(density: real, epsilon: real)
    ensures 0.0 <= epsilon ==>
      (!BandInvalid(density, epsilon) <==> 0.0 < density - epsilon && density + epsilon < 1.0)
  {
    density <= epsilon || density >= 1.0 - epsilon
  }

  /** Both ends `density -+ epsilon` of the band lie in `(0, 1]`, so every
      keep-probability is one `torch.bernoulli` accepts and the rescaling may
      divide by. */
  predicate ProbabilitiesAccepted(density: real, epsilon: real)
  {
    0.0 < density - Abs(epsilon) && density + Abs(epsilon) <= 1.0
  }

  /** A band that passes the check with a non-negative epsilon has both ends
      inside `(0, 1)`. */
  lemma AcceptedBand(density: real, epsilon: real)
    requires 0.0 <= epsilon && !BandInvalid(density, epsilon)
    ensures ProbabilitiesAccepted(density, epsilon)
    ensures 0.0 < density - epsilon && density + epsilon < 1.0
  {
  }

  /** The rows of a flat `rows x cols` tensor, in order. */
  function Rows(t: seq<real>, rows: nat, cols: nat): (r: seq<seq<real>>)
    requires |t| == rows * cols
    ensures |r| == rows
    ensures forall i :: 0 <= i < rows ==> |r[i]| == cols
    ensures Flatten(r) == t
    decreases rows
  {
    if rows == 0 then []
    else
      PeelRow(rows, cols);
      [t[..cols]] + Rows(t[cols..], rows - 1, cols)
  }

  lemma PeelRow(rows: nat, cols: nat)
    requires 0 < rows
    ensures rows * cols == cols + (rows - 1) * cols
  {
  }

  /** The rows laid end to end (`view(-1)` of a 2-D tensor). */
  function Flatten(rs: seq<seq<real>>): seq<real>
  {
    if |rs| == 0 then [] else rs[0] + Flatten(rs[1..])
  }

  lemma {:induction false} FlattenLength(rs: seq<seq<real>>, cols: nat)
    requires forall i :: 0 <= i < |rs| ==> |rs[i]| == cols
    ensures |Flatten(rs)| == |rs| * cols
  {
    if |rs| > 0 {
      FlattenLength(rs[1..], cols);
      PeelRow(|rs|, cols);
    }
  }

  /** Splitting a flattened tensor into rows gives the rows back. */
  lemma {:induction false} RowsOfFlatten(rs: seq<seq<real>>, cols: nat)
    requires forall i :: 0 <= i < |rs| ==> |rs[i]| == cols
    ensures |Flatten(rs)| == |rs| * cols
    ensures Rows(Flatten(rs), |rs|, cols) == rs
  {
    FlattenLength(rs, cols);
    if |rs| > 0 {
      RowsOfFlatten(rs[1..], cols);
      var f := Flatten(rs);
      assert f[..cols] == rs[0];
      assert f[cols..] == Flatten(rs[1..]);
    }
  }

  /** Row `i` of a 2-D array. */
  function RowOf(a: array2<int>, i: nat): (r: seq<int>)
    requires i < a.Length0
    reads a
    ensures |r| == a.Length1
    ensures forall x :: 0 <= x < a.Length1 ==> r[x] == a[i, x]
  {
    seq(a.Length1, x requires 0 <= x < a.Length1 reads a => a[i, x])
  }

  /** The rows of a 2-D array. */
  function RowsOf(a: array2<int>): (rs: seq<seq<int>>)
    reads a
    ensures |rs| == a.Length0
    ensures forall i :: 0 <= i < a.Length0 ==> rs[i] == RowOf(a, i)
  {
    seq(a.Length0, i requires 0 <= i < a.Length0 reads a => RowOf(a, i))
  }

  /** `ranking_tensor[i][sorted_indices[i]] = arange(1, cols + 1)` for every
      row `i`: each column gets its 1-based position in the row's ascending
      order. */
  method RankRows(argsorts: seq<seq<int>>, rows: nat, cols: nat) returns (ranking: array2<int>)
    requires |argsorts| == rows
    requires forall i :: 0 <= i < rows ==> IsPermutation(argsorts[i], cols)
    ensures fresh(ranking) && ranking.Length0 == rows && ranking.Length1 == cols
    ensures RowsOf(ranking) == RankTable(argsorts, rows, cols)
  {
    ranking := new int[rows, cols]((_, _) => 0);
    for i := 0 to rows
      invariant forall r, x :: 0 <= r < i && 0 <= x < cols ==> ranking[r, x] == Ranks(argsorts[r], cols)[x]
    {
      var order := argsorts[i];
      for j := 0 to cols
        invariant forall r, x :: 0 <= r < i && 0 <= x < cols ==> ranking[r, x] == Ranks(argsorts[r], cols)[x]
        invariant forall k :: 0 <= k < j ==> ranking[i, order[k]] == k + 1
      {
        ranking[i, order[j]] := j + 1;
      }
      forall x | 0 <= x < cols
        ensures ranking[i, x] == Ranks(order, cols)[x]
      {
        assert order[IndexOf(order, x)] == x;
      }
    }
    forall i | 0 <= i < rows
      ensures RowsOf(ranking)[i] == RankTable(argsorts, rows, cols)[i]
    {
      assert RowOf(ranking, i) == Ranks(argsorts[i], cols);
    }
  }

  /** A row of ranks: values in `1 .. n` with both `1` and `n` present. */
  predicate IsRankRow(r: seq<int>)
  {
    && |r| >= 2
    && (forall j :: 0 <= j < |r| ==> 1 <= r[j] <= |r|)
    && 1 in r && |r| in r
  }

  lemma RankRowExtremes(r: seq<int>)
    requires IsRankRow(r)
    ensures SeqMin(r) == 1 && SeqMax(r) == |r|
  {
  }

  lemma RanksAreRankRow(p: seq<int>, n: nat)
    requires IsPermutation(p, n) && n >= 2
    ensures IsRankRow(Ranks(p, n))
  {
    RanksArePermutation(p, n);
  }

  /** The keep-probability of the entry ranked `rank` in a row whose ranks run
      from `lo` to `hi`: `(density - epsilon) + (rank - lo) / (hi - lo) *
      (2 * epsilon)`. The lowest rank gets `density - epsilon` and the
      highest `density + epsilon`. */
  function RankProbability(rank: int, lo: int, hi: int, density: real, epsilon: real): (p: real)
    requires lo < hi
    ensures rank == lo ==> p == density - epsilon
    ensures rank == hi ==> p == density + epsilon
  {
    UnitFraction(rank - lo, hi - lo);
    (density - epsilon) + ((rank - lo) as real / (hi - lo) as real) * (2.0 * epsilon)
  }

  /** A rank between `lo` and `hi` is mapped between `density - |epsilon|`
      and `density + |epsilon|`, whatever the sign of epsilon. */
  lemma RankProbabilityBand(rank: int, lo: int, hi: int, density: real, epsilon: real)
    requires lo <= rank <= hi && lo < hi
    ensures density - Abs(epsilon) <= RankProbability(rank, lo, hi, density, epsilon) <= density + Abs(epsilon)
  {
    var u := (rank - lo) as real / (hi - lo) as real;
    UnitFraction(rank - lo, hi - lo);
    ScaleUnit(u, 2.0 * epsilon);
  }

  /** The mapping is non-decreasing in the rank for a non-negative epsilon
      and non-increasing for a non-positive one, strictly so when epsilon is
      not zero. */
  lemma RankProbabilityMonotone(r1: int, r2: int, lo: int, hi: int, density: real, epsilon: real)
    requires r1 <= r2 && lo < hi
    ensures 0.0 <= epsilon ==> RankProbability(r1, lo, hi, density, epsilon) <= RankProbability(r2, lo, hi, density, epsilon)
    ensures epsilon <= 0.0 ==> RankProbability(r2, lo, hi, density, epsilon) <= RankProbability(r1, lo, hi, density, epsilon)
    ensures r1 < r2 && 0.0 < epsilon ==>
      RankProbability(r1, lo, hi, density, epsilon) < RankProbability(r2, lo, hi, density, epsilon)
    ensures r1 < r2 && epsilon < 0.0 ==>
      RankProbability(r2, lo, hi, density, epsilon) < RankProbability(r1, lo, hi, density, epsilon)
  {
    FractionMonotone(r1 - lo, r2 - lo, hi - lo);
    ScaleMonotone((r1 - lo) as real / (hi - lo) as real, (r2 - lo) as real / (hi - lo) as real, 2.0 * epsilon);
  }

  lemma UnitFraction(a: int, b: int)
    requires 0 < b
    ensures 0 <= a <= b ==> 0.0 <= a as real / b as real <= 1.0
    ensures a == 0 ==> a as real / b as real == 0.0
    ensures a == b ==> a as real / b as real == 1.0
  {
  }

  lemma FractionMonotone(a: int, b: int, d: int)
    requires a <= b && 0 < d
    ensures a as real / d as real <= b as real / d as real
    ensures a < b ==> a as real / d as real < b as real / d as real
  {
  }

  lemma ScaleUnit(u: real, c: real)
    requires 0.0 <= u <= 1.0
    ensures 0.0 <= c ==> 0.0 <= u * c <= c
    ensures c <= 0.0 ==> c <= u * c <= 0.0
  {
  }

  lemma ScaleMonotone(u: real, v: real, c: real)
    requires u <= v
    ensures 0.0 <= c ==> u * c <= v * c
    ensures c <= 0.0 ==> v * c <= u * c
    ensures u < v && 0.0 < c ==> u * c < v * c
    ensures u < v && c < 0.0 ==> v * c < u * c
  {
  }

  /** `final_probabilities` of one row, normalised by the row's min and max
      rank. */
  function KeepProbabilities(ranking: seq<int>, density: real, epsilon: real): (p: seq<real>)
    requires |ranking| > 0 && SeqMin(ranking) < SeqMax(ranking)
    ensures |p| == |ranking|
    ensures forall j :: 0 <= j < |ranking| ==>
      p[j] == RankProbability(ranking[j], SeqMin(ranking), SeqMax(ranking), density, epsilon)
  {
    var lo, hi := SeqMin(ranking), SeqMax(ranking);
    seq(|ranking|, j requires 0 <= j < |ranking| => RankProbability(ranking[j], lo, hi, density, epsilon))
  }

  /** On the ranks of a row of `n` entries the probability of the entry ranked
      `k` is `(density - epsilon) + (k - 1) / (n - 1) * 2 * epsilon`: the
      smallest magnitude gets `density - epsilon` and the largest
      `density + epsilon`. */
  lemma ProbabilityOfRank(p: seq<int>, n: nat, density: real, epsilon: real)
    requires IsPermutation(p, n) && n >= 2
    ensures (RanksMinMax(p, n);
      var probs := KeepProbabilities(Ranks(p, n), density, epsilon);
      && (forall x :: 0 <= x < n ==> probs[x] == RankProbability(Ranks(p, n)[x], 1, n, density, epsilon))
      && probs[p[0]] == density - epsilon && probs[p[n - 1]] == density + epsilon)
  {
    RanksMinMax(p, n);
    RanksArePermutation(p, n);
  }

  /** Every probability of a row lies between `density - |epsilon|` and
      `density + |epsilon|`: in `(0, 1]` when both ends are, and strictly
      between 0 and 1 when the band passes the check with a non-negative
      epsilon. */
  lemma ProbabilitiesInBand(ranking: seq<int>, density: real, epsilon: real)
    requires IsRankRow(ranking)
    ensures SeqMin(ranking) < SeqMax(ranking)
    ensures forall j :: 0 <= j < |ranking| ==>
      density - Abs(epsilon) <= KeepProbabilities(ranking, density, epsilon)[j] <= density + Abs(epsilon)
    ensures ProbabilitiesAccepted(density, epsilon) ==>
      forall j :: 0 <= j < |ranking| ==> 0.0 < KeepProbabilities(ranking, density, epsilon)[j] <= 1.0
    ensures 0.0 <= epsilon && !BandInvalid(density, epsilon) ==>
      forall j :: 0 <= j < |ranking| ==> 0.0 < KeepProbabilities(ranking, density, epsilon)[j] < 1.0
  {
    RankRowExtremes(ranking);
    forall j | 0 <= j < |ranking|
      ensures density - Abs(epsilon) <= KeepProbabilities(ranking, density, epsilon)[j] <= density + Abs(epsilon)
    {
      RankProbabilityBand(ranking[j], 1, |ranking|, density, epsilon);
    }
  }

  /** A positive epsilon gives a strictly smaller magnitude a strictly smaller
      probability, a negative one a strictly larger, and a zero epsilon the
      same. */
  lemma ProbabilityFollowsMagnitude(row: seq<real>, p: seq<int>, density: real, epsilon: real, a: int, b: int)
    requires ArgsortAscending(row, p) && |row| >= 2
    requires 0 <= a < |row| && 0 <= b < |row| && Abs(row[a]) < Abs(row[b])
    ensures (RanksMinMax(p, |row|);
      var probs := KeepProbabilities(Ranks(p, |row|), density, epsilon);
      && (0.0 <= epsilon ==> probs[a] <= probs[b])
      && (epsilon <= 0.0 ==> probs[b] <= probs[a])
      && (0.0 < epsilon ==> probs[a] < probs[b])
      && (epsilon < 0.0 ==> probs[b] < probs[a]))
  {
    RanksMinMax(p, |row|);
    RanksFollowMagnitude(row, p, a, b);
    RankProbabilityMonotone(Ranks(p, |row|)[a], Ranks(p, |row|)[b], 1, |row|, density, epsilon);
  }

  /** `tensor * mask`, divided entry by entry by the probabilities when
      rescaling: a 0 draw drops an entry, a 1 draw keeps it, divided by its
      probability when rescaling. */
  function SampleRow(row: seq<real>, probs: seq<real>, draw: seq<real>, rescale: bool): (r: seq<real>)
    requires |probs| == |row| && |draw| == |row|
    requires rescale ==> forall j :: 0 <= j < |row| ==> probs[j] != 0.0
    ensures |r| == |row|
    ensures forall j :: 0 <= j < |row| && draw[j] == 0.0 ==> r[j] == 0.0
    ensures forall j :: 0 <= j < |row| && draw[j] == 1.0 ==> r[j] == (if rescale then row[j] / probs[j] else row[j])
  {
    var res := Mul(row, draw);
    if rescale then seq(|row|, j requires 0 <= j < |row| => res[j] / probs[j]) else res
  }

  /** One row of `rank_magnitude`'s result, from the row, its ranks and its
      draws: an entry whose draw is 0 is dropped; one whose draw is 1 is kept,
      and divided by its rank's probability when rescaling. */
  function RankedRow(row: seq<real>, ranking: seq<int>, draw: seq<real>, density: real, epsilon: real, rescale: bool): (r: seq<real>)
    requires IsRankRow(ranking) && |row| == |ranking| && |draw| == |row|
    requires ProbabilitiesAccepted(density, epsilon)
    ensures |r| == |row|
    ensures (ProbabilitiesInBand(ranking, density, epsilon);
      var probs := KeepProbabilities(ranking, density, epsilon);
      && (forall j :: 0 <= j < |row| && draw[j] == 0.0 ==> r[j] == 0.0)
      && (forall j :: 0 <= j < |row| && draw[j] == 1.0 ==> r[j] == (if rescale then row[j] / probs[j] else row[j])))
  {
    ProbabilitiesInBand(ranking, density, epsilon);
    SampleRow(row, KeepProbabilities(ranking, density, epsilon), draw, rescale)
  }

  /** Every row is ranked by an ascending argsort of its magnitudes. */
  ghost predicate RowArgsorts(t: seq<real>, shape: Shape, argsorts: seq<seq<int>>)
    requires |t| == shape.rows * shape.cols
  {
    && |argsorts| == shape.rows
    && forall i :: 0 <= i < shape.rows ==> ArgsortAscending(Rows(t, shape.rows, shape.cols)[i], argsorts[i])
  }

  /** What `rank_magnitude` needs of its inputs: every row has an argsort of
      the row's length and there is one draw per entry. */
  ghost predicate WellShaped(t: seq<real>, shape: Shape, argsorts: seq<seq<int>>, draws: seq<real>)
  {
    && |t| == shape.rows * shape.cols
    && |draws| == |t|
    && |argsorts| == shape.rows
    && forall i :: 0 <= i < shape.rows ==> IsPermutation(argsorts[i], shape.cols)
  }

  /** The ranks of every row, from its ascending argsort. */
  function RankTable(argsorts: seq<seq<int>>, rows: nat, cols: nat): (rk: seq<seq<int>>)
    requires |argsorts| == rows && forall i :: 0 <= i < rows ==> IsPermutation(argsorts[i], cols)
    ensures |rk| == rows
    ensures forall i :: 0 <= i < rows ==> rk[i] == Ranks(argsorts[i], cols)
  {
    seq(rows, i requires 0 <= i < rows => Ranks(argsorts[i], cols))
  }

  lemma RankTableRows(argsorts: seq<seq<int>>, rows: nat, cols: nat)
    requires |argsorts| == rows && forall i :: 0 <= i < rows ==> IsPermutation(argsorts[i], cols)
    requires 2 <= cols
    ensures forall i :: 0 <= i < rows ==>
      IsRankRow(RankTable(argsorts, rows, cols)[i]) && |RankTable(argsorts, rows, cols)[i]| == cols
  {
    forall i | 0 <= i < rows
      ensures IsRankRow(RankTable(argsorts, rows, cols)[i])
    {
      RanksAreRankRow(argsorts[i], cols);
    }
  }

  /** All rows of the result, before they are laid end to end. */
  function RankedRows(t: seq<real>, shape: Shape, density: real, rescale: bool, epsilon: real,
                      ranks: seq<seq<int>>, draws: seq<real>): (rs: seq<seq<real>>)
    requires |t| == shape.rows * shape.cols && |draws| == |t| && |ranks| == shape.rows
    requires forall i :: 0 <= i < shape.rows ==> IsRankRow(ranks[i]) && |ranks[i]| == shape.cols
    requires ProbabilitiesAccepted(density, epsilon)
    ensures |rs| == shape.rows
    ensures forall i :: 0 <= i < shape.rows ==> |rs[i]| == shape.cols
  {
    var rows := Rows(t, shape.rows, shape.cols);
    var drawRows := Rows(draws, shape.rows, shape.cols);
    seq(shape.rows, i requires 0 <= i < shape.rows =>
      RankedRow(rows[i], ranks[i], drawRows[i], density, epsilon, rescale))
  }

  /** The value `rank_magnitude(tensor, density, rescale, epsilon)` returns, or
      its failure. The identity case is decided before the band is checked. */
  function RankMagnitudeOf(t: seq<real>, shape: Shape, density: real, rescale: bool, epsilon: real,
                           argsorts: seq<seq<int>>, draws: seq<real>): (r: Result<seq<real>>)
    requires WellShaped(t, shape, argsorts, draws)
    requires density < 1.0 && !BandInvalid(density, epsilon) ==> 2 <= shape.cols && ProbabilitiesAccepted(density, epsilon)
    ensures density >= 1.0 ==> r == Ok(t)
    ensures density < 1.0 ==> (r.Err? <==> BandInvalid(density, epsilon))
    ensures r.Err? ==> r.error == InvalidBand(density + epsilon, density - epsilon)
    ensures r.Ok? ==> |r.value| == |t|
  {
    if density >= 1.0 then Ok(t)
    else if BandInvalid(density, epsilon) then Err(InvalidBand(density + epsilon, density - epsilon))
    else
      RankTableRows(argsorts, shape.rows, shape.cols);
      var rs := RankedRows(t, shape, density, rescale, epsilon, RankTable(argsorts, shape.rows, shape.cols), draws);
      FlattenLength(rs, shape.cols);
      Ok(Flatten(rs))
  }

  /** Row `i` of the result is row `i` of the tensor sampled with the ranks of
      that row alone. */
  lemma RankMagnitudeRowwise(t: seq<real>, shape: Shape, density: real, rescale: bool, epsilon: real,
                             argsorts: seq<seq<int>>, draws: seq<real>, i: nat)
    requires WellShaped(t, shape, argsorts, draws)
    requires density < 1.0 && !BandInvalid(density, epsilon) && 2 <= shape.cols && ProbabilitiesAccepted(density, epsilon)
    requires i < shape.rows
    ensures var r := RankMagnitudeOf(t, shape, density, rescale, epsilon, argsorts, draws).value;
      (RanksAreRankRow(argsorts[i], shape.cols);
       Rows(r, shape.rows, shape.cols)[i]
         == RankedRow(Rows(t, shape.rows, shape.cols)[i], Ranks(argsorts[i], shape.cols),
                      Rows(draws, shape.rows, shape.cols)[i], density, epsilon, rescale))
  {
    RankTableRows(argsorts, shape.rows, shape.cols);
    var rs := RankedRows(t, shape, density, rescale, epsilon, RankTable(argsorts, shape.rows, shape.cols), draws);
    RowsOfFlatten(rs, shape.cols);
  }

  /** The ranking and sampling steps of `rank_magnitude` once the band is
      accepted: a new tensor holding every row sampled with its ranks. */
  method SampleByRank(tensor: array<real>, shape: Shape, density: real, rescale: bool, epsilon: real,
                      argsorts: seq<seq<int>>, draws: seq<real>) returns (res: array<real>)
    requires WellShaped(tensor[..], shape, argsorts, draws)
    requires 2 <= shape.cols && !BandInvalid(density, epsilon) && ProbabilitiesAccepted(density, epsilon)
    ensures fresh(res)
    ensures (RankTableRows(argsorts, shape.rows, shape.cols);
      res[..] == Flatten(RankedRows(tensor[..], shape, density, rescale, epsilon,
                                    RankTable(argsorts, shape.rows, shape.cols), draws)))
  {
    var ranking := RankRows(argsorts, shape.rows, shape.cols);
    var ranks := RowsOf(ranking);
    RankTableRows(argsorts, shape.rows, shape.cols);
    res := FromSeq(Flatten(RankedRows(tensor[..], shape, density, rescale, epsilon, ranks, draws)));
  }

  /** `rank_magnitude(tensor, density, rescale, epsilon)` with the ascending
      argsort of every row and the draws of `torch.bernoulli` given. */
  method RankMagnitude(tensor: array<real>, shape: Shape, density: real, rescale: bool, epsilon: real,
                       argsorts: seq<seq<int>>, draws: seq<real>) returns (r: Result<array<real>>)
    requires WellShaped(tensor[..], shape, argsorts, draws)
    requires RowArgsorts(tensor[..], shape, argsorts)
    requires density < 1.0 && !BandInvalid(density, epsilon) ==> 2 <= shape.cols && ProbabilitiesAccepted(density, epsilon)
    ensures density >= 1.0 ==> r == Ok(tensor)
    ensures density < 1.0 && r.Ok? ==> fresh(r.value)
    ensures var spec := RankMagnitudeOf(tensor[..], shape, density, rescale, epsilon, argsorts, draws);
      && r.Ok? == spec.Ok?
      && (r.Err? ==> r.error == spec.error)
      && (r.Ok? ==> r.value[..] == spec.value)
  {
    if density >= 1.0 {
      return Ok(tensor);
    }
    if BandInvalid(density, epsilon) {
      return Err(InvalidBand(density + epsilon, density - epsilon));
    }
    var res := SampleByRank(tensor, shape, density, rescale, epsilon, argsorts, draws);
    return Ok(res);
  }
}
