/** Orders of a tensor's entries as `torch.argsort` and `torch.sort` give
    them, the positions a slice of such an order picks, the 0/1 mask built
    from those positions, and the ranks an order assigns. Tie order between
    equal magnitudes is left open: an order is any permutation that is sorted
    by magnitude. */
module Orders {
  import opened Tensors

  /** `p` lists each of `0 .. n-1` exactly once (injective and onto). */
  ghost predicate IsPermutation(p: seq<int>, n: nat)
  {
    && |p| == n
    && (forall i :: 0 <= i < |p| ==> 0 <= p[i] < |p|)
    && (forall i, j :: 0 <= i < j < |p| ==> p[i] != p[j])
    && (forall x :: 0 <= x < |p| ==> x in p)
  }

  /** `p` is a result of `argsort(|t|, descending=True)`: a permutation of the
      positions of `t`, non-increasing in magnitude, ties in any order. */
  ghost predicate ArgsortDescending(t: seq<real>, p: seq<int>): (b: bool)
    ensures b ==> |p| == |t|
  {
    IsPermutation(p, |t|) && forall i, j :: 0 <= i < j < |p| ==> Abs(t[p[i]]) >= Abs(t[p[j]])
  }

  /** `p` is a result of `argsort(|t|)` or `sort(|t|).indices`: a permutation
      of the positions of `t`, non-decreasing in magnitude, ties in any order. */
  ghost predicate ArgsortAscending(t: seq<real>, p: seq<int>): (b: bool)
    ensures b ==> |p| == |t|
  {
    IsPermutation(p, |t|) && forall i, j :: 0 <= i < j < |p| ==> Abs(t[p[i]]) <= Abs(t[p[j]])
  }

  /** The entries `p[lo..hi]`, as a set of positions. */
  function Picked(p: seq<int>, lo: int, hi: int): set<int>
    requires 0 <= lo <= hi <= |p|
  {
    set i | lo <= i < hi :: p[i]
  }

  /** The first position of `x` in `s`. */
  function IndexOf(s: seq<int>, x: int): (r: nat)
    requires x in s
    ensures r < |s| && s[r] == x
    ensures forall j :: 0 <= j < r ==> s[j] != x
  {
    if s[0] == x then 0 else 1 + IndexOf(s[1..], x)
  }

  /** Every position of `t` appears in a descending argsort, and the first
      holds a largest magnitude. */
  lemma ArgsortDescendingFirst(t: seq<real>, p: seq<int>)
    requires ArgsortDescending(t, p) && 0 < |p|
    ensures forall x :: 0 <= x < |t| ==> x in p && Abs(t[x]) <= Abs(t[p[0]])
  {
    forall x | 0 <= x < |t|
      ensures x in p && Abs(t[x]) <= Abs(t[p[0]])
    {
      var k := IndexOf(p, x);
    }
  }

  /** Every position of `t` appears in an ascending argsort, and the first
      holds a smallest magnitude. */
  lemma ArgsortAscendingFirst(t: seq<real>, p: seq<int>)
    requires ArgsortAscending(t, p) && 0 < |p|
    ensures forall x :: 0 <= x < |t| ==> x in p && Abs(t[p[0]]) <= Abs(t[x])
  {
    forall x | 0 <= x < |t|
      ensures x in p && Abs(t[p[0]]) <= Abs(t[x])
    {
      var k := IndexOf(p, x);
    }
  }

  /** In a permutation, the position of `p[j]` is `j`. */
  lemma IndexOfPermutation(p: seq<int>, n: nat, j: int)
    requires IsPermutation(p, n) && 0 <= j < n
    ensures IndexOf(p, p[j]) == j
  {
  }

  /** A slice of a permutation picks as many positions as it is long. */
  lemma {:induction false} PickedCard(p: seq<int>, n: nat, lo: int, hi: int)
    requires IsPermutation(p, n) && 0 <= lo <= hi <= n
    ensures |Picked(p, lo, hi)| == hi - lo
  {
    if lo == hi {
      assert Picked(p, lo, hi) == {};
    } else {
      PickedCard(p, n, lo, hi - 1);
      assert Picked(p, lo, hi) == Picked(p, lo, hi - 1) + {p[hi - 1]};
      assert p[hi - 1] !in Picked(p, lo, hi - 1);
    }
  }

  /** A position of a permutation lies in the slice `[lo, hi)` of it exactly
      when its index in the permutation does. */
  lemma PickedIndex(p: seq<int>, n: nat, lo: int, hi: int, x: int)
    requires IsPermutation(p, n) && 0 <= lo <= hi <= n && 0 <= x < n
    ensures x in Picked(p, lo, hi) <==> lo <= IndexOf(p, x) < hi
  {
    if x in Picked(p, lo, hi) {
      var i :| lo <= i < hi && p[i] == x;
      IndexOfPermutation(p, n, i);
    }
  }

  /** The slices `p[0:lo]`, `p[lo:hi]` and `p[hi:n]` of a permutation partition
      `0 .. n-1` into `lo`, `hi - lo` and `n - hi` positions. */
  lemma BandPartition(p: seq<int>, n: nat, lo: nat, hi: nat)
    requires IsPermutation(p, n) && lo <= hi <= n
    ensures var low, mid, high := Picked(p, 0, lo), Picked(p, lo, hi), Picked(p, hi, n);
      && (forall x :: 0 <= x < n ==> x in low || x in mid || x in high)
      && low * mid == {} && mid * high == {} && low * high == {}
      && |low| == lo && |mid| == hi - lo && |high| == n - hi
  {
    var low, mid, high := Picked(p, 0, lo), Picked(p, lo, hi), Picked(p, hi, n);
    forall x | 0 <= x < n
      ensures x in low <==> IndexOf(p, x) < lo
      ensures x in mid <==> lo <= IndexOf(p, x) < hi
      ensures x in high <==> hi <= IndexOf(p, x)
    {
      PickedIndex(p, n, 0, lo, x);
      PickedIndex(p, n, lo, hi, x);
      PickedIndex(p, n, hi, n, x);
    }
    assert forall x :: x in low ==> 0 <= x < n;
    assert forall x :: x in mid ==> 0 <= x < n;
    PickedCard(p, n, 0, lo);
    PickedCard(p, n, lo, hi);
    PickedCard(p, n, hi, n);
  }

  /** In an ascending order, no position below a band outweighs one inside it
      and none inside outweighs one above it. */
  lemma AscendingBandOrder(t: seq<real>, p: seq<int>, lo: nat, hi: nat)
    requires ArgsortAscending(t, p) && lo <= hi <= |t|
    ensures forall a, b :: 0 <= a < |t| && 0 <= b < |t| && a in Picked(p, lo, hi) && b in Picked(p, 0, lo) ==> Abs(t[b]) <= Abs(t[a])
    ensures forall a, b :: 0 <= a < |t| && 0 <= b < |t| && a in Picked(p, lo, hi) && b in Picked(p, hi, |t|) ==> Abs(t[a]) <= Abs(t[b])
  {
    var n := |t|;
    forall a, b | 0 <= a < n && 0 <= b < n && a in Picked(p, lo, hi) && b in Picked(p, 0, lo)
      ensures Abs(t[b]) <= Abs(t[a])
    {
      PickedIndex(p, n, lo, hi, a);
      PickedIndex(p, n, 0, lo, b);
      var i, j := IndexOf(p, b), IndexOf(p, a);
      assert i < j;
    }
    forall a, b | 0 <= a < n && 0 <= b < n && a in Picked(p, lo, hi) && b in Picked(p, hi, n)
      ensures Abs(t[a]) <= Abs(t[b])
    {
      PickedIndex(p, n, lo, hi, a);
      PickedIndex(p, n, hi, n, b);
      var i, j := IndexOf(p, a), IndexOf(p, b);
      assert i < j;
    }
  }

  /** Python's normalisation of one slice bound against a length `len`. */
  function SliceIndex(i: int, len: nat): (r: nat)
    ensures r <= len
  {
    if i < 0 then (if i + len < 0 then 0 else i + len)
    else if i > len then len
    else i
  }

  /** The positions `[lo, hi)` that `s[start:stop]` selects from a sequence of
      length `len`; `lo == hi` when the slice is empty. */
  function SliceBounds(start: int, stop: int, len: nat): (b: (nat, nat))
    ensures b.0 <= b.1 <= len
    ensures 0 <= start <= len && 0 <= len + stop && stop < 0 && start <= len + stop ==> b == (start, len + stop)
    ensures 0 <= start <= len && stop == 0 ==> b.0 == b.1
  {
    var lo := SliceIndex(start, len);
    var hi := SliceIndex(stop, len);
    (lo, if hi < lo then lo else hi)
  }

  /** The mask with a one at each position `p[lo..hi]` and zeros elsewhere. */
  function BandMask(n: nat, p: seq<int>, lo: nat, hi: nat): (m: seq<real>)
    requires lo <= hi <= |p|
    ensures |m| == n && IsBinary(m)
    ensures forall j :: 0 <= j < n ==> (m[j] == 1.0 <==> j in Picked(p, lo, hi))
  {
    seq(n, j requires 0 <= j < n => if j in Picked(p, lo, hi) then 1.0 else 0.0)
  }

  /** A band of a permutation keeps exactly its positions, as many as the band
      is wide. */
  lemma BandMaskSupport(n: nat, p: seq<int>, lo: nat, hi: nat)
    requires IsPermutation(p, n) && lo <= hi <= n
    ensures Support(BandMask(n, p, lo, hi)) == Picked(p, lo, hi)
    ensures |Support(BandMask(n, p, lo, hi))| == hi - lo
  {
    var m := BandMask(n, p, lo, hi);
    forall x | x in Picked(p, lo, hi)
      ensures x in Support(m)
    {
      var i :| lo <= i < hi && p[i] == x;
    }
    PickedCard(p, n, lo, hi);
  }

  /** `mask = zeros_like(tensor); mask.view(-1)[p[lo:hi]] = 1`. */
  method BuildBandMask(n: nat, p: seq<int>, lo: nat, hi: nat) returns (mask: array<real>)
    requires lo <= hi <= |p|
    requires forall i :: 0 <= i < |p| ==> 0 <= p[i] < n
    ensures fresh(mask) && mask[..] == BandMask(n, p, lo, hi)
  {
    mask := new real[n](_ => 0.0);
    for i := lo to hi
      invariant mask.Length == n
      invariant forall j :: 0 <= j < n ==> mask[j] == (if j in Picked(p, lo, i) then 1.0 else 0.0)
    {
      assert Picked(p, lo, i + 1) == Picked(p, lo, i) + {p[i]};
      mask[p[i]] := 1.0;
    }
    assert forall j :: 0 <= j < n ==> mask[..][j] == BandMask(n, p, lo, hi)[j];
  }

  /** The rank every column gets from an ascending argsort `p`: its 1-based
      position in the order, so the permutation's inverse plus one. */
  function Ranks(p: seq<int>, n: nat): (r: seq<int>)
    requires IsPermutation(p, n)
    ensures |r| == |p|
    ensures forall j :: 0 <= j < |p| ==> r[p[j]] == j + 1
  {
    seq(|p|, x requires 0 <= x < |p| => IndexOf(p, x) + 1)
  }

  /** The ranks of a row are a permutation of `1 .. n`. */
  lemma RanksArePermutation(p: seq<int>, n: nat)
    requires IsPermutation(p, n)
    ensures forall x :: 0 <= x < |p| ==> 1 <= Ranks(p, n)[x] <= |p|
    ensures forall x, y :: 0 <= x < y < |p| ==> Ranks(p, n)[x] != Ranks(p, n)[y]
    ensures forall k :: 1 <= k <= |p| ==> k in Ranks(p, n)
  {
    var r := Ranks(p, n);
    forall x, y | 0 <= x < y < |p|
      ensures r[x] != r[y]
    {
      assert p[IndexOf(p, x)] == x && p[IndexOf(p, y)] == y;
    }
    forall k | 1 <= k <= |p|
      ensures k in r
    {
      assert r[p[k - 1]] == k;
    }
  }

  /** A strictly smaller magnitude has a strictly smaller rank. */
  lemma RanksFollowMagnitude(row: seq<real>, p: seq<int>, a: int, b: int)
    requires ArgsortAscending(row, p)
    requires 0 <= a < |row| && 0 <= b < |row|
    requires Abs(row[a]) < Abs(row[b])
    ensures Ranks(p, |row|)[a] < Ranks(p, |row|)[b]
  {
    var i, j := IndexOf(p, a), IndexOf(p, b);
    assert i < j;
  }

  /** `ranking.min(dim=1)` of one row. */
  function SeqMin(s: seq<int>): (m: int)
    requires |s| > 0
    ensures m in s
    ensures forall i :: 0 <= i < |s| ==> m <= s[i]
  {
    if |s| == 1 then s[0]
    else
      var rest := SeqMin(s[1..]);
      if s[0] <= rest then s[0] else rest
  }

  /** `ranking.max(dim=1)` of one row. */
  function SeqMax(s: seq<int>): (m: int)
    requires |s| > 0
    ensures m in s
    ensures forall i :: 0 <= i < |s| ==> s[i] <= m
  {
    if |s| == 1 then s[0]
    else
      var rest := SeqMax(s[1..]);
      if s[0] >= rest then s[0] else rest
  }

  /** The smallest rank of a row is 1 and the largest is the row length. */
  lemma RanksMinMax(p: seq<int>, n: nat)
    requires IsPermutation(p, n) && n > 0
    ensures SeqMin(Ranks(p, n)) == 1
    ensures SeqMax(Ranks(p, n)) == |p|
  {
    var r := Ranks(p, n);
    RanksArePermutation(p, n);
    assert r[p[0]] == 1;
    assert r[p[|p| - 1]] == |p|;
  }
}
