/** Values shared by every strategy: error kinds, the result of a strategy,
    and the elementwise arithmetic of a tensor seen through `view(-1)`
    (its entries in row-major order). Values are exact reals. */
module Errors {

  /** The three failures the masking kernel reports. */
  datatype Error =
    /** `magnitude`: the density keeps no entry (`k == 0`). */
    | DegenerateDensity
    /** `rank_magnitude`: the band `density -+ epsilon` is refused; the
        message reports `density + epsilon` and `density - epsilon`. */
    | InvalidBand(upper: real, lower: real)
    /** `sparsify`: the method tag is not routed. */
    | NotImplemented(tag: string)

  datatype Result<T> = Ok(value: T) | Err(error: Error)
}

module Tensors {

  /** The shape a 2-D view gives a flat tensor: `rows` rows of `cols` entries. */
  datatype Shape = Shape(rows: nat, cols: nat)

  function Abs(x: real): (r: real)
    ensures 0.0 <= r && (r == x || r == -x)
  {
    if x < 0.0 then -x else x
  }

  /** Python's `int(x)` on a float: rounds toward zero. */
  function Trunc(x: real): (r: int)
    ensures 0.0 <= x ==> 0 <= r && r as real <= x < r as real + 1.0
    ensures x < 0.0 ==> r <= 0 && r as real - 1.0 < x <= r as real
  {
    if 0.0 <= x then x.Floor else -((-x).Floor)
  }

  /** Elementwise product `tensor * mask`. */
  function Mul(t: seq<real>, m: seq<real>): (r: seq<real>)
    requires |t| == |m|
    ensures |r| == |t|
    ensures forall i :: 0 <= i < |t| ==> r[i] == t[i] * m[i]
  {
    seq(|t|, i requires 0 <= i < |t| => t[i] * m[i])
  }

  /** `tensor * c` for a scalar `c`. */
  function Scale(t: seq<real>, c: real): (r: seq<real>)
    ensures |r| == |t|
    ensures forall i :: 0 <= i < |t| ==> r[i] == t[i] * c
  {
    seq(|t|, i requires 0 <= i < |t| => t[i] * c)
  }

  /** `tensor.abs()`. */
  function Magnitudes(t: seq<real>): (r: seq<real>)
    ensures |r| == |t|
    ensures forall i :: 0 <= i < |t| ==> r[i] == Abs(t[i])
  {
    seq(|t|, i requires 0 <= i < |t| => Abs(t[i]))
  }

  /** `.sum()`, added up from the front. */
  function Sum(t: seq<real>): real
  {
    if |t| == 0 then 0.0 else Sum(t[..|t| - 1]) + t[|t| - 1]
  }

  /** `tensor.abs().sum()`, which is never negative. */
  function AbsSum(t: seq<real>): (r: real)
    ensures 0.0 <= r
  {
    SumNonnegative(Magnitudes(t));
    Sum(Magnitudes(t))
  }

  /** A sum of non-negative entries is non-negative. */
  lemma {:induction false} SumNonnegative(t: seq<real>)
    requires forall i :: 0 <= i < |t| ==> 0.0 <= t[i]
    ensures 0.0 <= Sum(t)
  {
    if |t| > 0 {
      SumNonnegative(t[..|t| - 1]);
    }
  }

  /** A sum of zeros is zero. */
  lemma {:induction false} SumZeros(t: seq<real>)
    requires forall i :: 0 <= i < |t| ==> t[i] == 0.0
    ensures Sum(t) == 0.0
  {
    if |t| > 0 {
      SumZeros(t[..|t| - 1]);
    }
  }

  /** An all-zero tensor has absolute sum zero. */
  lemma AbsSumZeros(t: seq<real>)
    requires forall i :: 0 <= i < |t| ==> t[i] == 0.0
    ensures AbsSum(t) == 0.0
  {
    SumZeros(Magnitudes(t));
  }

  /** A sum is linear in a scalar factor. */
  lemma {:induction false} SumScale(t: seq<real>, c: real)
    ensures Sum(Scale(t, c)) == c * Sum(t)
  {
    if |t| > 0 {
      var n := |t| - 1;
      ScalePrefix(t, c, n);
      SumScale(t[..n], c);
    }
  }

  lemma ScalePrefix(t: seq<real>, c: real, n: nat)
    requires n <= |t|
    ensures Scale(t, c)[..n] == Scale(t[..n], c)
  {
    assert forall i :: 0 <= i < n ==> Scale(t, c)[..n][i] == Scale(t[..n], c)[i];
  }

  lemma AbsScaled(x: real, c: real)
    requires 0.0 <= c
    ensures Abs(x * c) == Abs(x) * c
  {
    if x < 0.0 {
      assert x * c <= 0.0;
    } else {
      assert x * c >= 0.0;
    }
  }

  /** Scaling by a non-negative factor scales the absolute sum by it. */
  lemma AbsSumScale(t: seq<real>, c: real)
    requires 0.0 <= c
    ensures AbsSum(Scale(t, c)) == c * AbsSum(t)
  {
    MagnitudesScale(t, c);
    SumScale(Magnitudes(t), c);
  }

  lemma MagnitudesScale(t: seq<real>, c: real)
    requires 0.0 <= c
    ensures Magnitudes(Scale(t, c)) == Scale(Magnitudes(t), c)
  {
    forall i | 0 <= i < |t|
      ensures Magnitudes(Scale(t, c))[i] == Scale(Magnitudes(t), c)[i]
    {
      AbsScaled(t[i], c);
    }
  }

  /** A mask holds only zeros and ones. */
  predicate IsBinary(m: seq<real>)
  {
    forall i :: 0 <= i < |m| ==> m[i] == 0.0 || m[i] == 1.0
  }

  /** The positions whose entry is not zero. */
  function Support(t: seq<real>): set<int>
  {
    set i | 0 <= i < |t| && t[i] != 0.0
  }

  /** Masking commutes with scaling: `(t * c) * m == (t * m) * c`. */
  lemma MulScaleCommute(t: seq<real>, m: seq<real>, c: real)
    requires |t| == |m|
    ensures Mul(Scale(t, c), m) == Scale(Mul(t, m), c)
  {
    assert forall i :: 0 <= i < |t| ==> Mul(Scale(t, c), m)[i] == Scale(Mul(t, m), c)[i];
  }

  /** `tensor.abs().sum()` computed over an array. */
  method AbsSumOf(a: array<real>) returns (s: real)
    ensures s == AbsSum(a[..])
  {
    ghost var m := Magnitudes(a[..]);
    s := 0.0;
    for i := 0 to a.Length
      invariant s == Sum(m[..i])
    {
      assert m[..i + 1][..i] == m[..i];
      s := s + Abs(a[i]);
    }
    assert m[..a.Length] == m;
  }

  /** A new tensor holding `a * m`. */
  method MaskedCopy(a: array<real>, m: seq<real>) returns (r: array<real>)
    requires a.Length == |m|
    ensures fresh(r) && r[..] == Mul(a[..], m)
  {
    r := new real[a.Length];
    for i := 0 to a.Length
      invariant forall k :: 0 <= k < i ==> r[k] == a[k] * m[k]
    {
      r[i] := a[i] * m[i];
    }
    assert forall k :: 0 <= k < a.Length ==> r[..][k] == Mul(a[..], m)[k];
  }

  /** A new tensor holding the entries `s`. */
  method FromSeq(s: seq<real>) returns (a: array<real>)
    ensures fresh(a) && a[..] == s
  {
    a := new real[|s|](k requires 0 <= k < |s| => s[k]);
    assert forall k :: 0 <= k < |s| ==> a[..][k] == s[k];
  }

  /** `a *= c`, in place. */
  method ScaleInPlace(a: array<real>, c: real)
    modifies a
    ensures a[..] == Scale(old(a[..]), c)
  {
    for i := 0 to a.Length
      invariant forall k :: 0 <= k < i ==> a[k] == old(a[k]) * c
      invariant forall k :: i <= k < a.Length ==> a[k] == old(a[k])
    {
      a[i] := a[i] * c;
    }
    assert forall k :: 0 <= k < a.Length ==> a[..][k] == Scale(old(a[..]), c)[k];
  }
}
