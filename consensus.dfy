/** `get_tall_mask`: the entries of one task vector that outweigh, by the
    factor `lambda`, their distance to the merged multi-task vector. */
module Consensus {
  import opened Tensors

  /** `delta.abs() > lambda_factor * (mixed_delta - delta).abs()`, entry by
      entry, with a strict comparison. */
  function TallMask(delta: seq<real>, lambdaFactor: real, mixedDelta: seq<real>): (m: seq<bool>)
    requires |delta| == |mixedDelta|
    ensures |m| == |delta|
  {
    seq(|delta|, i requires 0 <= i < |delta| => Abs(delta[i]) > lambdaFactor * Abs(mixedDelta[i] - delta[i]))
  }

  /** A larger `lambda` keeps no entry a smaller one drops. */
  lemma TallMaskAntitone(delta: seq<real>, lo: real, hi: real, mixedDelta: seq<real>)
    requires |delta| == |mixedDelta| && lo <= hi
    ensures forall i :: 0 <= i < |delta| && TallMask(delta, hi, mixedDelta)[i] ==> TallMask(delta, lo, mixedDelta)[i]
  {
    forall i | 0 <= i < |delta| && TallMask(delta, hi, mixedDelta)[i]
      ensures TallMask(delta, lo, mixedDelta)[i]
    {
      var d := Abs(mixedDelta[i] - delta[i]);
      assert lo * d <= hi * d by {
        assert (hi - lo) * d >= 0.0;
      }
    }
  }

  /** With a non-negative `lambda` a zero entry is never kept; with `lambda`
      zero exactly the non-zero entries are kept; where the task vector
      agrees with the merged one every non-zero entry is kept. */
  lemma TallMaskCases(delta: seq<real>, lambdaFactor: real, mixedDelta: seq<real>)
    requires |delta| == |mixedDelta|
    ensures 0.0 <= lambdaFactor ==>
      forall i :: 0 <= i < |delta| && delta[i] == 0.0 ==> !TallMask(delta, lambdaFactor, mixedDelta)[i]
    ensures lambdaFactor == 0.0 ==>
      forall i :: 0 <= i < |delta| ==> (TallMask(delta, lambdaFactor, mixedDelta)[i] <==> delta[i] != 0.0)
    ensures forall i :: 0 <= i < |delta| && mixedDelta[i] == delta[i] ==>
      (TallMask(delta, lambdaFactor, mixedDelta)[i] <==> delta[i] != 0.0)
  {
    forall i | 0 <= i < |delta|
      ensures 0.0 <= lambdaFactor && delta[i] == 0.0 ==> !TallMask(delta, lambdaFactor, mixedDelta)[i]
    {
      if 0.0 <= lambdaFactor {
        assert lambdaFactor * Abs(mixedDelta[i] - delta[i]) >= 0.0;
      }
    }
  }

  /** The comparison is strict: an entry whose magnitude equals its scaled
      distance to the merged vector is dropped, one that exceeds it is kept,
      and one below it is dropped. */
  lemma TallMaskStrict(delta: seq<real>, lambdaFactor: real, mixedDelta: seq<real>)
    requires |delta| == |mixedDelta|
    ensures forall i :: 0 <= i < |delta| && Abs(delta[i]) == lambdaFactor * Abs(mixedDelta[i] - delta[i]) ==>
      !TallMask(delta, lambdaFactor, mixedDelta)[i]
    ensures forall i :: 0 <= i < |delta| && Abs(delta[i]) < lambdaFactor * Abs(mixedDelta[i] - delta[i]) ==>
      !TallMask(delta, lambdaFactor, mixedDelta)[i]
    ensures forall i :: 0 <= i < |delta| && Abs(delta[i]) > lambdaFactor * Abs(mixedDelta[i] - delta[i]) ==>
      TallMask(delta, lambdaFactor, mixedDelta)[i]
  {
  }

  /** Two instances: entries at exactly their scaled distance are dropped,
      entries beyond it kept. */
  lemma TallMaskStrictExample()
    ensures TallMask([2.0, -1.0], 1.0, [4.0, 0.0]) == [false, false]
    ensures TallMask([2.0, -1.0], 1.0, [3.0, -1.0]) == [true, true]
  {
    assert Abs(4.0 - 2.0) == 2.0;
    assert Abs(0.0 - -1.0) == 1.0;
  }
}
