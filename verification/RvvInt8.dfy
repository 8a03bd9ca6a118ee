/** The int8 kernels of src/simd/distances_rvv.cc: per strip, widen, multiply, reduce into
    an int32 and add to an int32 accumulator. Lane types are subset types, so that every
    widening step stays in range is a typing obligation; the two 32-bit additions wrap.
 */
module RvvInt8 {
  import opened Arith
  import opened Int32
  import opened IntSums
  import opened RvvMachine

  datatype Metric = InnerProduct | SquaredL2

  /** vwmul_vv_i16m2 then vsext_vf2_i32m4, or vwsub_vv_i16m2 then vwmul_vv_i32m4. */
  function WidenedTerm(metric: Metric, a: int8, b: int8): int32 {
    match metric
    case InnerProduct => MulBounds(a, b); var product: int16 := a * b; product
    case SquaredL2 => var diff: int16 := a - b; SquareBounds(diff); diff * diff
  }

  lemma MulBounds(a: int, b: int)
    requires -128 <= a <= 127 && -128 <= b <= 127
    ensures -16256 <= a * b <= 16384
  {
    var c := if b >= 0 then b else -b;
    MulMono(-128, a, c);
    MulMono(a, 127, c);
  }

  lemma SquareBounds(a: int)
    requires -255 <= a <= 255
    ensures 0 <= a * a <= 65025
  {
    var c := if a >= 0 then a else -a;
    MulMono(0, c, c);
    MulMono(c, 255, c);
    assert c * c == a * a;
  }

  function Terms(metric: Metric, x: seq<int8>, y: seq<int8>): (t: seq<int>)
    requires |x| == |y|
    ensures |t| == |x| && forall i :: 0 <= i < |x| ==> t[i] == WidenedTerm(metric, x[i], y[i])
  {
    seq(|x|, i requires 0 <= i < |x| => WidenedTerm(metric, x[i], y[i]))
  }

  /** The two metrics: a squared distance is the squared norms less twice the inner product. */
  lemma {:induction false} SquaresExpand(x: seq<int8>, y: seq<int8>)
    requires |x| == |y|
    ensures Sum(Terms(SquaredL2, x, y))
         == Sum(Terms(InnerProduct, x, x)) + Sum(Terms(InnerProduct, y, y)) - 2 * Sum(Terms(InnerProduct, x, y))
  {
    if |x| > 0 {
      var n := |x| - 1;
      SquaresExpand(x[..n], y[..n]);
      TermsLast(SquaredL2, x, y);
      TermsLast(InnerProduct, x, x);
      TermsLast(InnerProduct, y, y);
      TermsLast(InnerProduct, x, y);
      SquareOfDifference(x[n], y[n]);
    }
  }

  lemma TermsLast(metric: Metric, x: seq<int8>, y: seq<int8>)
    requires |x| == |y| > 0
    ensures
      var n := |x| - 1;
      Sum(Terms(metric, x, y)) == Sum(Terms(metric, x[..n], y[..n])) + WidenedTerm(metric, x[n], y[n])
  {
    assert Terms(metric, x, y)[..|x| - 1] == Terms(metric, x[..|x| - 1], y[..|x| - 1]);
  }

  lemma SquareOfDifference(a: int, b: int)
    ensures (a - b) * (a - b) == a * a + b * b - 2 * (a * b)
  {
  }

  /** ivec_inner_product_ref, ivec_L2sqr_ref (and the int8_vec_* references, before their
      final conversion to float), with the 32-bit accumulator wrapping. */
  method ScalarReference(metric: Metric, x: seq<int8>, y: seq<int8>) returns (res: int32)
    requires |x| == |y|
    ensures res == Wrap32(Sum(Terms(metric, x, y)))
  {
    ghost var t := Terms(metric, x, y);
    res := 0;
    for i := 0 to |x|
      invariant res == Wrap32(Sum(t[..i]))
    {
      assert t[..i + 1][..i] == t[..i];
      WrapOfSum(Sum(t[..i]), t[i]);
      res := Wrap32(res + WidenedTerm(metric, x[i], y[i]));
    }
    assert t[..|x|] == t;
  }

  lemma StripAdds(t: seq<int>, i: nat, vl: nat)
    requires i + vl <= |t|
    ensures Wrap32(Wrap32(Sum(t[..i])) + Wrap32(Sum(t[i..i + vl]))) == Wrap32(Sum(t[..i + vl]))
  {
    assert t[..i + vl] == t[..i] + t[i..i + vl];
    SumConcat(t[..i], t[i..i + vl]);
    WrapOfSum(Sum(t[..i]), Wrap32(Sum(t[i..i + vl])));
    WrapOfSum(Sum(t[..i]), Sum(t[i..i + vl]));
  }

  lemma StripTerms(metric: Metric, x: seq<int8>, y: seq<int8>, i: nat, vl: nat)
    requires |x| == |y| && i + vl <= |x|
    ensures Terms(metric, x[i..i + vl], y[i..i + vl]) == Terms(metric, x, y)[i..i + vl]
  {
  }

  /** The strip-mined kernels: for every legal strip split the result is the scalar sum
      modulo 2^32, that is, exactly what the scalar reference returns. */
  method StripMined(m: Machine, metric: Metric, x: seq<int8>, y: seq<int8>) returns (res: int32)
    requires Legal(m) && |x| == |y|
    ensures res == Wrap32(Sum(Terms(metric, x, y)))
  {
    ghost var t := Terms(metric, x, y);
    res := 0;
    var i: nat := 0;
    while i < |x|
      invariant i <= |x| && res == Wrap32(Sum(t[..i]))
    {
      StripBounds(m, |x| - i);
      var vl := m.vsetvl(|x| - i);
      StripTerms(metric, x, y, i, vl);
      StripAdds(t, i, vl);
      res := Wrap32(res + Wrap32(Sum(Terms(metric, x[i..i + vl], y[i..i + vl]))));
      i := i + vl;
    }
    assert t[..|x|] == t;
  }

  const MAX_DIM_L2 := 33025
  const MAX_DIM_IP := 131071

  function MaxDim(metric: Metric): nat {
    if metric == SquaredL2 then MAX_DIM_L2 else MAX_DIM_IP
  }

  ghost predicate NeverOverflows(metric: Metric, d: nat) {
    forall x: seq<int8>, y: seq<int8> :: |x| == |y| == d ==>
      Wrap32(Sum(Terms(metric, x, y))) == Sum(Terms(metric, x, y))
  }

  /** The int32 accumulator holds the true sum for all vectors of a dimension exactly up to
      33025 (squared L2) and 131071 (inner product). */
  lemma OverflowBound(metric: Metric, d: nat)
    ensures NeverOverflows(metric, d) <==> d <= MaxDim(metric)
  {
    if d <= MaxDim(metric) {
      forall x: seq<int8>, y: seq<int8> | |x| == |y| == d
        ensures Wrap32(Sum(Terms(metric, x, y))) == Sum(Terms(metric, x, y))
      {
        SumInRange(metric, x, y);
      }
    } else {
      OverflowWitness(metric, d);
    }
  }

  lemma SumInRange(metric: Metric, x: seq<int8>, y: seq<int8>)
    requires |x| == |y| <= MaxDim(metric)
    ensures -0x8000_0000 <= Sum(Terms(metric, x, y)) < 0x8000_0000
  {
    var t := Terms(metric, x, y);
    if metric == SquaredL2 {
      forall i | 0 <= i < |t| ensures 0 <= t[i] <= 65025 {
        TermBounds(x[i], y[i]);
      }
      SumBounds(t, 0, 65025);
    } else {
      forall i | 0 <= i < |t| ensures -16256 <= t[i] <= 16384 {
        TermBounds(x[i], y[i]);
      }
      SumBounds(t, -16256, 16384);
    }
  }

  lemma TermBounds(a: int8, b: int8)
    ensures -16256 <= WidenedTerm(InnerProduct, a, b) <= 16384
    ensures 0 <= WidenedTerm(SquaredL2, a, b) <= 65025
  {
    var i: int, j: int := a, b;
    MulBounds(i, j);
    SquareBounds(i - j);
  }

  /** The first k coordinates contribute `peak` each, the others nothing. */
  lemma PeakSum(t: seq<int>, k: nat, peak: int)
    requires k <= |t| && (forall i :: 0 <= i < k ==> t[i] == peak) && (forall i :: k <= i < |t| ==> t[i] == 0)
    ensures Sum(t) == peak * k
  {
    SumSplit(t, k);
    SumConstant(t[..k], peak);
    SumConstant(t[k..], 0);
  }

  /** Extreme coordinates in the first coordinates past the bound, equal ones (or zeros) elsewhere. */
  lemma OverflowWitness(metric: Metric, d: nat)
    requires d > MaxDim(metric)
    ensures !NeverOverflows(metric, d)
  {
    var k := MaxDim(metric) + 1;
    var x: seq<int8> := seq(d, i => if i < k then -128 else 0);
    var y: seq<int8> := seq(d, i => if i >= k then 0 else if metric == SquaredL2 then 127 else -128);
    var t := Terms(metric, x, y);
    var peak := if metric == SquaredL2 then 65025 else 16384;
    PeakSum(t, k, peak);
    assert Wrap32(Sum(t)) != Sum(t);
  }
}
