/** fvec_L2sqr_ny_transposed_rvv and the nearest search over it: distances from
    |x|^2 + |y_i|^2 - 2<x, y_i>, with y stored column by column (`y[i + j * stride]`)
    and its squared lengths supplied by the caller.
 */
module RvvTransposed {
  import opened Arith
  import opened Folds
  import opened Nearest
  import opened RvvMachine
  import opened RvvKernels

  predicate Holds(y: seq<real>, d: nat, stride: nat, ny: nat) {
    d > 0 ==> (d - 1) * stride + ny <= |y|
  }

  lemma InRange(y: seq<real>, d: nat, stride: nat, ny: nat, i: nat, j: nat)
    requires Holds(y, d, stride, ny) && i < ny && j < d
    ensures 0 <= i + j * stride < |y|
  {
    MulMono(j, d - 1, stride);
    MulMono(0, j, stride);
  }

  /** Vector `i` of the transposed table. */
  function Row(y: seq<real>, d: nat, stride: nat, ny: nat, i: nat): (r: seq<real>)
    requires Holds(y, d, stride, ny) && i < ny
    ensures |r| == d
  {
    seq(d, j requires 0 <= j < d => InRange(y, d, stride, ny, i, j); y[i + j * stride])
  }

  function Expanded(x: seq<real>, row: seq<real>, sqlen: real): real
    requires |x| == |row|
  {
    Fold(Plus, Terms(Product, x, x)) + sqlen - 2.0 * Fold(Plus, Terms(Product, x, row))
  }

  /** Expanding the square: with true squared lengths the transposed formula is the squared distance. */
  lemma {:induction false} ExpandedIsDistance(x: seq<real>, row: seq<real>)
    requires |x| == |row|
    ensures Expanded(x, row, Fold(Plus, Terms(Product, row, row))) == Fold(Plus, Terms(SquaredDiff, x, row))
  {
    if |x| > 0 {
      var n := |x| - 1;
      ExpandedIsDistance(x[..n], row[..n]);
      assert Terms(Product, x, x)[..n] == Terms(Product, x[..n], x[..n]);
      assert Terms(Product, row, row)[..n] == Terms(Product, row[..n], row[..n]);
      assert Terms(Product, x, row)[..n] == Terms(Product, x[..n], row[..n]);
      assert Terms(SquaredDiff, x, row)[..n] == Terms(SquaredDiff, x[..n], row[..n]);
      var a, b := x[n], row[n];
      assert (a - b) * (a - b) == a * a + b * b - 2.0 * (a * b);
    }
  }

  /** Copies `vl` coordinates of column `i`, from `j` on, into a contiguous buffer. */
  method Gather(y: seq<real>, d: nat, stride: nat, ny: nat, i: nat, j: nat, vl: nat) returns (ybuf: seq<real>)
    requires Holds(y, d, stride, ny) && i < ny && j + vl <= d
    ensures ybuf == Row(y, d, stride, ny, i)[j..j + vl]
  {
    ybuf := [];
    for k := 0 to vl
      invariant |ybuf| == k && forall h :: 0 <= h < k ==> ybuf[h] == Row(y, d, stride, ny, i)[j + h]
    {
      InRange(y, d, stride, ny, i, j + k);
      ybuf := ybuf + [y[i + (j + k) * stride]];
    }
  }

  /** The gathered full strips of one column, and the coordinate they stop at. */
  method GatheredStrips(m: Machine, scratch: nat -> real, x: seq<real>, y: seq<real>, stride: nat, ny: nat, i: nat)
    returns (dp: real, j: nat)
    requires Legal(m) && Holds(y, |x|, stride, ny) && i < ny
    ensures j <= |x| && dp == Fold(Plus, Terms(Product, x, Row(y, |x|, stride, ny, i))[..j])
  {
    ghost var t := Terms(Product, x, Row(y, |x|, stride, ny, i));
    dp, j := 0.0, 0;
    while j + m.vlmax <= |x|
      invariant j <= |x| && dp == Fold(Plus, t[..j])
    {
      var part := GatheredStrip(m, scratch, x, y, stride, ny, i, j);
      FoldExtend(Plus, t, j, m.vlmax);
      dp := dp + part;
      j := j + m.vlmax;
    }
  }

  /** The reduction of one full strip. */
  method GatheredStrip(m: Machine, scratch: nat -> real, x: seq<real>, y: seq<real>, stride: nat, ny: nat, i: nat,
                       j: nat)
    returns (part: real)
    requires Legal(m) && Holds(y, |x|, stride, ny) && i < ny && j + m.vlmax <= |x|
    ensures part == Fold(Plus, Terms(Product, x, Row(y, |x|, stride, ny, i))[j..j + m.vlmax])
  {
    var ybuf := Gather(y, |x|, stride, ny, i, j, m.vlmax);
    var vdp := Register(m.vlmax, Terms(Product, x[j..j + m.vlmax], ybuf), scratch);
    assert vdp == Terms(Product, x, Row(y, |x|, stride, ny, i))[j..j + m.vlmax];
    part := Fold(Plus, vdp);
  }

  /** One element of the scalar tail. */
  method TailTerm(x: seq<real>, y: seq<real>, stride: nat, ny: nat, i: nat, j: nat) returns (r: real)
    requires Holds(y, |x|, stride, ny) && i < ny && j < |x|
    ensures r == Terms(Product, x, Row(y, |x|, stride, ny, i))[j]
  {
    InRange(y, |x|, stride, ny, i, j);
    r := x[j] * y[i + j * stride];
  }

  /** One column's dot product: full strips gathered into a buffer, then a scalar tail. */
  method GatheredDot(m: Machine, scratch: nat -> real, x: seq<real>, y: seq<real>, stride: nat, ny: nat, i: nat)
    returns (dp: real)
    requires Legal(m) && Holds(y, |x|, stride, ny) && i < ny
    ensures dp == Fold(Plus, Terms(Product, x, Row(y, |x|, stride, ny, i)))
  {
    ghost var t := Terms(Product, x, Row(y, |x|, stride, ny, i));
    var j: nat;
    dp, j := GatheredStrips(m, scratch, x, y, stride, ny, i);
    while j < |x|
      invariant j <= |x| && dp == Fold(Plus, t[..j])
    {
      var term := TailTerm(x, y, stride, ny, i, j);
      FoldExtend(Plus, t, j, 1);
      dp := dp + term;
      j := j + 1;
    }
    assert t[..|x|] == t;
  }

  ghost function ExpandedDistances(x: seq<real>, y: seq<real>, ySqlen: seq<real>, stride: nat, ny: nat): (s: seq<real>)
    requires Holds(y, |x|, stride, ny) && ny <= |ySqlen|
    ensures |s| == ny
  {
    seq(ny, i requires 0 <= i < ny => Expanded(x, Row(y, |x|, stride, ny, i), ySqlen[i]))
  }

  /** The dot products of four adjacent columns. */
  method GatheredDot4(m: Machine, scratch: nat -> real, x: seq<real>, y: seq<real>, stride: nat, ny: nat, i: nat)
    returns (acc: seq<real>)
    requires Legal(m) && Holds(y, |x|, stride, ny) && i + 3 < ny
    ensures |acc| == 4
    ensures forall b :: 0 <= b < 4 ==> acc[b] == Fold(Plus, Terms(Product, x, Row(y, |x|, stride, ny, i + b)))
  {
    var acc0 := GatheredDot(m, scratch, x, y, stride, ny, i);
    var acc1 := GatheredDot(m, scratch, x, y, stride, ny, i + 1);
    var acc2 := GatheredDot(m, scratch, x, y, stride, ny, i + 2);
    var acc3 := GatheredDot(m, scratch, x, y, stride, ny, i + 3);
    acc := [acc0, acc1, acc2, acc3];
  }

  /** The four distances of one batch. */
  method StoreFour(dis: array<real>, xSqlen: real, ySqlen: seq<real>, acc: seq<real>, i: nat, ghost want: seq<real>)
    requires i + 4 <= |want| <= dis.Length && |want| <= |ySqlen| && |acc| == 4
    requires forall k :: 0 <= k < i ==> dis[k] == want[k]
    requires forall b :: 0 <= b < 4 ==> want[i + b] == xSqlen + ySqlen[i + b] - 2.0 * acc[b]
    modifies dis
    ensures forall k :: 0 <= k < i + 4 ==> dis[k] == want[k]
    ensures dis[|want|..] == old(dis[|want|..])
  {
    for b := 0 to 4
      invariant forall k :: 0 <= k < i + b ==> dis[k] == want[k]
      invariant dis[|want|..] == old(dis[|want|..])
    {
      dis[i + b] := xSqlen + ySqlen[i + b] - 2.0 * acc[b];
    }
  }

  /** fvec_L2sqr_ny_transposed_rvv: batches of four columns, then single columns. */
  method TransposedDistances(m: Machine, scratch: nat -> real, dis: array<real>, x: seq<real>, y: seq<real>,
                             ySqlen: seq<real>, stride: nat, ny: nat)
    requires Legal(m) && Holds(y, |x|, stride, ny) && ny <= |ySqlen| && ny <= dis.Length
    modifies dis
    ensures dis[..ny] == ExpandedDistances(x, y, ySqlen, stride, ny)
    ensures dis[ny..] == old(dis[ny..])
  {
    ghost var want := ExpandedDistances(x, y, ySqlen, stride, ny);
    var xSqlen := NormL2Sqr(m, scratch, x);
    var i: nat := 0;
    while i + 3 < ny
      invariant i <= ny
      invariant forall k :: 0 <= k < i ==> dis[k] == want[k]
      invariant dis[ny..] == old(dis[ny..])
    {
      var acc := GatheredDot4(m, scratch, x, y, stride, ny, i);
      StoreFour(dis, xSqlen, ySqlen, acc, i, want);
      i := i + 4;
    }
    while i < ny
      invariant i <= ny
      invariant forall k :: 0 <= k < i ==> dis[k] == want[k]
      invariant dis[ny..] == old(dis[ny..])
    {
      var dp := GatheredDot(m, scratch, x, y, stride, ny, i);
      dis[i] := xSqlen + ySqlen[i] - 2.0 * dp;
      i := i + 1;
    }
  }

  ghost function RowDistances(x: seq<real>, y: seq<real>, stride: nat, ny: nat): (s: seq<real>)
    requires Holds(y, |x|, stride, ny)
    ensures |s| == ny
  {
    seq(ny, i requires 0 <= i < ny => Fold(Plus, Terms(SquaredDiff, x, Row(y, |x|, stride, ny, i))))
  }

  ghost predicate TrueNorms(y: seq<real>, ySqlen: seq<real>, d: nat, stride: nat, ny: nat)
    requires Holds(y, d, stride, ny) && ny <= |ySqlen|
  {
    forall i :: 0 <= i < ny ==>
      ySqlen[i] == Fold(Plus, Terms(Product, Row(y, d, stride, ny, i), Row(y, d, stride, ny, i)))
  }

  /** fvec_L2sqr_ny_nearest_y_transposed_rvv picks the index that nearest search over the
      untransposed rows picks, provided the supplied squared lengths are the true ones. */
  method NearestTransposed(m: Machine, scratch: nat -> real, buffer: array<real>, x: seq<real>, y: seq<real>,
                           ySqlen: seq<real>, stride: nat, ny: nat) returns (nearest: nat)
    requires Legal(m) && Holds(y, |x|, stride, ny) && ny <= |ySqlen| && ny <= buffer.Length
    modifies buffer
    ensures nearest == NearestIndex(buffer[..ny], Infinite)
    ensures TrueNorms(y, ySqlen, |x|, stride, ny) ==> buffer[..ny] == RowDistances(x, y, stride, ny)
    ensures TrueNorms(y, ySqlen, |x|, stride, ny) && ny > 0 ==> IsFirstMin(RowDistances(x, y, stride, ny), nearest)
  {
    TransposedDistances(m, scratch, buffer, x, y, ySqlen, stride, ny);
    nearest := NearestScan(buffer[..ny], Infinite);
    if ny > 0 {
      NearestFromInfinity(buffer[..ny]);
    }
    if TrueNorms(y, ySqlen, |x|, stride, ny) {
      TransposedAgrees(x, y, ySqlen, stride, ny);
    }
  }

  lemma TransposedAgrees(x: seq<real>, y: seq<real>, ySqlen: seq<real>, stride: nat, ny: nat)
    requires Holds(y, |x|, stride, ny) && ny <= |ySqlen| && TrueNorms(y, ySqlen, |x|, stride, ny)
    ensures ExpandedDistances(x, y, ySqlen, stride, ny) == RowDistances(x, y, stride, ny)
  {
    forall i | 0 <= i < ny
      ensures ExpandedDistances(x, y, ySqlen, stride, ny)[i] == RowDistances(x, y, stride, ny)[i]
    {
      ExpandedIsDistance(x, Row(y, |x|, stride, ny, i));
    }
  }
}
