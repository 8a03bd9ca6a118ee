/** fvec_L2sqr_ny_avx: squared distances from x to ny consecutive d-dimensional rows.
    Dimensions 2 and 4 run lane-shuffled 256-bit paths with shrinking remainders; every
    other dimension runs batches of four rows. A register is a sequence of lanes, lane 0
    first; arithmetic is exact.
 */
module AvxNy {
  import opened Arith
  import opened Folds
  import opened Nearest
  import opened RvvKernels

  type Reg = s: seq<real> | |s| == 8 witness [0.0, 0.0, 0.0, 0.0, 0.0, 0.0, 0.0, 0.0]
  type Half = s: seq<real> | |s| == 4 witness [0.0, 0.0, 0.0, 0.0]

  predicate Holds(y: seq<real>, d: nat, ny: nat) {
    d * ny <= |y|
  }

  lemma RowInRange(y: seq<real>, d: nat, ny: nat, i: nat)
    requires Holds(y, d, ny) && i < ny
    ensures 0 <= d * i <= d * i + d <= |y|
  {
    MulMono(i + 1, ny, d);
    MulMono(0, i, d);
  }

  function Distance(x: seq<real>, y: seq<real>, ny: nat, i: nat): real
    requires Holds(y, |x|, ny) && i < ny
  {
    RowInRange(y, |x|, ny, i);
    Fold(Plus, Terms(SquaredDiff, x, y[|x| * i..|x| * i + |x|]))
  }

  /** fvec_L2sqr_ny_ref */
  function Distances(x: seq<real>, y: seq<real>, ny: nat): (s: seq<real>)
    requires Holds(y, |x|, ny)
    ensures |s| == ny && forall i :: 0 <= i < ny ==> s[i] == Distance(x, y, ny, i)
  {
    seq(ny, i requires 0 <= i < ny => Distance(x, y, ny, i))
  }

  lemma RowsFrom(x: seq<real>, y: seq<real>, ny: nat, i: nat, r: seq<real>)
    requires Holds(y, |x|, ny) && i + |r| <= ny && forall k :: 0 <= k < |r| ==> r[k] == Distance(x, y, ny, i + k)
    ensures r == Distances(x, y, ny)[i..i + |r|]
  {
  }

  // ---------------------------------------------------------------------------
  // Lane operations
  // ---------------------------------------------------------------------------

  function LoadReg(p: seq<real>, at: nat): (r: Reg)
    requires at + 8 <= |p|
    ensures forall k :: 0 <= k < 8 ==> r[k] == p[at + k]
  {
    p[at..at + 8]
  }

  /** _mm256_sub_ps then _mm256_mul_ps of the result with itself. */
  function SquareSub(a: Reg, b: Reg): (r: Reg)
    ensures forall k :: 0 <= k < 8 ==> r[k] == SquaredDiff(a[k], b[k])
  {
    seq(8, k requires 0 <= k < 8 => SquaredDiff(a[k], b[k]))
  }

  /** _mm256_hadd_ps: within each 128-bit half, pair sums of a, then pair sums of b. */
  function HAdd(a: Reg, b: Reg): Reg {
    [a[0] + a[1], a[2] + a[3], b[0] + b[1], b[2] + b[3], a[4] + a[5], a[6] + a[7], b[4] + b[5], b[6] + b[7]]
  }

  /** _mm256_permutevar8x32_ps */
  function Permute(a: Reg, index: seq<nat>): (r: Reg)
    requires |index| == 8 && forall k :: 0 <= k < 8 ==> index[k] < 8
  {
    seq(8, k requires 0 <= k < 8 => a[index[k]])
  }

  /** _mm_hadd_ps */
  function HAdd4(a: Half, b: Half): Half {
    [a[0] + a[1], a[2] + a[3], b[0] + b[1], b[2] + b[3]]
  }

  const PAIRS: seq<nat> := [0, 1, 4, 5, 2, 3, 6, 7]
  const QUADS: seq<nat> := [0, 4, 1, 5, 2, 6, 3, 7]

  // ---------------------------------------------------------------------------
  // Dimension 2
  // ---------------------------------------------------------------------------

  lemma DistanceOfTwo(x: seq<real>, y: seq<real>, ny: nat, i: nat)
    requires |x| == 2 && Holds(y, 2, ny) && i < ny
    ensures 2 * i + 1 < |y|
    ensures Distance(x, y, ny, i) == SquaredDiff(x[0], y[2 * i]) + SquaredDiff(x[1], y[2 * i + 1])
  {
    var t := Terms(SquaredDiff, x, y[2 * i..2 * i + 2]);
    assert t[..1][..0] == [];
    assert Fold(Plus, t[..1]) == t[0];
  }

  /** Pair sums come out in row order. */
  lemma PairOrder(a: Reg, b: Reg)
    ensures Permute(HAdd(a, b), PAIRS)
         == [a[0] + a[1], a[2] + a[3], a[4] + a[5], a[6] + a[7], b[0] + b[1], b[2] + b[3], b[4] + b[5], b[6] + b[7]]
  {
  }

  /** Four rows of two coordinates, squared differences in memory order. */
  lemma FourRows(x: seq<real>, y: seq<real>, ny: nat, i: nat, r: Reg)
    requires |x| == 2 && Holds(y, 2, ny) && i + 4 <= ny && 2 * i + 8 <= |y|
    requires r == SquareSub(LoadReg(y, 2 * i), [x[0], x[1], x[0], x[1], x[0], x[1], x[0], x[1]])
    ensures r[0] + r[1] == Distance(x, y, ny, i) && r[2] + r[3] == Distance(x, y, ny, i + 1)
    ensures r[4] + r[5] == Distance(x, y, ny, i + 2) && r[6] + r[7] == Distance(x, y, ny, i + 3)
  {
    DistanceOfTwo(x, y, ny, i);
    DistanceOfTwo(x, y, ny, i + 1);
    DistanceOfTwo(x, y, ny, i + 2);
    DistanceOfTwo(x, y, ny, i + 3);
  }

  lemma EightRows(x: seq<real>, y: seq<real>, ny: nat, i: nat, my1: Reg, my2: Reg, r: Reg)
    requires |x| == 2 && Holds(y, 2, ny) && i + 8 <= ny && r == Permute(HAdd(my1, my2), PAIRS)
    requires my1[0] + my1[1] == Distance(x, y, ny, i) && my1[2] + my1[3] == Distance(x, y, ny, i + 1)
    requires my1[4] + my1[5] == Distance(x, y, ny, i + 2) && my1[6] + my1[7] == Distance(x, y, ny, i + 3)
    requires my2[0] + my2[1] == Distance(x, y, ny, i + 4) && my2[2] + my2[3] == Distance(x, y, ny, i + 5)
    requires my2[4] + my2[5] == Distance(x, y, ny, i + 6) && my2[6] + my2[7] == Distance(x, y, ny, i + 7)
    ensures r == Distances(x, y, ny)[i..i + 8]
  {
    PairOrder(my1, my2);
    RowsFrom(x, y, ny, i, r);
  }

  /** Two registers of four rows each, paired up and permuted into row order. */
  method EightRowsOfTwo(x: seq<real>, y: seq<real>, ny: nat, i: nat) returns (r: Reg)
    requires |x| == 2 && Holds(y, 2, ny) && i + 8 <= ny
    ensures r == Distances(x, y, ny)[i..i + 8]
  {
    var my1 := FourSquared(x, y, ny, i);
    var my2 := FourSquared(x, y, ny, i + 4);
    r := Permute(HAdd(my1, my2), PAIRS);
    EightRows(x, y, ny, i, my1, my2, r);
  }

  /** The squared differences of four rows. */
  method FourSquared(x: seq<real>, y: seq<real>, ny: nat, i: nat) returns (r: Reg)
    requires |x| == 2 && Holds(y, 2, ny) && i + 4 <= ny
    ensures r[0] + r[1] == Distance(x, y, ny, i) && r[2] + r[3] == Distance(x, y, ny, i + 1)
    ensures r[4] + r[5] == Distance(x, y, ny, i + 2) && r[6] + r[7] == Distance(x, y, ny, i + 3)
  {
    RowInRange(y, 2, ny, i + 3);
    var mx: Reg := [x[0], x[1], x[0], x[1], x[0], x[1], x[0], x[1]];
    r := SquareSub(LoadReg(y, 2 * i), mx);
    FourRows(x, y, ny, i, r);
  }

  /** One register of four rows, paired up with itself; only the low half is kept. */
  method FourRowsOfTwo(x: seq<real>, y: seq<real>, ny: nat, i: nat) returns (r: Half)
    requires |x| == 2 && Holds(y, 2, ny) && i + 4 <= ny
    ensures r == Distances(x, y, ny)[i..i + 4]
  {
    var my1 := FourSquared(x, y, ny, i);
    PairOrder(my1, my1);
    r := Permute(HAdd(my1, my1), PAIRS)[..4];
    RowsFrom(x, y, ny, i, r);
  }

  method Store(dis: array<real>, at: nat, lanes: seq<real>)
    requires at + |lanes| <= dis.Length
    modifies dis
    ensures dis[..at] == old(dis[..at])
    ensures dis[at..at + |lanes|] == lanes
    ensures dis[at + |lanes|..] == old(dis[at + |lanes|..])
  {
    forall k | 0 <= k < |lanes| {
      dis[at + k] := lanes[k];
    }
  }

  ghost predicate Done(dis: array<real>, want: seq<real>, i: nat, ny: nat, rest: seq<real>)
    reads dis
  {
    i <= ny <= dis.Length && i <= |want| && dis[..i] == want[..i] && dis[ny..] == rest
  }

  /** Storing the next lanes extends the finished prefix. */
  method StoreNext(dis: array<real>, ghost want: seq<real>, i: nat, ny: nat, ghost rest: seq<real>, lanes: seq<real>)
    requires Done(dis, want, i, ny, rest) && i + |lanes| <= ny <= |want| && lanes == want[i..i + |lanes|]
    modifies dis
    ensures Done(dis, want, i + |lanes|, ny, rest)
  {
    ghost var before := dis[..];
    Store(dis, i, lanes);
    forall k | 0 <= k < i + |lanes| ensures dis[k] == want[k] {
      if k < i {
        assert dis[k] == dis[..i][k] == before[..i][k] == want[..i][k];
      } else {
        assert dis[k] == dis[i..i + |lanes|][k - i] == lanes[k - i];
      }
    }
    forall k | 0 <= k < dis.Length - ny ensures dis[ny..][k] == rest[k] {
      var o := ny - (i + |lanes|);
      assert dis[ny + k] == dis[i + |lanes|..][o + k] == before[i + |lanes|..][o + k] == before[ny + k];
    }
  }

  /** Sixteen rows at a time. */
  method SixteenAtATime(dis: array<real>, x: seq<real>, y: seq<real>, ny: nat, ghost rest: seq<real>)
    returns (left: nat)
    requires |x| == 2 && Holds(y, 2, ny) && ny <= dis.Length && dis[ny..] == rest
    modifies dis
    ensures left <= ny && Done(dis, Distances(x, y, ny), ny - left, ny, rest)
  {
    ghost var want := Distances(x, y, ny);
    left := ny;
    while left >= 16
      invariant left <= ny && Done(dis, want, ny - left, ny, rest)
    {
      var lo := EightRowsOfTwo(x, y, ny, ny - left);
      var hi := EightRowsOfTwo(x, y, ny, ny - left + 8);
      StoreNext(dis, want, ny - left, ny, rest, lo);
      StoreNext(dis, want, ny - left + 8, ny, rest, hi);
      left := left - 16;
    }
  }

  /** One row, one coordinate at a time. */
  method OneRowOfTwo(x: seq<real>, y: seq<real>, ny: nat, i: nat) returns (dis1: real)
    requires |x| == 2 && Holds(y, 2, ny) && i < ny
    ensures [dis1] == Distances(x, y, ny)[i..i + 1]
  {
    DistanceOfTwo(x, y, ny, i);
    dis1 := (x[0] - y[2 * i]) * (x[0] - y[2 * i]) + (x[1] - y[2 * i + 1]) * (x[1] - y[2 * i + 1]);
    RowsFrom(x, y, ny, i, [dis1]);
  }

  /** fvec_L2sqr_ny_avx_d2_impl: sixteen rows, then four, then one at a time. */
  method DimensionTwo(dis: array<real>, x: seq<real>, y: seq<real>, ny: nat)
    requires |x| == 2 && Holds(y, 2, ny) && ny <= dis.Length
    modifies dis
    ensures Done(dis, Distances(x, y, ny), ny, ny, old(dis[ny..]))
  {
    ghost var want, rest := Distances(x, y, ny), dis[ny..];
    var left := SixteenAtATime(dis, x, y, ny, rest);
    while left >= 4
      invariant left <= ny && Done(dis, want, ny - left, ny, rest)
    {
      var low := FourRowsOfTwo(x, y, ny, ny - left);
      StoreNext(dis, want, ny - left, ny, rest, low);
      left := left - 4;
    }
    while left > 0
      invariant left <= ny && Done(dis, want, ny - left, ny, rest)
    {
      var dis1 := OneRowOfTwo(x, y, ny, ny - left);
      StoreNext(dis, want, ny - left, ny, rest, [dis1]);
      left := left - 1;
    }
  }

  // ---------------------------------------------------------------------------
  // Dimension 4
  // ---------------------------------------------------------------------------

  lemma DistanceOfFour(x: seq<real>, y: seq<real>, ny: nat, i: nat)
    requires |x| == 4 && Holds(y, 4, ny) && i < ny
    ensures 4 * i + 3 < |y|
    ensures Distance(x, y, ny, i) == SquaredDiff(x[0], y[4 * i]) + SquaredDiff(x[1], y[4 * i + 1])
                                   + SquaredDiff(x[2], y[4 * i + 2]) + SquaredDiff(x[3], y[4 * i + 3])
  {
    var t := Terms(SquaredDiff, x, y[4 * i..4 * i + 4]);
    FoldOfFour(t);
  }

  /** Eight quad sums come out in row order. */
  lemma QuadOrder(a: Reg, b: Reg, c: Reg, d: Reg)
    ensures Permute(HAdd(HAdd(a, b), HAdd(c, d)), QUADS)
         == [a[0] + a[1] + (a[2] + a[3]), a[4] + a[5] + (a[6] + a[7]),
             b[0] + b[1] + (b[2] + b[3]), b[4] + b[5] + (b[6] + b[7]),
             c[0] + c[1] + (c[2] + c[3]), c[4] + c[5] + (c[6] + c[7]),
             d[0] + d[1] + (d[2] + d[3]), d[4] + d[5] + (d[6] + d[7])]
  {
    var h, g := HAdd(a, b), HAdd(c, d);
    assert HAdd(h, g)
      == [h[0] + h[1], h[2] + h[3], g[0] + g[1], g[2] + g[3], h[4] + h[5], h[6] + h[7], g[4] + g[5], g[6] + g[7]];
  }

  /** Two rows of four coordinates in one register. */
  method TwoRows(x: seq<real>, y: seq<real>, ny: nat, i: nat) returns (r: Reg)
    requires |x| == 4 && Holds(y, 4, ny) && i + 2 <= ny
    ensures r[0] + r[1] + (r[2] + r[3]) == Distance(x, y, ny, i)
    ensures r[4] + r[5] + (r[6] + r[7]) == Distance(x, y, ny, i + 1)
  {
    RowInRange(y, 4, ny, i + 1);
    r := SquareSub(LoadReg(y, 4 * i), x + x);
    DistanceOfFour(x, y, ny, i);
    DistanceOfFour(x, y, ny, i + 1);
  }

  method EightRowsOfFour(x: seq<real>, y: seq<real>, ny: nat, i: nat) returns (r: Reg)
    requires |x| == 4 && Holds(y, 4, ny) && i + 8 <= ny
    ensures r == Distances(x, y, ny)[i..i + 8]
  {
    var my1 := TwoRows(x, y, ny, i);
    var my2 := TwoRows(x, y, ny, i + 2);
    var my3 := TwoRows(x, y, ny, i + 4);
    var my4 := TwoRows(x, y, ny, i + 6);
    QuadOrder(my1, my2, my3, my4);
    r := Permute(HAdd(HAdd(my1, my2), HAdd(my3, my4)), QUADS);
    RowsFrom(x, y, ny, i, r);
  }

  method FourRowsOfFour(x: seq<real>, y: seq<real>, ny: nat, i: nat) returns (r: Half)
    requires |x| == 4 && Holds(y, 4, ny) && i + 4 <= ny
    ensures r == Distances(x, y, ny)[i..i + 4]
  {
    var my1 := TwoRows(x, y, ny, i);
    var my2 := TwoRows(x, y, ny, i + 2);
    QuadOrder(my1, my2, my1, my2);
    r := Permute(HAdd(HAdd(my1, my2), HAdd(my1, my2)), QUADS)[..4];
    RowsFrom(x, y, ny, i, r);
  }

  method TwoRowsOfFour(x: seq<real>, y: seq<real>, ny: nat, i: nat) returns (r: seq<real>)
    requires |x| == 4 && Holds(y, 4, ny) && i + 2 <= ny
    ensures r == Distances(x, y, ny)[i..i + 2]
  {
    var my1 := TwoRows(x, y, ny, i);
    var low: Half, high: Half := my1[..4], my1[4..];
    var sumLow := HAdd4(HAdd4(low, low), HAdd4(low, low));
    var sumHigh := HAdd4(HAdd4(high, high), HAdd4(high, high));
    r := [sumLow[0], sumHigh[0]];
    RowsFrom(x, y, ny, i, r);
  }

  method OneRowOfFour(x: seq<real>, y: seq<real>, ny: nat, i: nat) returns (dist: real)
    requires |x| == 4 && Holds(y, 4, ny) && i < ny
    ensures [dist] == Distances(x, y, ny)[i..i + 1]
  {
    DistanceOfFour(x, y, ny, i);
    var dis1 := (x[0] - y[4 * i]) * (x[0] - y[4 * i]) + (x[2] - y[4 * i + 2]) * (x[2] - y[4 * i + 2]);
    var dis2 := (x[1] - y[4 * i + 1]) * (x[1] - y[4 * i + 1]) + (x[3] - y[4 * i + 3]) * (x[3] - y[4 * i + 3]);
    dist := dis1 + dis2;
    RowsFrom(x, y, ny, i, [dist]);
  }

  /** Fewer than eight rows left: at most one four, one two, one one. */
  method TailOfFour(dis: array<real>, x: seq<real>, y: seq<real>, ny: nat, left0: nat, ghost rest: seq<real>)
    requires |x| == 4 && Holds(y, 4, ny) && left0 < 8 && left0 <= ny
    requires Done(dis, Distances(x, y, ny), ny - left0, ny, rest)
    modifies dis
    ensures Done(dis, Distances(x, y, ny), ny, ny, rest)
  {
    var left := left0;
    if left >= 4 {
      var lanes := FourRowsOfFour(x, y, ny, ny - left);
      StoreNext(dis, Distances(x, y, ny), ny - left, ny, rest, lanes);
      left := left - 4;
    }
    TailOfThree(dis, x, y, ny, left, rest);
  }

  method TailOfThree(dis: array<real>, x: seq<real>, y: seq<real>, ny: nat, left0: nat, ghost rest: seq<real>)
    requires |x| == 4 && Holds(y, 4, ny) && left0 < 4 && left0 <= ny
    requires Done(dis, Distances(x, y, ny), ny - left0, ny, rest)
    modifies dis
    ensures Done(dis, Distances(x, y, ny), ny, ny, rest)
  {
    var left := left0;
    if left >= 2 {
      var lanes := TwoRowsOfFour(x, y, ny, ny - left);
      StoreNext(dis, Distances(x, y, ny), ny - left, ny, rest, lanes);
      left := left - 2;
    }
    if left > 0 {
      var dist := OneRowOfFour(x, y, ny, ny - left);
      StoreNext(dis, Distances(x, y, ny), ny - left, ny, rest, [dist]);
    }
  }

  /** fvec_L2sqr_ny_avx_d4_impl: eight rows at a time, then the tail. */
  method DimensionFour(dis: array<real>, x: seq<real>, y: seq<real>, ny: nat)
    requires |x| == 4 && Holds(y, 4, ny) && ny <= dis.Length
    modifies dis
    ensures Done(dis, Distances(x, y, ny), ny, ny, old(dis[ny..]))
  {
    ghost var want, rest := Distances(x, y, ny), dis[ny..];
    var left: nat := ny;
    while left >= 8
      invariant left <= ny && Done(dis, want, ny - left, ny, rest)
    {
      var lanes := EightRowsOfFour(x, y, ny, ny - left);
      StoreNext(dis, want, ny - left, ny, rest, lanes);
      left := left - 8;
    }
    TailOfFour(dis, x, y, ny, left, rest);
  }

  // ---------------------------------------------------------------------------
  // Any other dimension
  // ---------------------------------------------------------------------------

  /** fvec_L2sqr_batch_4_avx: four rows in one pass over x. */
  method Batch4(x: seq<real>, y0: seq<real>, y1: seq<real>, y2: seq<real>, y3: seq<real>) returns (r: Half)
    requires |x| == |y0| == |y1| == |y2| == |y3|
    ensures r == [Fold(Plus, Terms(SquaredDiff, x, y0)), Fold(Plus, Terms(SquaredDiff, x, y1)),
                  Fold(Plus, Terms(SquaredDiff, x, y2)), Fold(Plus, Terms(SquaredDiff, x, y3))]
  {
    ghost var t0, t1 := Terms(SquaredDiff, x, y0), Terms(SquaredDiff, x, y1);
    ghost var t2, t3 := Terms(SquaredDiff, x, y2), Terms(SquaredDiff, x, y3);
    var d0, d1, d2, d3 := 0.0, 0.0, 0.0, 0.0;
    for i := 0 to |x|
      invariant d0 == Fold(Plus, t0[..i]) && d1 == Fold(Plus, t1[..i])
      invariant d2 == Fold(Plus, t2[..i]) && d3 == Fold(Plus, t3[..i])
    {
      FoldExtend(Plus, t0, i, 1);
      FoldExtend(Plus, t1, i, 1);
      FoldExtend(Plus, t2, i, 1);
      FoldExtend(Plus, t3, i, 1);
      d0 := d0 + SquaredDiff(x[i], y0[i]);
      d1 := d1 + SquaredDiff(x[i], y1[i]);
      d2 := d2 + SquaredDiff(x[i], y2[i]);
      d3 := d3 + SquaredDiff(x[i], y3[i]);
    }
    assert t0[..|x|] == t0 && t1[..|x|] == t1 && t2[..|x|] == t2 && t3[..|x|] == t3;
    r := [d0, d1, d2, d3];
  }

  method FourRowsAnyDimension(x: seq<real>, y: seq<real>, ny: nat, i: nat) returns (r: Half)
    requires Holds(y, |x|, ny) && i + 4 <= ny
    ensures r
         == [Distance(x, y, ny, i), Distance(x, y, ny, i + 1), Distance(x, y, ny, i + 2), Distance(x, y, ny, i + 3)]
  {
    var y0 := ReadRow(|x|, y, ny, i);
    var y1 := ReadRow(|x|, y, ny, i + 1);
    var y2 := ReadRow(|x|, y, ny, i + 2);
    var y3 := ReadRow(|x|, y, ny, i + 3);
    r := Batch4(x, y0, y1, y2, y3);
  }

  lemma FourOf(s: seq<real>, i: nat)
    requires i + 4 <= |s|
    ensures s[i..i + 4] == [s[i], s[i + 1], s[i + 2], s[i + 3]]
  {
  }

  method OneRowAnyDimension(x: seq<real>, y: seq<real>, ny: nat, i: nat) returns (dist: real)
    requires Holds(y, |x|, ny) && i < ny
    ensures [dist] == Distances(x, y, ny)[i..i + 1]
  {
    dist := ScalarReference(Plus, SquaredDiff, x, ReadRow(|x|, y, ny, i));
  }

  function ReadRow(d: nat, y: seq<real>, ny: nat, i: nat): (row: seq<real>)
    requires Holds(y, d, ny) && i < ny
    ensures |row| == d
  {
    RowInRange(y, d, ny, i);
    y[d * i..d * i + d]
  }

  /** fvec_L2sqr_ny_avx_impl */
  method AnyDimension(dis: array<real>, x: seq<real>, y: seq<real>, ny: nat)
    requires Holds(y, |x|, ny) && ny <= dis.Length
    modifies dis
    ensures Done(dis, Distances(x, y, ny), ny, ny, old(dis[ny..]))
  {
    ghost var want, rest := Distances(x, y, ny), dis[ny..];
    var i: nat := 0;
    while i + 3 < ny
      invariant i <= ny && Done(dis, want, i, ny, rest)
    {
      var lanes := FourRowsAnyDimension(x, y, ny, i);
      FourOf(want, i);
      StoreNext(dis, want, i, ny, rest, lanes);
      i := i + 4;
    }
    while i < ny
      invariant i <= ny && Done(dis, want, i, ny, rest)
    {
      var dist := OneRowAnyDimension(x, y, ny, i);
      StoreNext(dis, want, i, ny, rest, [dist]);
      i := i + 1;
    }
  }

  /** fvec_L2sqr_ny_avx: whatever the path, every distance lands at its row's index. */
  method L2SqrNy(dis: array<real>, x: seq<real>, y: seq<real>, ny: nat)
    requires Holds(y, |x|, ny) && ny <= dis.Length
    modifies dis
    ensures dis[..ny] == Distances(x, y, ny) && dis[ny..] == old(dis[ny..])
  {
    if |x| == 2 {
      DimensionTwo(dis, x, y, ny);
    } else if |x| == 4 {
      DimensionFour(dis, x, y, ny);
    } else {
      AnyDimension(dis, x, y, ny);
    }
    assert Distances(x, y, ny)[..ny] == Distances(x, y, ny);
  }

  /** fvec_L2sqr_ny_nearest_avx: the first nearest row, exactly when some distance is below the
      largest finite float or row 0 is nearest anyway. */
  method NearestRow(buffer: array<real>, x: seq<real>, y: seq<real>, ny: nat, maxFloat: real) returns (nearest: nat)
    requires Holds(y, |x|, ny) && ny <= buffer.Length
    modifies buffer
    ensures buffer[..ny] == Distances(x, y, ny)
    ensures ny == 0 ==> nearest == 0
    ensures ny > 0 ==>
      (IsFirstMin(Distances(x, y, ny), nearest) <==>
        (exists i :: 0 <= i < ny && Distance(x, y, ny, i) < maxFloat)
        || (forall i :: 0 <= i < ny ==> Distance(x, y, ny, 0) <= Distance(x, y, ny, i)))
  {
    L2SqrNy(buffer, x, y, ny);
    nearest := NearestScan(buffer[..ny], Finite(maxFloat));
    if ny > 0 {
      NearestFromLimit(Distances(x, y, ny), maxFloat);
      assert forall i :: 0 <= i < ny ==> Distances(x, y, ny)[i] == Distance(x, y, ny, i);
    }
  }
}
