/** rabitq_dp_popcnt: the inner product of a one-bit code x with a query quantised to nb
    bits and stored as nb bit planes, each (d + 7) / 8 bytes long. The AVX-512 kernel runs a
    512/256/128-bit cascade with a byte-masked tail over 32-bit lanes that wrap; the scalar
    reference counts 64-bit words and then bytes.
 */
module Rabitq {
  import opened Arith
  import opened Bits
  import opened Int32
  import opened IntSums

  /** `c << j` without a width. */
  function Shl(c: int, j: nat): int {
    if j == 0 then c else 2 * Shl(c, j - 1)
  }

  lemma {:induction false} ShlAdd(a: int, b: int, j: nat)
    ensures Shl(a + b, j) == Shl(a, j) + Shl(b, j)
  {
    if j > 0 {
      ShlAdd(a, b, j - 1);
    }
  }

  // ---------------------------------------------------------------------------
  // Bit planes
  // ---------------------------------------------------------------------------

  predicate Shaped(planes: seq<seq<byte>>, x: seq<byte>) {
    forall j :: 0 <= j < |planes| ==> |planes[j]| == |x|
  }

  /** Common bits of the code and a plane in bytes lo..hi. */
  function Common(plane: seq<byte>, x: seq<byte>, lo: nat, hi: nat): (b: seq<bool>)
    requires |plane| == |x| && lo <= hi <= |x|
    ensures |b| == 8 * (hi - lo)
  {
    And(Load(plane[lo..hi]), Load(x[lo..hi]))
  }

  function CommonCount(plane: seq<byte>, x: seq<byte>, lo: nat, hi: nat): nat
    requires |plane| == |x| && lo <= hi <= |x|
  {
    Popcount(Common(plane, x, lo, hi))
  }

  /** Common bits of the first k planes, plane by plane. */
  function Counts(planes: seq<seq<byte>>, x: seq<byte>, k: nat, lo: nat, hi: nat): (c: seq<nat>)
    requires Shaped(planes, x) && k <= |planes| && lo <= hi <= |x|
    ensures |c| == k && forall j :: 0 <= j < k ==> c[j] == CommonCount(planes[j], x, lo, hi)
  {
    seq(k, j requires 0 <= j < k => CommonCount(planes[j], x, lo, hi))
  }

  function Weighted(counts: seq<nat>): int {
    if |counts| == 0 then 0
    else Weighted(counts[..|counts| - 1]) + Shl(counts[|counts| - 1], |counts| - 1)
  }

  lemma {:induction false} WeightedAdd(a: seq<nat>, b: seq<nat>, c: seq<nat>)
    requires |a| == |b| == |c| && forall j :: 0 <= j < |a| ==> c[j] == a[j] + b[j]
    ensures Weighted(c) == Weighted(a) + Weighted(b)
  {
    if |a| > 0 {
      var n := |a| - 1;
      WeightedAdd(a[..n], b[..n], c[..n]);
      ShlAdd(a[n], b[n], n);
    }
  }

  /** The weighted common bits in bytes lo..hi of the first k planes. */
  function Value(planes: seq<seq<byte>>, x: seq<byte>, k: nat, lo: nat, hi: nat): int
    requires Shaped(planes, x) && k <= |planes| && lo <= hi <= |x|
  {
    Weighted(Counts(planes, x, k, lo, hi))
  }

  lemma ValueStep(planes: seq<seq<byte>>, x: seq<byte>, k: nat, lo: nat, hi: nat)
    requires Shaped(planes, x) && 0 < k <= |planes| && lo <= hi <= |x|
    ensures Value(planes, x, k, lo, hi)
         == Value(planes, x, k - 1, lo, hi) + Shl(CommonCount(planes[k - 1], x, lo, hi), k - 1)
  {
    assert Counts(planes, x, k, lo, hi)[..k - 1] == Counts(planes, x, k - 1, lo, hi);
  }

  lemma CommonExtend(plane: seq<byte>, x: seq<byte>, lo: nat, mid: nat, hi: nat)
    requires |plane| == |x| && lo <= mid <= hi <= |x|
    ensures CommonCount(plane, x, lo, hi) == CommonCount(plane, x, lo, mid) + CommonCount(plane, x, mid, hi)
  {
    assert plane[lo..hi] == plane[lo..mid] + plane[mid..hi];
    assert x[lo..hi] == x[lo..mid] + x[mid..hi];
    LoadConcat(plane[lo..mid], plane[mid..hi]);
    LoadConcat(x[lo..mid], x[mid..hi]);
    assert Common(plane, x, lo, hi) == Common(plane, x, lo, mid) + Common(plane, x, mid, hi);
    PopcountConcat(Common(plane, x, lo, mid), Common(plane, x, mid, hi));
  }

  /** Chunks add up. */
  lemma ValueExtend(planes: seq<seq<byte>>, x: seq<byte>, k: nat, lo: nat, mid: nat, hi: nat)
    requires Shaped(planes, x) && k <= |planes| && lo <= mid <= hi <= |x|
    ensures Value(planes, x, k, lo, hi) == Value(planes, x, k, lo, mid) + Value(planes, x, k, mid, hi)
  {
    var a, b, c := Counts(planes, x, k, lo, mid), Counts(planes, x, k, mid, hi), Counts(planes, x, k, lo, hi);
    forall j | 0 <= j < k ensures c[j] == a[j] + b[j] {
      CommonExtend(planes[j], x, lo, mid, hi);
    }
    WeightedAdd(a, b, c);
  }

  lemma ValueEmpty(planes: seq<seq<byte>>, x: seq<byte>, k: nat, lo: nat)
    requires Shaped(planes, x) && k <= |planes| && lo <= |x|
    ensures Value(planes, x, k, lo, lo) == 0
  {
    ValueExtend(planes, x, k, lo, lo, lo);
  }

  // ---------------------------------------------------------------------------
  // Meaning: a weighted sum over code bits
  // ---------------------------------------------------------------------------

  /** The query coordinate stored across the first k planes at bit i. */
  function Coordinate(planes: seq<seq<byte>>, x: seq<byte>, k: nat, i: nat): int
    requires Shaped(planes, x) && k <= |planes| && i < 8 * |x|
  {
    if k == 0 then 0
    else Coordinate(planes, x, k - 1, i) + (if TestBit(planes[k - 1], i) then Shl(1, k - 1) else 0)
  }

  /** The planes hold the binary digits of the coordinates, lowest first. */
  lemma {:induction false} CoordinateDigits(planes: seq<seq<byte>>, x: seq<byte>, k: nat, i: nat)
    requires Shaped(planes, x) && 0 < k <= |planes| && i < 8 * |x|
    ensures Coordinate(planes, x, k, i)
         == (if TestBit(planes[0], i) then 1 else 0) + 2 * Coordinate(planes[1..], x, k - 1, i)
    decreases k
  {
    if k > 1 {
      CoordinateDigits(planes, x, k - 1, i);
      assert planes[1..][k - 2] == planes[k - 1];
    } else {
      assert Coordinate(planes, x, 0, i) == 0 && Coordinate(planes[1..], x, 0, i) == 0;
    }
  }

  /** Sum over the first i bits of code bit times query coordinate. */
  function Dot(planes: seq<seq<byte>>, x: seq<byte>, k: nat, i: nat): int
    requires Shaped(planes, x) && k <= |planes| && i <= 8 * |x|
  {
    if i == 0 then 0
    else Dot(planes, x, k, i - 1) + (if TestBit(x, i - 1) then Coordinate(planes, x, k, i - 1) else 0)
  }

  lemma CommonAt(plane: seq<byte>, x: seq<byte>, i: nat)
    requires |plane| == |x| && i < 8 * |x|
    ensures Common(plane, x, 0, |x|)[i] == (TestBit(plane, i) && TestBit(x, i))
  {
    assert plane[0..|x|] == plane && x[0..|x|] == x;
    LoadAt(plane, i);
    LoadAt(x, i);
  }

  /** Adding one plane adds its weighted common bits. */
  lemma {:induction false} DotPlane(planes: seq<seq<byte>>, x: seq<byte>, k: nat, i: nat)
    requires Shaped(planes, x) && 0 < k <= |planes| && i <= 8 * |x|
    ensures Dot(planes, x, k, i)
         == Dot(planes, x, k - 1, i) + Shl(Popcount(Common(planes[k - 1], x, 0, |x|)[..i]), k - 1)
    decreases i
  {
    if i == 0 {
      ShlAdd(0, 0, k - 1);
    } else {
      DotPlane(planes, x, k, i - 1);
      CommonPrefix(planes[k - 1], x, i);
      ShlAdd(Popcount(Common(planes[k - 1], x, 0, |x|)[..i - 1]), 1, k - 1);
    }
  }

  lemma CommonPrefix(plane: seq<byte>, x: seq<byte>, i: nat)
    requires |plane| == |x| && 0 < i <= 8 * |x|
    ensures Popcount(Common(plane, x, 0, |x|)[..i])
         == Popcount(Common(plane, x, 0, |x|)[..i - 1]) + (if TestBit(plane, i - 1) && TestBit(x, i - 1) then 1 else 0)
  {
    var c := Common(plane, x, 0, |x|);
    assert c[..i][..i - 1] == c[..i - 1];
    CommonAt(plane, x, i - 1);
  }

  /** Popcounts per plane, weighted, are the dot product over bits: the two orders of
      summation agree. */
  lemma {:induction false} ValueIsDot(planes: seq<seq<byte>>, x: seq<byte>, k: nat)
    requires Shaped(planes, x) && k <= |planes|
    ensures Value(planes, x, k, 0, |x|) == Dot(planes, x, k, 8 * |x|)
    decreases k
  {
    if k == 0 {
      DotNoPlanes(planes, x, 8 * |x|);
    } else {
      ValueIsDot(planes, x, k - 1);
      ValueStep(planes, x, k, 0, |x|);
      DotPlane(planes, x, k, 8 * |x|);
      var c := Common(planes[k - 1], x, 0, |x|);
      assert c[..8 * |x|] == c;
    }
  }

  lemma {:induction false} DotNoPlanes(planes: seq<seq<byte>>, x: seq<byte>, i: nat)
    requires Shaped(planes, x) && i <= 8 * |x|
    ensures Dot(planes, x, 0, i) == 0
  {
    if i > 0 {
      DotNoPlanes(planes, x, i - 1);
    }
  }

  // ---------------------------------------------------------------------------
  // Memory layout of the query: plane j starts at byte j * n
  // ---------------------------------------------------------------------------

  predicate Holds(q: seq<byte>, n: nat, nb: nat) {
    nb * n <= |q|
  }

  lemma PlaneInRange(q: seq<byte>, n: nat, nb: nat, j: nat)
    requires Holds(q, n, nb) && j < nb
    ensures 0 <= j * n <= j * n + n <= |q|
  {
    MulMono(j + 1, nb, n);
    MulMono(0, j, n);
  }

  function PlaneAt(q: seq<byte>, n: nat, nb: nat, j: nat): (p: seq<byte>)
    requires Holds(q, n, nb) && j < nb
    ensures |p| == n
  {
    PlaneInRange(q, n, nb, j);
    q[j * n..j * n + n]
  }

  function Planes(q: seq<byte>, n: nat, nb: nat): (p: seq<seq<byte>>)
    requires Holds(q, n, nb)
    ensures |p| == nb && forall j :: 0 <= j < nb ==> |p[j]| == n
  {
    seq(nb, j requires 0 <= j < nb => PlaneAt(q, n, nb, j))
  }

  /** Bit i of plane j is bit 8 * n * j + i of the query. */
  lemma QueryBit(q: seq<byte>, n: nat, nb: nat, j: nat, i: nat)
    requires Holds(q, n, nb) && j < nb && i < 8 * n
    ensures j * n + n <= |q| && TestBit(Planes(q, n, nb)[j], i) == TestBit(q, 8 * (j * n) + i)
  {
    PlaneInRange(q, n, nb, j);
    ByteOfBit(j * n, i);
    assert Planes(q, n, nb)[j][i / 8] == q[j * n + i / 8];
  }

  lemma ByteOfBit(at: nat, i: nat)
    ensures (8 * at + i) / 8 == at + i / 8 && (8 * at + i) % 8 == i % 8
  {
  }

  method ReadPlane(q: seq<byte>, n: nat, nb: nat, j: nat, lo: nat, hi: nat) returns (bytes: seq<byte>)
    requires Holds(q, n, nb) && j < nb && lo <= hi <= n
    ensures bytes == Planes(q, n, nb)[j][lo..hi]
  {
    PlaneInRange(q, n, nb, j);
    bytes := q[j * n + lo..j * n + hi];
    assert Planes(q, n, nb)[j] == PlaneAt(q, n, nb, j);
    SliceOfSlice(q, j * n, j * n + n, lo, hi);
  }

  lemma SliceOfSlice<T>(s: seq<T>, a: nat, b: nat, lo: nat, hi: nat)
    requires a <= b <= |s| && lo <= hi <= b - a
    ensures s[a..b][lo..hi] == s[a + lo..a + hi]
  {
    var l, r := s[a..b][lo..hi], s[a + lo..a + hi];
    forall i | 0 <= i < hi - lo ensures l[i] == r[i] {
      assert l[i] == s[a..b][lo + i];
    }
  }

  // ---------------------------------------------------------------------------
  // Scalar reference
  // ---------------------------------------------------------------------------

  lemma {:induction false} ShlCongruent(a: int, b: int, j: nat)
    requires Congruent(a, b)
    ensures Congruent(Shl(a, j), Shl(b, j))
  {
    if j > 0 {
      ShlCongruent(a, b, j - 1);
      CongruentScale(Shl(a, j - 1), Shl(b, j - 1), 2);
    }
  }

  /** One plane of the reference: 64-bit words first and then single bytes. */
  method PlaneCount(plane: seq<byte>, x: seq<byte>) returns (count: int32)
    requires |plane| == |x|
    ensures Congruent(count, CommonCount(plane, x, 0, |x|))
  {
    count := 0;
    CongruentRefl(0);
    var i: nat := 0;
    var words := (|x| / 8) * 8;
    RoundDown(|x|, 8);
    while i < words
      invariant i <= words && i % 8 == 0 && Congruent(count, CommonCount(plane, x, 0, i))
    {
      AlignedStep(i, 8, words);
      count := CountRange(plane, x, i, i + 8, count);
      i := i + 8;
    }
    while i < |x|
      invariant i <= |x| && Congruent(count, CommonCount(plane, x, 0, i))
    {
      count := CountRange(plane, x, i, i + 1, count);
      i := i + 1;
    }
  }

  method CountRange(plane: seq<byte>, x: seq<byte>, lo: nat, hi: nat, acc: int32) returns (count: int32)
    requires |plane| == |x| && lo <= hi <= |x| && Congruent(acc, CommonCount(plane, x, 0, lo))
    ensures Congruent(count, CommonCount(plane, x, 0, hi))
  {
    var qv, xv := Load(plane[lo..hi]), Load(x[lo..hi]);
    CommonExtend(plane, x, 0, lo, hi);
    CongruentRefl(CommonCount(plane, x, lo, hi));
    WrapAdd(acc, CommonCount(plane, x, 0, lo), CommonCount(plane, x, lo, hi), CommonCount(plane, x, lo, hi));
    count := Wrap32(acc + Popcount(And(qv, xv)));
  }

  method AddPlane(plane: seq<byte>, x: seq<byte>, j: nat, dot0: int32, ghost want: int) returns (dot: int32)
    requires |plane| == |x| && Congruent(dot0, want)
    ensures Congruent(dot, want + Shl(CommonCount(plane, x, 0, |x|), j))
  {
    var count := PlaneCount(plane, x);
    ShlCongruent(count, CommonCount(plane, x, 0, |x|), j);
    WrapAdd(dot0, want, Shl(count, j), Shl(CommonCount(plane, x, 0, |x|), j));
    dot := Wrap32(dot0 + Shl(count, j));
  }

  /** One plane of the reference loop. */
  method NextPlane(plane: seq<byte>, x: seq<byte>, j: nat, dot0: int32, ghost planes: seq<seq<byte>>)
    returns (dot: int32)
    requires Shaped(planes, x) && j < |planes| && plane == planes[j] && Congruent(dot0, Value(planes, x, j, 0, |x|))
    ensures Congruent(dot, Value(planes, x, j + 1, 0, |x|))
  {
    ValueStep(planes, x, j + 1, 0, |x|);
    dot := AddPlane(plane, x, j, dot0, Value(planes, x, j, 0, |x|));
  }

  /** rabitq_dp_popcnt_ref */
  method ScalarReference(q: seq<byte>, x: seq<byte>, nb: nat) returns (dot: int32)
    requires Holds(q, |x|, nb)
    ensures dot == Wrap32(Value(Planes(q, |x|, nb), x, nb, 0, |x|))
  {
    ghost var planes := Planes(q, |x|, nb);
    dot := 0;
    CongruentRefl(0);
    for j := 0 to nb
      invariant Congruent(dot, Value(planes, x, j, 0, |x|))
    {
      var plane := ReadPlane(q, |x|, nb, j, 0, |x|);
      WholeSlice(planes[j]);
      dot := NextPlane(plane, x, j, dot, planes);
    }
    InRangeCongruent(dot, Value(planes, x, nb, 0, |x|));
  }

  lemma WholeSlice<T>(s: seq<T>)
    ensures s[0..|s|] == s
  {
  }

  // ---------------------------------------------------------------------------
  // AVX-512 cascade
  // ---------------------------------------------------------------------------

  /** _mm*_popcnt_epi32 */
  function PopLanes(bits: seq<bool>, lanes: nat): (r: seq<int>)
    requires |bits| == 32 * lanes
    ensures |r| == lanes && forall i :: 0 <= i < lanes ==> r[i] == Popcount(bits[32 * i..32 * i + 32])
  {
    seq(lanes, i requires 0 <= i < lanes => Popcount(bits[32 * i..32 * i + 32]))
  }

  lemma {:induction false} PopLanesSum(bits: seq<bool>, lanes: nat)
    requires |bits| == 32 * lanes
    ensures Sum(PopLanes(bits, lanes)) == Popcount(bits)
  {
    if lanes > 0 {
      var m := 32 * (lanes - 1);
      PopLanesSum(bits[..m], lanes - 1);
      PopLanesPrefix(bits, lanes);
      PopcountExtend(bits, m, 32);
      assert bits[..m + 32] == bits;
    }
  }

  lemma PopLanesPrefix(bits: seq<bool>, lanes: nat)
    requires |bits| == 32 * lanes && lanes > 0
    ensures PopLanes(bits, lanes)[..lanes - 1] == PopLanes(bits[..32 * (lanes - 1)], lanes - 1)
  {
    var m := 32 * (lanes - 1);
    forall i | 0 <= i < lanes - 1 ensures bits[..m][32 * i..32 * i + 32] == bits[32 * i..32 * i + 32] {
    }
  }

  /** _mm*_slli_epi32 */
  function SlliLanes(v: seq<int>, j: nat): (r: seq<int>)
    ensures |r| == |v| && forall i :: 0 <= i < |v| ==> r[i] == Shl(v[i], j) % TWO_TO_32
  {
    seq(|v|, i requires 0 <= i < |v| => Shl(v[i], j) % TWO_TO_32)
  }

  lemma {:induction false} SlliSum(v: seq<int>, j: nat)
    ensures Congruent(Sum(SlliLanes(v, j)), Shl(Sum(v), j))
  {
    if |v| == 0 {
      ShlAdd(0, 0, j);
      CongruentRefl(0);
    } else {
      var n := |v| - 1;
      assert SlliLanes(v, j)[..n] == SlliLanes(v[..n], j);
      SlliSum(v[..n], j);
      ModCongruent(Shl(v[n], j));
      CongruentAdd(Sum(SlliLanes(v[..n], j)), Shl(Sum(v[..n]), j), Shl(v[n], j) % TWO_TO_32, Shl(v[n], j));
      ShlAdd(Sum(v[..n]), v[n], j);
    }
  }

  /** A plain load, or a byte-masked one when fewer bytes than the register holds are wanted. */
  function LoadMaskz(bytes: seq<byte>, width: nat): (b: seq<bool>)
    requires |bytes| <= width
    ensures |b| == 8 * width
  {
    Load(bytes + seq(width - |bytes|, _ => 0))
  }

  lemma MaskzCommon(plane: seq<byte>, x: seq<byte>, lo: nat, hi: nat, width: nat)
    requires |plane| == |x| && lo <= hi <= |x| && hi - lo <= width
    ensures Popcount(And(LoadMaskz(plane[lo..hi], width), LoadMaskz(x[lo..hi], width))) == CommonCount(plane, x, lo, hi)
  {
    var a, b := plane[lo..hi], x[lo..hi];
    var z: seq<byte> := seq(width - (hi - lo), _ => 0);
    LoadConcat(a, z);
    LoadConcat(b, z);
    var pad := And(Load(z), Load(z));
    forall i | 0 <= i < |pad| ensures !pad[i] {
      LoadAt(z, i);
    }
    PopcountZero(pad);
    assert And(Load(a) + Load(z), Load(b) + Load(z)) == And(Load(a), Load(b)) + pad;
    PopcountConcat(And(Load(a), Load(b)), pad);
  }

  /** One plane of one register: and, popcount, shift, add. */
  method AddPlaneLanes(bytes: seq<byte>, vx: seq<bool>, j: nat, acc0: seq<int>, ghost plane: seq<byte>,
                       ghost x: seq<byte>, ghost lo: nat, ghost hi: nat, ghost want: int) returns (acc: seq<int>)
    requires |plane| == |x| && lo <= hi <= |x| && hi - lo <= 4 * |acc0|
    requires bytes == plane[lo..hi] && vx == LoadMaskz(x[lo..hi], 4 * |acc0|)
    requires Congruent(Sum(acc0), want)
    ensures |acc| == |acc0| && Congruent(Sum(acc), want + Shl(CommonCount(plane, x, lo, hi), j))
  {
    var vand := And(LoadMaskz(bytes, 4 * |acc0|), vx);
    MaskzCommon(plane, x, lo, hi, 4 * |acc0|);
    PopLanesSum(vand, |acc0|);
    var popcnt := PopLanes(vand, |acc0|);
    AddShifted(acc0, popcnt, j, want);
    acc := AddLanes(acc0, SlliLanes(popcnt, j));
  }

  /** The values of the first j planes, for every j up to n. */
  lemma {:induction false} PartialValues(planes: seq<seq<byte>>, x: seq<byte>, n: nat, lo: nat, hi: nat)
    returns (v: seq<int>)
    requires Shaped(planes, x) && n <= |planes| && lo <= hi <= |x|
    ensures |v| == n + 1 && v[0] == 0 && v[n] == Value(planes, x, n, lo, hi)
    ensures forall j :: 0 <= j < n ==> v[j + 1] == v[j] + Shl(CommonCount(planes[j], x, lo, hi), j)
  {
    if n == 0 {
      v := [0];
    } else {
      v := PartialValues(planes, x, n - 1, lo, hi);
      ValueStep(planes, x, n, lo, hi);
      v := v + [Value(planes, x, n, lo, hi)];
    }
  }

  /** One register's worth of the code against every plane. */
  method Chunk(q: seq<byte>, x: seq<byte>, nb: nat, lo: nat, hi: nat, acc0: seq<int>, ghost before: int,
               ghost after: int)
    returns (acc: seq<int>)
    requires Holds(q, |x|, nb) && lo <= hi <= |x| && hi - lo <= 4 * |acc0| && Congruent(Sum(acc0), before)
    requires after == before + Value(Planes(q, |x|, nb), x, nb, lo, hi)
    ensures |acc| == |acc0| && Congruent(Sum(acc), after)
  {
    ghost var v := PartialValues(Planes(q, |x|, nb), x, nb, lo, hi);
    var vx := LoadMaskz(x[lo..hi], 4 * |acc0|);
    acc := acc0;
    for j := 0 to nb
      invariant |acc| == |acc0| && Congruent(Sum(acc), before + v[j])
    {
      acc := ChunkPlane(q, x, nb, lo, hi, vx, j, acc, before + v[j], before + v[j + 1]);
    }
  }

  method ChunkPlane(q: seq<byte>, x: seq<byte>, nb: nat, lo: nat, hi: nat, vx: seq<bool>, j: nat, acc0: seq<int>,
                    ghost before: int, ghost after: int)
    returns (acc: seq<int>)
    requires Holds(q, |x|, nb) && j < nb && lo <= hi <= |x| && hi - lo <= 4 * |acc0|
    requires vx == LoadMaskz(x[lo..hi], 4 * |acc0|) && Congruent(Sum(acc0), before)
    requires after == before + Shl(CommonCount(Planes(q, |x|, nb)[j], x, lo, hi), j)
    ensures |acc| == |acc0| && Congruent(Sum(acc), after)
  {
    var bytes := ReadPlane(q, |x|, nb, j, lo, hi);
    acc := AddPlaneLanes(bytes, vx, j, acc0, Planes(q, |x|, nb)[j], x, lo, hi, before);
  }

  /** A chunk that continues where the previous ones stopped. */
  method NextChunk(q: seq<byte>, x: seq<byte>, nb: nat, lo: nat, hi: nat, acc0: seq<int>) returns (acc: seq<int>)
    requires Holds(q, |x|, nb) && lo <= hi <= |x| && hi - lo <= 4 * |acc0|
    requires Congruent(Sum(acc0), Value(Planes(q, |x|, nb), x, nb, 0, lo))
    ensures |acc| == |acc0| && Congruent(Sum(acc), Value(Planes(q, |x|, nb), x, nb, 0, hi))
  {
    ghost var planes := Planes(q, |x|, nb);
    ValueExtend(planes, x, nb, 0, lo, hi);
    acc := Chunk(q, x, nb, lo, hi, acc0, Value(planes, x, nb, 0, lo), Value(planes, x, nb, 0, hi));
  }

  lemma AddShifted(acc: seq<int>, popcnt: seq<int>, j: nat, want: int)
    requires |acc| == |popcnt| && Congruent(Sum(acc), want)
    ensures Congruent(Sum(AddLanes(acc, SlliLanes(popcnt, j))), want + Shl(Sum(popcnt), j))
  {
    SlliSum(popcnt, j);
    AddLanesSum(acc, SlliLanes(popcnt, j));
    CongruentAdd(Sum(acc), want, Sum(SlliLanes(popcnt, j)), Shl(Sum(popcnt), j));
    CongruentTrans(Sum(AddLanes(acc, SlliLanes(popcnt, j))), Sum(acc) + Sum(SlliLanes(popcnt, j)),
                   want + Shl(Sum(popcnt), j));
  }

  /** Adding the two halves of a register. */
  method Halve(acc: seq<int>) returns (half: seq<int>)
    requires |acc| % 2 == 0
    ensures |half| == |acc| / 2 && Congruent(Sum(half), Sum(acc))
  {
    var h := |acc| / 2;
    SumSplit(acc, h);
    AddLanesSum(acc[..h], acc[h..]);
    half := AddLanes(acc[..h], acc[h..]);
  }

  /** The 512-bit loop: sixteen lanes, 64 bytes at a time. */
  method Wide(q: seq<byte>, x: seq<byte>, d: nat, nb: nat) returns (sum512: seq<int>)
    requires Holds(q, |x|, nb) && |x| == (d + 7) / 8
    ensures d / 512 * 64 <= |x| && |sum512| == 16
    ensures Congruent(Sum(sum512), Value(Planes(q, |x|, nb), x, nb, 0, d / 512 * 64))
  {
    sum512 := seq(16, _ => 0);
    SumConstant(sum512, 0);
    ValueEmpty(Planes(q, |x|, nb), x, nb, 0);
    CongruentRefl(0);
    for c := 0 to d / 512
      invariant 64 * c <= |x| && |sum512| == 16
      invariant Congruent(Sum(sum512), Value(Planes(q, |x|, nb), x, nb, 0, 64 * c))
    {
      assert 64 * c + 64 == 64 * (c + 1) <= |x|;
      sum512 := NextChunk(q, x, nb, 64 * c, 64 * (c + 1), sum512);
    }
  }

  /** rabitq_dp_q: 512-bit loop, at most one 256-bit and one 128-bit chunk, byte-masked tail. */
  method Cascade(q: seq<byte>, x: seq<byte>, d: nat, nb: nat) returns (dot: int32)
    requires Holds(q, |x|, nb) && |x| == (d + 7) / 8
    ensures dot == Wrap32(Value(Planes(q, |x|, nb), x, nb, 0, |x|))
  {
    ghost var planes := Planes(q, |x|, nb);
    var b512, b256, b128 := d / 512 * 64, d / 256 * 32, d / 128 * 16;
    CascadeOffsets(d);
    var sum512 := Wide(q, x, d, nb);
    var sum256 := Halve(sum512);
    CongruentTrans(Sum(sum256), Sum(sum512), Value(planes, x, nb, 0, b512));
    if b256 != b512 {
      sum256 := NextChunk(q, x, nb, b512, b256, sum256);
    }
    var sum128 := Halve(sum256);
    CongruentTrans(Sum(sum128), Sum(sum256), Value(planes, x, nb, 0, b256));
    if b128 != b256 {
      sum128 := NextChunk(q, x, nb, b256, b128, sum128);
    }
    if d != 8 * b128 {
      sum128 := NextChunk(q, x, nb, b128, |x|, sum128);
    }
    dot := SumOfFour(sum128);
    CongruentTrans(dot, Sum(sum128), Value(planes, x, nb, 0, |x|));
    InRangeCongruent(dot, Value(planes, x, nb, 0, |x|));
  }

  /** Each narrower stage starts where the wider one stopped and runs at most once. */
  lemma CascadeOffsets(d: nat)
    ensures d / 512 * 64 <= d / 256 * 32 <= d / 128 * 16 <= (d + 7) / 8
    ensures d / 256 * 32 - d / 512 * 64 <= 32 && d / 128 * 16 - d / 256 * 32 <= 16 && (d + 7) / 8 - d / 128 * 16 <= 16
    ensures d == 8 * (d / 128 * 16) ==> (d + 7) / 8 == d / 128 * 16
  {
    var a, r := d / 128, d % 128;
    var b, s := a / 2, a % 2;
    var c, t := b / 2, b % 2;
    assert d == 128 * a + r && a == 2 * b + s && b == 2 * c + t;
    DivModUnique(d, 256, b, 128 * s + r);
    DivModUnique(d, 512, c, 256 * t + 128 * s + r);
    DivModUnique(d + 7, 8, 16 * a + (r + 7) / 8, (r + 7) % 8);
  }

  method SumOfFour(lanes: seq<int>) returns (sum: int32)
    requires |lanes| == 4
    ensures Congruent(sum, Sum(lanes))
  {
    sum := 0;
    CongruentRefl(0);
    for i := 0 to 4
      invariant Congruent(sum, Sum(lanes[..i]))
    {
      assert lanes[..i + 1][..i] == lanes[..i];
      CongruentRefl(lanes[i]);
      WrapAdd(sum, Sum(lanes[..i]), lanes[i], lanes[i]);
      sum := Wrap32(sum + lanes[i]);
    }
    assert lanes[..4] == lanes;
  }

  /** rabitq_dp_popcnt_avx512icx: instantiated for 1 to 8 planes, zero for any other count. */
  method DotPopcount(q: seq<byte>, x: seq<byte>, d: nat, nb: nat) returns (dot: int32)
    requires Holds(q, |x|, nb) && |x| == (d + 7) / 8
    ensures nb <= 8 ==> dot == Wrap32(Dot(Planes(q, |x|, nb), x, nb, 8 * |x|))
    ensures nb > 8 ==> dot == 0
  {
    ValueIsDot(Planes(q, |x|, nb), x, nb);
    if 1 <= nb <= 8 {
      dot := Cascade(q, x, d, nb);
    } else {
      dot := 0;
    }
  }
}
