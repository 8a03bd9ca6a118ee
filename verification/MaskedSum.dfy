/** fvec_masked_sum: the sum of q[i] over the set bits i < d of a bitmap. The AVX2 kernel
    turns each bitmap byte into eight sign-bit lane masks by variable shifts; the AVX-512
    kernel loads sixteen bits straight into a mask register. Additions are exact.
 */
module MaskedSum {
  import opened Arith
  import opened Bits
  import opened Folds

  predicate Covers(q: seq<real>, x: seq<byte>, d: nat) {
    d <= |q| && (d + 7) / 8 <= |x|
  }

  function Terms(q: seq<real>, x: seq<byte>, d: nat): (t: seq<real>)
    requires Covers(q, x, d)
    ensures |t| == d && forall i :: 0 <= i < d ==> t[i] == if TestBit(x, i) then q[i] else 0.0
  {
    seq(d, i requires 0 <= i < d => if TestBit(x, i) then q[i] else 0.0)
  }

  /** fvec_masked_sum_ref */
  method ScalarReference(q: seq<real>, x: seq<byte>, d: nat) returns (sum: real)
    requires Covers(q, x, d)
    ensures sum == Fold(Plus, Terms(q, x, d))
  {
    ghost var t := Terms(q, x, d);
    sum := 0.0;
    for i := 0 to d
      invariant sum == Fold(Plus, t[..i])
    {
      FoldExtend(Plus, t, i, 1);
      sum := sum + (if BitOf(x[i / 8], i % 8) then q[i] else 0.0);
    }
    assert t[..d] == t;
  }

  // ---------------------------------------------------------------------------
  // AVX2
  // ---------------------------------------------------------------------------

  /** _mm256_set1_epi8 then _mm256_sllv_epi32 by 31, 30, .., 24 (lane 0 first). */
  function MaskFromU8(value: byte): (lanes: seq<bv32>)
    ensures |lanes| == 8
  {
    var v := value as bv32;
    var all := v | (v << 8) | (v << 16) | (v << 24);
    [all << 31, all << 30, all << 29, all << 28, all << 27, all << 26, all << 25, all << 24]
  }

  predicate SignBit(lane: bv32) {
    lane & 0x8000_0000 != 0
  }

  /** The sign bit of lane j is bit j of the byte. */
  lemma MaskLanes(value: byte, j: nat)
    requires j < 8
    ensures SignBit(MaskFromU8(value)[j]) == BitOf(value, j)
  {
  }

  /** _mm256_maskload_ps: lanes whose mask is clear read as zero and touch no memory. */
  function MaskLoad(q: seq<real>, offset: nat, mask: seq<bv32>): (r: seq<real>)
    requires |mask| == 8 && forall j :: 0 <= j < 8 && SignBit(mask[j]) ==> offset + j < |q|
    ensures |r| == 8
  {
    seq(8, j requires 0 <= j < 8 => if SignBit(mask[j]) then q[offset + j] else 0.0)
  }

  /** A masked load at a byte boundary reads exactly the next eight terms. */
  lemma MaskLoadTerms(q: seq<real>, x: seq<byte>, d: nat, i: nat)
    requires Covers(q, x, d) && i % 8 == 0 && i + 8 <= d
    ensures MaskLoad(q, i, MaskFromU8(x[i / 8])) == Terms(q, x, d)[i..i + 8]
  {
    var r := MaskLoad(q, i, MaskFromU8(x[i / 8]));
    forall j | 0 <= j < 8 ensures r[j] == Terms(q, x, d)[i..i + 8][j] {
      MaskLanes(x[i / 8], j);
      assert (i + j) / 8 == i / 8 && (i + j) % 8 == j;
    }
  }

  /** `((1U << leftovers) - 1) & b` for 0 < leftovers < 8. */
  function KeepLow(b: byte, leftovers: nat): byte
    requires 0 < leftovers < 8
  {
    match leftovers
    case 1 => b & 0x01
    case 2 => b & 0x03
    case 3 => b & 0x07
    case 4 => b & 0x0F
    case 5 => b & 0x1F
    case 6 => b & 0x3F
    case _ => b & 0x7F
  }

  lemma KeepLowBits(b: byte, leftovers: nat, j: nat)
    requires 0 < leftovers < 8 && j < 8
    ensures BitOf(KeepLow(b, leftovers), j) == (j < leftovers && BitOf(b, j))
  {
  }

  /** The last, partial byte: its lanes are the remaining terms followed by zeros. */
  lemma LeftoverTerms(q: seq<real>, x: seq<byte>, d: nat, i: nat)
    requires Covers(q, x, d) && i == (d / 8) * 8 && i != d
    ensures
      var mask := MaskFromU8(KeepLow(x[i / 8], d - i));
      && (forall j :: 0 <= j < 8 && SignBit(mask[j]) ==> i + j < |q|)
      && MaskLoad(q, i, mask) == Terms(q, x, d)[i..] + Zeros(8 - (d - i))
  {
    var b := KeepLow(x[i / 8], d - i);
    var mask := MaskFromU8(b);
    forall j | 0 <= j < 8 ensures SignBit(mask[j]) == (j < d - i && TestBit(x, i + j)) {
      MaskLanes(b, j);
      KeepLowBits(x[i / 8], d - i, j);
      if j < d - i {
        assert (i + j) / 8 == i / 8 && (i + j) % 8 == j;
      }
    }
  }

  /** The shuffle-and-add ladder of horizontal_sum(__m128). */
  function HorizontalSum4(v: seq<real>): real
    requires |v| == 4
  {
    var v0 := [v[2], v[3], v[0], v[0]];
    var v1 := Lanewise(Plus, v, v0);
    var v2 := [v1[1], v1[0], v1[0], v1[0]];
    var v3 := Lanewise(Plus, v1, v2);
    v3[0]
  }

  function HorizontalSum8(v: seq<real>): real
    requires |v| == 8
  {
    HorizontalSum4(Lanewise(Plus, v[..4], v[4..]))
  }

  lemma HorizontalSumIsFold(v: seq<real>)
    requires |v| == 8
    ensures HorizontalSum8(v) == Fold(Plus, v)
  {
    var u := Lanewise(Plus, v[..4], v[4..]);
    FoldLanewise(Plus, v[..4], v[4..]);
    FoldSplit(Plus, v, 4);
    FoldOfFour(u);
  }

  ghost function Prefix(q: seq<real>, x: seq<byte>, d: nat, i: nat): real
    requires Covers(q, x, d) && i <= d
  {
    Fold(Plus, Terms(q, x, d)[..i])
  }

  /** One masked load added to one accumulator advances the sum by eight terms. */
  method AddMasked(q: seq<real>, x: seq<byte>, d: nat, i: nat, acc: seq<real>) returns (r: seq<real>)
    requires Covers(q, x, d) && i % 8 == 0 && i + 8 <= d && |acc| == 8
    ensures |r| == 8 && Fold(Plus, r) == Fold(Plus, acc) + Prefix(q, x, d, i + 8) - Prefix(q, x, d, i)
  {
    var lanes := MaskLoad(q, i, MaskFromU8(x[i / 8]));
    MaskLoadTerms(q, x, d, i);
    FoldLanewise(Plus, acc, lanes);
    FoldExtend(Plus, Terms(q, x, d), i, 8);
    r := Lanewise(Plus, acc, lanes);
  }

  method AddLeftover(q: seq<real>, x: seq<byte>, d: nat, i: nat, acc: seq<real>) returns (r: seq<real>)
    requires Covers(q, x, d) && i == (d / 8) * 8 && i != d && |acc| == 8
    ensures |r| == 8 && Fold(Plus, r) == Fold(Plus, acc) + Prefix(q, x, d, d) - Prefix(q, x, d, i)
  {
    ghost var t := Terms(q, x, d);
    LeftoverTerms(q, x, d, i);
    var lanes := MaskLoad(q, i, MaskFromU8(KeepLow(x[i / 8], d - i)));
    PaddedSum(t, i, lanes);
    FoldLanewise(Plus, acc, lanes);
    r := Lanewise(Plus, acc, lanes);
  }

  lemma PaddedSum(t: seq<real>, i: nat, lanes: seq<real>)
    requires i <= |t| && |lanes| >= |t| - i && lanes == t[i..] + Zeros(|lanes| - (|t| - i))
    ensures Fold(Plus, lanes) == Fold(Plus, t[..|t|]) - Fold(Plus, t[..i])
  {
    FoldConcat(Plus, t[i..], Zeros(|lanes| - (|t| - i)));
    FoldZeros(Plus, |lanes| - (|t| - i));
    FoldSplit(Plus, t, i);
    assert t[..|t|] == t;
  }

  /** The unrolled loop over 32 bits at a time, and the merge of its accumulators. */
  method AvxMain(q: seq<real>, x: seq<byte>, d: nat) returns (sum0: seq<real>)
    requires Covers(q, x, d)
    ensures |sum0| == 8 && Fold(Plus, sum0) == Prefix(q, x, d, (d / 32) * 32)
  {
    var d32 := (d / 32) * 32;
    RoundDown(d, 32);
    sum0 := Zeros(8);
    var sum1, sum2, sum3 := sum0, sum0, sum0;
    FoldZeros(Plus, 8);
    if d32 > 0 {
      var i: nat := 0;
      while i < d32
        invariant i <= d32 && i % 32 == 0 && |sum0| == |sum1| == |sum2| == |sum3| == 8
        invariant Fold(Plus, sum0) + Fold(Plus, sum1) + Fold(Plus, sum2) + Fold(Plus, sum3) == Prefix(q, x, d, i)
      {
        AlignedStep(i, 32, d32);
        AlignedBytes(i);
        sum0 := AddMasked(q, x, d, i, sum0);
        sum1 := AddMasked(q, x, d, i + 8, sum1);
        sum2 := AddMasked(q, x, d, i + 16, sum2);
        sum3 := AddMasked(q, x, d, i + 24, sum3);
        i := i + 32;
      }
      sum0 := AddRegisters(sum0, sum1);
      sum2 := AddRegisters(sum2, sum3);
      sum0 := AddRegisters(sum0, sum2);
    }
  }

  lemma AlignedBytes(i: nat)
    requires i % 32 == 0
    ensures i % 8 == (i + 8) % 8 == (i + 16) % 8 == (i + 24) % 8 == 0
  {
  }

  method AddRegisters(a: seq<real>, b: seq<real>) returns (r: seq<real>)
    requires |a| == |b|
    ensures |r| == |a| && Fold(Plus, r) == Fold(Plus, a) + Fold(Plus, b)
  {
    FoldLanewise(Plus, a, b);
    r := Lanewise(Plus, a, b);
  }

  /** The registers of eight after the unrolled ones. */
  method AvxEights(q: seq<real>, x: seq<byte>, d: nat, d8: nat) returns (sum0: seq<real>)
    requires Covers(q, x, d) && d8 == (d / 8) * 8
    ensures d8 <= d && |sum0| == 8 && Fold(Plus, sum0) == Prefix(q, x, d, d8)
  {
    sum0 := AvxMain(q, x, d);
    var i: nat := (d / 32) * 32;
    RoundDown(d, 32);
    RoundDown(d, 8);
    AlignedBytes(i);
    while i < d8
      invariant i <= d8 && i % 8 == 0 && |sum0| == 8 && Fold(Plus, sum0) == Prefix(q, x, d, i)
    {
      AlignedStep(i, 8, d8);
      sum0 := AddMasked(q, x, d, i, sum0);
      i := i + 8;
    }
  }

  /** fvec_masked_sum_avx */
  method MaskedSumAvx(q: seq<real>, x: seq<byte>, d: nat) returns (sum: real)
    requires Covers(q, x, d)
    ensures sum == Fold(Plus, Terms(q, x, d))
  {
    var d8 := (d / 8) * 8;
    var sum0 := AvxEights(q, x, d, d8);
    if d != d8 {
      sum0 := AddLeftover(q, x, d, d8, sum0);
    }
    assert Terms(q, x, d)[..d] == Terms(q, x, d);
    HorizontalSumIsFold(sum0);
    sum := HorizontalSum8(sum0);
  }

  // ---------------------------------------------------------------------------
  // AVX-512
  // ---------------------------------------------------------------------------

  /** _mm512_maskz_loadu_ps */
  function MaskzLoad(q: seq<real>, offset: nat, mask: seq<bool>): (r: seq<real>)
    requires forall j :: 0 <= j < |mask| && mask[j] ==> offset + j < |q|
    ensures |r| == |mask|
  {
    seq(|mask|, j requires 0 <= j < |mask| => if mask[j] then q[offset + j] else 0.0)
  }

  /** `(1U << leftovers) - 1` as a sixteen-lane mask. */
  function LengthMask(leftovers: nat): (m: seq<bool>)
    ensures |m| == 16
  {
    seq(16, j => j < leftovers)
  }

  function ZeroExtend(m: seq<bool>): (r: seq<bool>)
    requires |m| <= 16
    ensures |r| == 16
  {
    m + seq(16 - |m|, _ => false)
  }

  lemma SixteenBits(i: nat, j: nat)
    requires i % 16 == 0 && j < 16
    ensures (i + j) / 8 == i / 8 + j / 8 && (i + j) % 8 == j % 8
  {
    var k := i / 16;
    assert i == 8 * (2 * k) && i / 8 == 2 * k;
    assert i + j == 8 * (2 * k + j / 8) + j % 8;
  }

  lemma MaskBit(x: seq<byte>, i: nat, n: nat, j: nat)
    requires i % 16 == 0 && i / 8 + n <= |x| && j < 8 * n && n <= 2
    ensures Load(x[i / 8..i / 8 + n])[j] == TestBit(x, i + j)
  {
    LoadAt(x[i / 8..i / 8 + n], j);
    SixteenBits(i, j);
  }

  /** A whole 16-bit mask read from two bytes. */
  method ReadMask(x: seq<byte>, i: nat) returns (mask: seq<bool>)
    requires i % 16 == 0 && i / 8 + 2 <= |x|
    ensures |mask| == 16 && forall j :: 0 <= j < 16 ==> i + j < 8 * |x| && mask[j] == TestBit(x, i + j)
  {
    mask := Load(x[i / 8..i / 8 + 2]);
    assert i + 16 <= 8 * |x|;
    MaskBits(x, i, mask);
  }

  lemma MaskBits(x: seq<byte>, i: nat, mask: seq<bool>)
    requires i % 16 == 0 && i / 8 + 2 <= |x| && i + 16 <= 8 * |x| && mask == Load(x[i / 8..i / 8 + 2])
    ensures forall j :: 0 <= j < 16 ==> mask[j] == TestBit(x, i + j)
  {
    forall j | 0 <= j < 16 ensures mask[j] == TestBit(x, i + j) {
      MaskBit(x, i, 2, j);
    }
  }

  lemma FullMask(q: seq<real>, x: seq<byte>, d: nat, i: nat, mask: seq<bool>)
    requires Covers(q, x, d) && i + 16 <= d && |mask| == 16
    requires forall j :: 0 <= j < 16 ==> mask[j] == TestBit(x, i + j)
    ensures MaskzLoad(q, i, mask) == Terms(q, x, d)[i..i + 16]
  {
    var r, want := MaskzLoad(q, i, mask), Terms(q, x, d)[i..i + 16];
    forall j | 0 <= j < 16 ensures r[j] == want[j] {
    }
  }

  lemma TailBit(q: seq<real>, x: seq<byte>, d: nat, i: nat, mask: seq<bool>, j: nat)
    requires Covers(q, x, d) && i == (d / 16) * 16 && i != d && j < 16
    requires mask == if d - i > 8 then Load(x[i / 8..i / 8 + 2]) else ZeroExtend(Load(x[i / 8..i / 8 + 1]))
    ensures And(mask, LengthMask(d - i))[j] == (j < d - i && TestBit(x, i + j))
  {
    if j < d - i {
      MaskBit(x, i, if d - i > 8 then 2 else 1, j);
    }
  }

  lemma TailLanes(q: seq<real>, x: seq<byte>, d: nat, i: nat, m: seq<bool>)
    requires Covers(q, x, d) && i <= d < i + 16 && |m| == 16
    requires forall j :: 0 <= j < 16 ==> m[j] == (j < d - i && TestBit(x, i + j))
    ensures MaskzLoad(q, i, m) == Terms(q, x, d)[i..] + Zeros(16 - (d - i))
  {
    var r, want := MaskzLoad(q, i, m), Terms(q, x, d)[i..] + Zeros(16 - (d - i));
    assert |want| == 16;
    forall j | 0 <= j < 16 ensures r[j] == want[j] {
    }
  }

  /** The tail mask, whether it came from one byte or from two. */
  lemma TailMask(q: seq<real>, x: seq<byte>, d: nat, i: nat, mask: seq<bool>)
    requires Covers(q, x, d) && i == (d / 16) * 16 && i != d
    requires mask == if d - i > 8 then Load(x[i / 8..i / 8 + 2]) else ZeroExtend(Load(x[i / 8..i / 8 + 1]))
    ensures
      var m := And(mask, LengthMask(d - i));
      && (forall j :: 0 <= j < 16 && m[j] ==> i + j < |q|)
      && MaskzLoad(q, i, m) == Terms(q, x, d)[i..] + Zeros(16 - (d - i))
  {
    var m := And(mask, LengthMask(d - i));
    forall j | 0 <= j < 16 ensures m[j] == (j < d - i && TestBit(x, i + j)) {
      TailBit(q, x, d, i, mask, j);
    }
    TailLanes(q, x, d, i, m);
  }

  method LoadMaskz(q: seq<real>, x: seq<byte>, d: nat, i: nat) returns (r: seq<real>)
    requires Covers(q, x, d) && i % 16 == 0 && i + 16 <= d
    ensures |r| == 16 && Fold(Plus, r) == Prefix(q, x, d, i + 16) - Prefix(q, x, d, i)
  {
    var mask := ReadMask(x, i);
    FullMask(q, x, d, i, mask);
    FoldExtend(Plus, Terms(q, x, d), i, 16);
    r := MaskzLoad(q, i, mask);
  }

  method AddMaskz(q: seq<real>, x: seq<byte>, d: nat, i: nat, acc: seq<real>) returns (r: seq<real>)
    requires Covers(q, x, d) && i % 16 == 0 && i + 16 <= d && |acc| == 16
    ensures |r| == 16 && Fold(Plus, r) == Fold(Plus, acc) + Prefix(q, x, d, i + 16) - Prefix(q, x, d, i)
  {
    var lanes := LoadMaskz(q, x, d, i);
    r := AddRegisters(acc, lanes);
  }

  /** Reads one byte or two, whichever holds the leftover bits. */
  method LoadMaskzTail(q: seq<real>, x: seq<byte>, d: nat, i: nat) returns (lanes: seq<real>)
    requires Covers(q, x, d) && i == (d / 16) * 16 && i != d
    ensures i <= d < i + 16 && lanes == Terms(q, x, d)[i..] + Zeros(16 - (d - i))
  {
    var leftovers := d - i;
    var mask := if leftovers > 8 then Load(x[i / 8..i / 8 + 2]) else ZeroExtend(Load(x[i / 8..i / 8 + 1]));
    TailMask(q, x, d, i, mask);
    lanes := MaskzLoad(q, i, And(mask, LengthMask(leftovers)));
  }

  method AddMaskzTail(q: seq<real>, x: seq<byte>, d: nat, i: nat, acc: seq<real>) returns (r: seq<real>)
    requires Covers(q, x, d) && i == (d / 16) * 16 && i != d && |acc| == 16
    ensures |r| == 16 && Fold(Plus, r) == Fold(Plus, acc) + Prefix(q, x, d, d) - Prefix(q, x, d, i)
  {
    var lanes := LoadMaskzTail(q, x, d, i);
    PaddedSum(Terms(q, x, d), i, lanes);
    r := AddRegisters(acc, lanes);
  }

  /** fvec_masked_sum_avx512 */
  method MaskedSumAvx512(q: seq<real>, x: seq<byte>, d: nat) returns (sum: real)
    requires Covers(q, x, d)
    ensures sum == Fold(Plus, Terms(q, x, d))
  {
    var acc := Zeros(16);
    FoldZeros(Plus, 16);
    var d16 := (d / 16) * 16;
    RoundDown(d, 16);
    var i: nat := 0;
    while i < d16
      invariant i <= d16 && i % 16 == 0 && |acc| == 16 && Fold(Plus, acc) == Prefix(q, x, d, i)
    {
      AlignedStep(i, 16, d16);
      acc := AddMaskz(q, x, d, i, acc);
      i := i + 16;
    }
    if d != d16 {
      acc := AddMaskzTail(q, x, d, d16, acc);
    }
    assert Terms(q, x, d)[..d] == Terms(q, x, d);
    sum := Fold(Plus, acc);
  }
}
