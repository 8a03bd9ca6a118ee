/** u32_/u64_jaccard_distance_avx512: the numerator of a MinHash Jaccard distance, meant to be
    the number of positions where two signatures agree. Full registers are compared and
    counted lane by lane while more than a register is left; the rest is loaded with zeroed
    lanes. `w` is the lane count: 16 for u32, 8 for u64.
 */
module Jaccard {
  import opened Arith
  import opened Int32
  import opened IntSums

  function Agreements(x: seq<nat>, y: seq<nat>): (m: seq<int>)
    requires |x| == |y|
    ensures |m| == |x| && forall i :: 0 <= i < |x| ==> m[i] == if x[i] == y[i] then 1 else 0
  {
    seq(|x|, i requires 0 <= i < |x| => if x[i] == y[i] then 1 else 0)
  }

  /** u32_jaccard_distance_ref / u64_jaccard_distance_ref before the division. */
  method ScalarReference(x: seq<nat>, y: seq<nat>) returns (count: nat)
    requires |x| == |y|
    ensures count == Sum(Agreements(x, y))
  {
    ghost var m := Agreements(x, y);
    count := 0;
    for i := 0 to |x|
      invariant count == Sum(m[..i])
    {
      assert m[..i + 1][..i] == m[..i];
      count := count + (if x[i] == y[i] then 1 else 0);
    }
    assert m[..|x|] == m;
  }

  /** _mm512_maskz_loadu: lanes past `have` read as zero. */
  function MaskzLoad(x: seq<nat>, at: nat, have: nat, w: nat): (r: seq<nat>)
    requires at + have <= |x| && have <= w
    ensures |r| == w
  {
    x[at..at + have] + seq(w - have, _ => 0)
  }

  /** One compare-and-count step over `have` loaded lanes out of `w`: every lane that was not
      loaded compares equal and is counted. */
  method CountStep(x: seq<nat>, y: seq<nat>, at: nat, have: nat, w: nat, acc: seq<int>) returns (r: seq<int>)
    requires |x| == |y| && at + have <= |x| && have <= w && |acc| == w
    ensures |r| == w
    ensures Congruent(Sum(r), Sum(acc) + Sum(Agreements(x, y)[at..at + have]) + (w - have))
  {
    var ones := Agreements(MaskzLoad(x, at, have, w), MaskzLoad(y, at, have, w));
    ghost var m := Agreements(x, y)[at..at + have];
    assert ones[..have] == m;
    SumSplit(ones, have);
    SumConstant(ones[have..], 1);
    AddLanesSum(acc, ones);
    r := AddLanes(acc, ones);
  }

  /** What the vector loop returns beyond the true count, by signature length. */
  function Excess(n: nat, w: nat): nat
    requires w > 0
  {
    if n % w == 0 then 0 else w - n % w
  }

  /** One register more, `have` lanes of it in use. */
  method Register(x: seq<nat>, y: seq<nat>, at: nat, have: nat, w: nat, acc: seq<int>) returns (r: seq<int>)
    requires |x| == |y| && at + have <= |x| && have <= w && |acc| == w
    requires Congruent(Sum(acc), Sum(Agreements(x, y)[..at]))
    ensures |r| == w && Congruent(Sum(r), Sum(Agreements(x, y)[..at + have]) + (w - have))
  {
    r := CountStep(x, y, at, have, w, acc);
    Accumulated(Agreements(x, y), at, at + have, Sum(acc), Sum(r), w - have);
  }

  /** The loop over full registers; it leaves between one lane and a register full, or nothing. */
  method FullRegisters(x: seq<nat>, y: seq<nat>, w: nat) returns (acc: seq<int>, at: nat, count: nat)
    requires |x| == |y| && w > 0
    ensures at + count == |x| && count <= w && |acc| == w && (|x| > 0 ==> count > 0) && count % w == |x| % w
    ensures Congruent(Sum(acc), Sum(Agreements(x, y)[..at]))
  {
    acc := seq(w, _ => 0);
    SumConstant(acc, 0);
    CongruentRefl(0);
    at, count := 0, |x|;
    while count - w > 0
      invariant at + count == |x| && |acc| == w && (|x| > 0 ==> count > 0) && count % w == |x| % w
      invariant Congruent(Sum(acc), Sum(Agreements(x, y)[..at]))
    {
      acc := Register(x, y, at, w, w, acc);
      ModSubtract(count, w);
      at, count := at + w, count - w;
    }
  }

  /** The AVX-512 numerator, modulo 2^32: the true count plus one for every lane of the last
      register that the signature does not fill. */
  method Numerator(x: seq<nat>, y: seq<nat>, w: nat) returns (sum: nat)
    requires |x| == |y| && w > 0
    ensures sum == (Sum(Agreements(x, y)) + Excess(|x|, w)) % TWO_TO_32
  {
    ghost var m := Agreements(x, y);
    var acc, at, count := FullRegisters(x, y, w);
    if count > 0 {
      acc := Register(x, y, at, count, w, acc);
      LastRegister(count, w);
    }
    assert m[..|x|] == m;
    sum := Sum(acc) % TWO_TO_32;
    SameResidue(Sum(acc), Sum(m) + Excess(|x|, w));
  }

  lemma LastRegister(count: nat, w: nat)
    requires 0 < count <= w
    ensures (if count % w == 0 then 0 else w - count % w) == w - count
  {
    if count < w {
      ModSmall(count, w);
    } else {
      DivModUnique(count, w, 1, 0);
    }
  }

  lemma Accumulated(m: seq<int>, at: nat, end: nat, before: int, after: int, extra: int)
    requires at <= end <= |m| && Congruent(before, Sum(m[..at]))
    requires Congruent(after, before + Sum(m[at..end]) + extra)
    ensures Congruent(after, Sum(m[..end]) + extra)
  {
    assert m[..end] == m[..at] + m[at..end];
    SumConcat(m[..at], m[at..end]);
    var more := Sum(m[at..end]) + extra;
    CongruentRefl(more);
    CongruentAdd(before, Sum(m[..at]), more, more);
    CongruentTrans(after, before + more, Sum(m[..at]) + more);
  }

  lemma SameResidue(a: int, b: int)
    requires Congruent(a, b)
    ensures a % TWO_TO_32 == b % TWO_TO_32
  {
    var k :| a == Shifted(b, k);
  }

  /** So the vector numerator is the true count exactly when the lane count divides the length
      and the count fits its 32-bit counter. */
  lemma AgreesWithReference(x: seq<nat>, y: seq<nat>, w: nat)
    requires |x| == |y| && 0 < w <= TWO_TO_32
    ensures (Sum(Agreements(x, y)) + Excess(|x|, w)) % TWO_TO_32 == Sum(Agreements(x, y))
       <==> |x| % w == 0 && Sum(Agreements(x, y)) < TWO_TO_32
  {
    SumBounds(Agreements(x, y), 0, 1);
    WrapIsNeutral(Sum(Agreements(x, y)), Excess(|x|, w));
  }

  lemma WrapIsNeutral(sum: nat, excess: nat)
    requires excess < TWO_TO_32
    ensures (sum + excess) % TWO_TO_32 == sum <==> excess == 0 && sum < TWO_TO_32
  {
  }
}
