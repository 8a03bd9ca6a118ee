/** Fixed-width integers: lane types, and 32-bit arithmetic modulo 2^32. */
module Int32 {
  import opened IntSums

  type int8 = x: int | -0x80 <= x < 0x80
  type int16 = x: int | -0x8000 <= x < 0x8000
  type int32 = x: int | -0x8000_0000 <= x < 0x8000_0000

  const TWO_TO_32 := 0x1_0000_0000

  function Wrap32(n: int): int32 {
    (n + 0x8000_0000) % TWO_TO_32 - 0x8000_0000
  }

  ghost predicate Congruent(a: int, b: int) {
    exists k: int :: a == Shifted(b, k)
  }

  ghost function Shifted(b: int, k: int): int {
    b + TWO_TO_32 * k
  }

  lemma CongruentBy(a: int, b: int, k: int)
    requires a == b + TWO_TO_32 * k
    ensures Congruent(a, b)
  {
    assert a == Shifted(b, k);
  }

  lemma CongruentAdd(a: int, a': int, b: int, b': int)
    requires Congruent(a, a') && Congruent(b, b')
    ensures Congruent(a + b, a' + b')
  {
    var k :| a == Shifted(a', k);
    var l :| b == Shifted(b', l);
    CongruentBy(a + b, a' + b', k + l);
  }

  lemma CongruentTrans(a: int, b: int, c: int)
    requires Congruent(a, b) && Congruent(b, c)
    ensures Congruent(a, c)
  {
    var k :| a == Shifted(b, k);
    var l :| b == Shifted(c, l);
    CongruentBy(a, c, k + l);
  }

  lemma CongruentScale(a: int, b: int, f: int)
    requires Congruent(a, b)
    ensures Congruent(a * f, b * f)
  {
    var k :| a == Shifted(b, k);
    assert a * f == b * f + TWO_TO_32 * (k * f);
    CongruentBy(a * f, b * f, k * f);
  }

  lemma CongruentRefl(a: int)
    ensures Congruent(a, a)
  {
    CongruentBy(a, a, 0);
  }

  lemma ModCongruent(a: int)
    ensures Congruent(a % TWO_TO_32, a)
    ensures Congruent(Wrap32(a), a)
  {
    CongruentBy(a % TWO_TO_32, a, -(a / TWO_TO_32));
    CongruentBy(Wrap32(a), a, -((a + 0x8000_0000) / TWO_TO_32));
  }

  /** The signed 32-bit value is determined by the residue class. */
  lemma WrapOfCongruent(a: int, b: int)
    requires Congruent(a, b)
    ensures Wrap32(a) == Wrap32(b)
  {
    var k :| a == Shifted(b, k);
  }

  lemma InRangeCongruent(a: int32, b: int)
    requires Congruent(a, b)
    ensures a == Wrap32(b)
  {
    WrapOfCongruent(a, b);
  }

  /** Adding with wrap-around, tracked up to congruence. */
  lemma WrapAdd(acc: int, a: int, x: int, b: int)
    requires Congruent(acc, a) && Congruent(x, b)
    ensures Congruent(Wrap32(acc + x), a + b)
  {
    CongruentAdd(acc, a, x, b);
    ModCongruent(acc + x);
    CongruentTrans(Wrap32(acc + x), acc + x, a + b);
  }

  lemma WrapOfSum(a: int, b: int)
    ensures Wrap32(Wrap32(a) + b) == Wrap32(a + b)
    ensures Wrap32(a + Wrap32(b)) == Wrap32(a + b)
  {
    ModCongruent(a);
    ModCongruent(b);
    CongruentRefl(a);
    CongruentRefl(b);
    CongruentAdd(Wrap32(a), a, b, b);
    CongruentAdd(a, a, Wrap32(b), b);
    WrapOfCongruent(Wrap32(a) + b, a + b);
    WrapOfCongruent(a + Wrap32(b), a + b);
  }

  /** _mm*_add_epi32 */
  function AddLanes(a: seq<int>, b: seq<int>): (r: seq<int>)
    requires |a| == |b|
    ensures |r| == |a| && forall i :: 0 <= i < |a| ==> r[i] == (a[i] + b[i]) % TWO_TO_32
  {
    seq(|a|, i requires 0 <= i < |a| => (a[i] + b[i]) % TWO_TO_32)
  }

  lemma {:induction false} AddLanesSum(a: seq<int>, b: seq<int>)
    requires |a| == |b|
    ensures Congruent(Sum(AddLanes(a, b)), Sum(a) + Sum(b))
  {
    if |a| == 0 {
      CongruentRefl(0);
    } else {
      var n := |a| - 1;
      assert AddLanes(a, b)[..n] == AddLanes(a[..n], b[..n]);
      AddLanesSum(a[..n], b[..n]);
      ModCongruent(a[n] + b[n]);
      CongruentAdd(Sum(AddLanes(a[..n], b[..n])), Sum(a[..n]) + Sum(b[..n]), (a[n] + b[n]) % TWO_TO_32, a[n] + b[n]);
    }
  }
}
