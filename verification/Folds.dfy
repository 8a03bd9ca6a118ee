/** Left folds over exact reals.

    Every floating-point kernel of the repository accumulates either a sum or a
    maximum, starting from zero. `Fold` is that accumulation in source order; the
    lemmas are what re-association needs: a fold splits at any point, and folding
    two registers lane by lane is folding each of them.
 */
module Folds {

  function AbsDiff(a: real, b: real): (r: real)
    ensures a - b <= r && b - a <= r && (r == a - b || r == b - a)
  {
    if a < b then b - a else a - b
  }

  datatype Reduction = Plus | Max

  function Combine(red: Reduction, a: real, b: real): real {
    match red
    case Plus => a + b
    case Max => if a < b then b else a
  }

  lemma CombineAssoc(red: Reduction, a: real, b: real, c: real)
    ensures Combine(red, Combine(red, a, b), c) == Combine(red, a, Combine(red, b, c))
  {
  }

  lemma CombineInterchange(red: Reduction, a: real, b: real, c: real, d: real)
    ensures Combine(red, Combine(red, a, b), Combine(red, c, d)) == Combine(red, Combine(red, a, c), Combine(red, b, d))
  {
  }

  function Fold(red: Reduction, s: seq<real>): real {
    if |s| == 0 then 0.0 else Combine(red, Fold(red, s[..|s| - 1]), s[|s| - 1])
  }

  function Zeros(n: nat): (z: seq<real>)
    ensures |z| == n && forall i :: 0 <= i < n ==> z[i] == 0.0
  {
    seq(n, _ => 0.0)
  }

  function Lanewise(red: Reduction, a: seq<real>, b: seq<real>): (r: seq<real>)
    requires |a| == |b|
    ensures |r| == |a| && forall i :: 0 <= i < |a| ==> r[i] == Combine(red, a[i], b[i])
  {
    seq(|a|, i requires 0 <= i < |a| => Combine(red, a[i], b[i]))
  }

  lemma {:induction false} FoldNonNegative(red: Reduction, s: seq<real>)
    requires red == Max
    ensures Fold(red, s) >= 0.0
  {
    if |s| > 0 {
      FoldNonNegative(red, s[..|s| - 1]);
    }
  }

  lemma {:induction false} FoldConcat(red: Reduction, a: seq<real>, b: seq<real>)
    ensures Fold(red, a + b) == Combine(red, Fold(red, a), Fold(red, b))
  {
    if |b| == 0 {
      assert a + b == a;
      if red == Max {
        FoldNonNegative(red, a);
      }
    } else {
      var b' := b[..|b| - 1];
      assert (a + b)[..|a + b| - 1] == a + b';
      FoldConcat(red, a, b');
    }
  }

  lemma FoldSplit(red: Reduction, s: seq<real>, k: nat)
    requires k <= |s|
    ensures Fold(red, s) == Combine(red, Fold(red, s[..k]), Fold(red, s[k..]))
  {
    assert s[..k] + s[k..] == s;
    FoldConcat(red, s[..k], s[k..]);
  }

  lemma FoldExtend(red: Reduction, s: seq<real>, k: nat, w: nat)
    requires k + w <= |s|
    ensures Fold(red, s[..k + w]) == Combine(red, Fold(red, s[..k]), Fold(red, s[k..k + w]))
    ensures w == 1 ==> Fold(red, s[..k + w]) == Combine(red, Fold(red, s[..k]), s[k])
  {
    assert s[..k + w] == s[..k] + s[k..k + w];
    FoldConcat(red, s[..k], s[k..k + w]);
    if w == 1 {
      assert s[..k + 1][..k] == s[..k];
    }
  }

  lemma {:induction false} FoldZeros(red: Reduction, n: nat)
    ensures Fold(red, Zeros(n)) == 0.0
  {
    if n > 0 {
      assert Zeros(n)[..n - 1] == Zeros(n - 1);
      FoldZeros(red, n - 1);
    }
  }

  /** Accumulating one register into another lane by lane, then folding, is folding both. */
  lemma {:induction false} FoldLanewise(red: Reduction, a: seq<real>, b: seq<real>)
    requires |a| == |b|
    ensures Fold(red, Lanewise(red, a, b)) == Combine(red, Fold(red, a), Fold(red, b))
  {
    if |a| > 0 {
      var n := |a| - 1;
      assert Lanewise(red, a, b)[..n] == Lanewise(red, a[..n], b[..n]);
      FoldLanewise(red, a[..n], b[..n]);
    }
  }

  /** A maximum fold is at least every element and is attained by one of them or by the initial zero. */
  lemma {:induction false} FoldMaxIsBound(s: seq<real>)
    ensures forall i :: 0 <= i < |s| ==> s[i] <= Fold(Max, s)
    ensures Fold(Max, s) == 0.0 || Fold(Max, s) in s
  {
    if |s| > 0 {
      var s' := s[..|s| - 1];
      FoldMaxIsBound(s');
      forall i | 0 <= i < |s| ensures s[i] <= Fold(Max, s) {
        if i < |s'| {
          assert s'[i] == s[i];
        }
      }
    }
  }

  lemma FoldOfFour(t: seq<real>)
    requires |t| == 4
    ensures Fold(Plus, t) == t[0] + t[1] + t[2] + t[3]
  {
    FoldExtend(Plus, t, 0, 1);
    FoldExtend(Plus, t, 1, 1);
    FoldExtend(Plus, t, 2, 1);
    FoldExtend(Plus, t, 3, 1);
    assert t[..4] == t && t[..0] == [];
  }
}
