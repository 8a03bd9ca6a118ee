/** Division facts the chunked loops need; the solver does not find them on its own. */
module Arith {

  lemma DivModUnique(n: int, w: int, q: int, r: int)
    requires w > 0 && n == w * q + r && 0 <= r < w
    ensures n / w == q && n % w == r
  {
    var q', r' := n / w, n % w;
    assert n == w * q' + r';
    MulSpread(w, q - q');
    assert w * (q - q') == r' - r;
  }

  lemma MulSpread(w: int, k: int)
    requires w > 0
    ensures k >= 1 ==> w * k >= w
    ensures k <= -1 ==> w * k <= -w
  {
    if k >= 1 {
      assert w * (k - 1) >= 0;
    } else if k <= -1 {
      assert w * (k + 1) <= 0;
    }
  }

  lemma MulMono(a: int, b: int, c: int)
    requires a <= b && 0 <= c
    ensures a * c <= b * c
  {
    assert b * c - a * c == (b - a) * c;
  }

  lemma ModSubtract(n: int, w: int)
    requires w > 0
    ensures (n - w) % w == n % w && (n - w) / w == n / w - 1
  {
    assert n - w == w * (n / w - 1) + n % w;
    DivModUnique(n - w, w, n / w - 1, n % w);
  }

  lemma ModSmall(n: int, w: int)
    requires 0 <= n < w
    ensures n % w == n && n / w == 0
  {
    DivModUnique(n, w, 0, n);
  }

  /** `n` is a whole number of steps of `w`. */
  predicate Multiple(n: nat, w: nat)
    requires w > 0
  {
    n == 0 || (n >= w && Multiple(n - w, w))
  }

  lemma {:induction false} MultipleMod(n: nat, w: nat)
    requires w > 0
    ensures Multiple(n, w) <==> n % w == 0
  {
    if n < w {
      ModSmall(n, w);
    } else {
      ModSubtract(n, w);
      MultipleMod(n - w, w);
    }
  }

  lemma MultipleStep4(n: nat, w: nat)
    requires w > 0 && n >= 4 * w
    ensures Multiple(n, w) <==> Multiple(n - 4 * w, w)
  {
    assert Multiple(n, w) == Multiple(n - w, w);
    assert Multiple(n - w, w) == Multiple(n - 2 * w, w);
    assert Multiple(n - 2 * w, w) == Multiple(n - 3 * w, w);
  }

  /** Stepping by `w` keeps a cursor aligned and short of an aligned end. */
  lemma AlignedStep(i: nat, w: nat, end: nat)
    requires w > 0 && i % w == 0 && end % w == 0 && i < end
    ensures (i + w) % w == 0 && i + w <= end
  {
    ModSubtract(i + w, w);
    var a, b := i / w, end / w;
    assert i == w * a && end == w * b;
    MulSpread(w, b - a);
    assert w * (b - a) == end - i;
  }

  lemma RoundDown(d: nat, w: nat)
    requires w > 0
    ensures (d / w) * w <= d < (d / w) * w + w && (d / w) * w % w == 0
  {
    DivModUnique((d / w) * w, w, d / w, 0);
  }
}
