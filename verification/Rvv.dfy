/** A RISC-V vector machine, as much of it as the strip-mined kernels depend on.

    Section 6.3 of the RISC-V "V" Vector Extension specification 1.0 leaves the
    implementation a choice of vector length when the requested length lies
    strictly between VLMAX and 2*VLMAX. Section 3.4.3 lets a tail-agnostic
    operation either keep what its destination register held past that length or
    set those lanes to all ones. The intrinsics without a policy suffix name no
    pass-through operand, so which register is the destination, and what it held,
    is the compiler's choice; a multiply-add may even be carried out in the
    register of a multiplicand. Both freedoms are parameters here: `vsetvl` is any
    legal answer function, and agnostic tails are read from an arbitrary oracle.
 */
module RvvMachine {
  import opened Arith
  import opened Folds

  datatype Machine = Machine(vlmax: nat, vsetvl: nat -> nat)

  predicate LegalVl(vlmax: nat, avl: nat, vl: nat) {
    && (avl <= vlmax ==> vl == avl)
    && (vlmax < avl < 2 * vlmax ==> (avl + 1) / 2 <= vl <= vlmax)
    && (2 * vlmax <= avl ==> vl == vlmax)
  }

  ghost predicate Legal(m: Machine) {
    m.vlmax >= 1 && forall avl: nat :: LegalVl(m.vlmax, avl, m.vsetvl(avl))
  }

  /** The machine that always takes as much as fits. */
  function Widest(vlmax: nat): (m: Machine)
    requires vlmax >= 1
    ensures Legal(m) && m.vlmax == vlmax
  {
    Machine(vlmax, (avl: nat) => if avl <= vlmax then avl else vlmax)
  }

  /** The machine that splits the last stretch of fewer than two registers evenly. */
  function Evening(vlmax: nat): (m: Machine)
    requires vlmax >= 1
    ensures Legal(m) && m.vlmax == vlmax
    ensures forall avl: nat :: vlmax < avl < 2 * vlmax ==> m.vsetvl(avl) == (avl + 1) / 2 < avl
  {
    Machine(vlmax, (avl: nat) => if avl <= vlmax then avl else if avl < 2 * vlmax then (avl + 1) / 2 else vlmax)
  }

  /** What one instruction does to the lanes past its vector length. */
  datatype TailPolicy = Undisturbed | Agnostic(tail: nat -> real)

  /** The policy of a kernel's accumulating instruction: strip `k` of an agnostic
      kernel leaves `junk(k, i)` in tail lane `i`. */
  datatype KernelPolicy = KeepsTails | DropsTails(junk: (nat, nat) -> real) {
    function At(k: nat): TailPolicy {
      match this
      case KeepsTails => Undisturbed
      case DropsTails(junk) => Agnostic((i: nat) => junk(k, i))
    }
  }

  /** A full register whose first lanes are `body` and whose tail is arbitrary. */
  function Register(vlmax: nat, body: seq<real>, tail: nat -> real): (r: seq<real>)
    requires |body| <= vlmax
    ensures |r| == vlmax && r[..|body|] == body
  {
    body + seq(vlmax - |body|, i requires i >= 0 => tail(|body| + i))
  }

  /** One accumulating instruction (`vfmacc`, `vfadd`, `vfmax`) of length |body|. */
  function Accumulate(red: Reduction, acc: seq<real>, body: seq<real>, policy: TailPolicy): (r: seq<real>)
    requires |body| <= |acc|
    ensures |r| == |acc|
  {
    seq(|acc|, i requires 0 <= i < |acc| =>
      if i < |body| then Combine(red, acc[i], body[i])
      else if policy.Undisturbed? then acc[i] else policy.tail(i))
  }

  /** The strip-mining loop `while (d > 0) { vl = vsetvl(d); ... }`. */
  function Strips(m: Machine, p: KernelPolicy, red: Reduction, acc: seq<real>, t: seq<real>, k: nat): (r: seq<real>)
    requires Legal(m) && |acc| == m.vlmax
    ensures |r| == m.vlmax
    decreases |t|
  {
    if |t| == 0 then acc
    else
      var vl := m.vsetvl(|t|);
      assert LegalVl(m.vlmax, |t|, vl);
      Strips(m, p, red, Accumulate(red, acc, t[..vl], p.At(k)), t[vl..], k + 1)
  }

  /** The next strip is never empty, never longer than a register and never longer than what is left. */
  lemma StripBounds(m: Machine, avl: nat)
    requires Legal(m) && avl >= 1
    ensures 1 <= m.vsetvl(avl) <= m.vlmax && m.vsetvl(avl) <= avl
  {
    assert LegalVl(m.vlmax, avl, m.vsetvl(avl));
  }

  lemma FoldAccumulateKeeps(red: Reduction, acc: seq<real>, body: seq<real>)
    requires |body| <= |acc|
    ensures Fold(red, Accumulate(red, acc, body, Undisturbed)) == Combine(red, Fold(red, acc), Fold(red, body))
  {
    var n := |body|;
    var r := Accumulate(red, acc, body, Undisturbed);
    AccumulateParts(red, acc, body);
    FoldLanewise(red, acc[..n], body);
    FoldSplit(red, r, n);
    FoldSplit(red, acc, n);
    CombineRotate(red, Fold(red, acc[..n]), Fold(red, acc[n..]), Fold(red, body));
  }

  lemma AccumulateParts(red: Reduction, acc: seq<real>, body: seq<real>)
    requires |body| <= |acc|
    ensures Accumulate(red, acc, body, Undisturbed)[..|body|] == Lanewise(red, acc[..|body|], body)
    ensures Accumulate(red, acc, body, Undisturbed)[|body|..] == acc[|body|..]
  {
  }

  lemma CombineRotate(red: Reduction, a: real, b: real, c: real)
    ensures Combine(red, Combine(red, a, c), b) == Combine(red, Combine(red, a, b), c)
  {
  }

  lemma FoldAccumulateFull(red: Reduction, acc: seq<real>, body: seq<real>, policy: TailPolicy)
    requires |body| == |acc|
    ensures Accumulate(red, acc, body, policy) == Lanewise(red, acc, body)
    ensures Fold(red, Accumulate(red, acc, body, policy)) == Combine(red, Fold(red, acc), Fold(red, body))
  {
    assert Accumulate(red, acc, body, policy) == Lanewise(red, acc, body);
    FoldLanewise(red, acc, body);
  }

  /** With tail-undisturbed accumulation no strip split loses or repeats a term. */
  lemma {:induction false} StripsKeepTails(m: Machine, red: Reduction, acc: seq<real>, t: seq<real>, k: nat)
    requires Legal(m) && |acc| == m.vlmax
    ensures Fold(red, Strips(m, KeepsTails, red, acc, t, k)) == Combine(red, Fold(red, acc), Fold(red, t))
    decreases |t|
  {
    if |t| == 0 {
      if red == Max {
        FoldNonNegative(red, acc);
      }
    } else {
      StripBounds(m, |t|);
      var vl := m.vsetvl(|t|);
      FoldAccumulateKeeps(red, acc, t[..vl]);
      FoldSplit(red, t, vl);
      StripsKeepTails(m, red, Accumulate(red, acc, t[..vl], Undisturbed), t[vl..], k + 1);
    }
  }

  /** Every strip of a run over `n` elements is exactly `w` wide. */
  predicate StripsExactly(m: Machine, n: nat, w: nat)
    requires Legal(m)
    decreases n
  {
    n == 0 || (StripBounds(m, n); m.vsetvl(n) == w && StripsExactly(m, n - w, w))
  }

  /** With tail-agnostic accumulation the same holds as long as every strip is `w` wide
      and only the first `w` lanes are reduced. */
  lemma {:induction false} StripsEvenWidth(m: Machine, p: KernelPolicy, red: Reduction, acc: seq<real>, t: seq<real>,
                                           k: nat, w: nat)
    requires Legal(m) && |acc| == m.vlmax
    requires w <= m.vlmax && StripsExactly(m, |t|, w)
    ensures Fold(red, Strips(m, p, red, acc, t, k)[..w]) == Combine(red, Fold(red, acc[..w]), Fold(red, t))
    decreases |t|
  {
    if |t| == 0 {
      if red == Max {
        FoldNonNegative(red, acc[..w]);
      }
    } else {
      StripBounds(m, |t|);
      var next := Accumulate(red, acc, t[..w], p.At(k));
      assert next[..w] == Lanewise(red, acc[..w], t[..w]);
      FoldLanewise(red, acc[..w], t[..w]);
      FoldSplit(red, t, w);
      StripsEvenWidth(m, p, red, next, t[w..], k + 1, w);
    }
  }

  /** Junk that is `c` in lane `w` and zero elsewhere. */
  function Spike(w: nat, c: real): (nat, nat) -> real {
    (k: nat, i: nat) => if i == w then c else 0.0
  }

  /** Once a strip stops short of lane `w`, that lane ends up holding junk, and no
      lower lane ever depends on it. */
  lemma {:induction false} StripsSpike(m: Machine, red: Reduction, acc: seq<real>, acc': seq<real>, t: seq<real>,
                                       k: nat, w: nat, c: real)
    requires Legal(m) && |acc| == |acc'| == m.vlmax && w < m.vlmax
    requires acc[..w] == acc'[..w]
    requires |t| == 0 ==> acc[w] == c && acc'[w] == 0.0
    requires |t| > 0 ==> !StripsReach(m, |t|, w + 1)
    ensures
      var s := Strips(m, DropsTails(Spike(w, c)), red, acc, t, k);
      var s' := Strips(m, DropsTails(Spike(w, 0.0)), red, acc', t, k);
      s[..w] == s'[..w] && s[w] == c && s'[w] == 0.0
    decreases |t|
  {
    if |t| > 0 {
      StripBounds(m, |t|);
      var vl := m.vsetvl(|t|);
      var next := Accumulate(red, acc, t[..vl], DropsTails(Spike(w, c)).At(k));
      var next' := Accumulate(red, acc', t[..vl], DropsTails(Spike(w, 0.0)).At(k));
      assert next[..w] == next'[..w] by {
        forall i | 0 <= i < w ensures next[i] == next'[i] {
          assert acc[i] == acc[..w][i] == acc'[..w][i] == acc'[i];
        }
      }
      LastStripShort(m, |t|, w + 1);
      StripsSpike(m, red, next, next', t[vl..], k + 1, w, c);
    }
  }

  /** Every strip of a run over `n` elements is at least `w` wide. */
  predicate StripsReach(m: Machine, n: nat, w: nat)
    requires Legal(m)
    decreases n
  {
    n == 0 || (StripBounds(m, n); m.vsetvl(n) >= w && StripsReach(m, n - m.vsetvl(n), w))
  }

  lemma LastStripShort(m: Machine, n: nat, w: nat)
    requires Legal(m) && n > 0 && w <= m.vlmax && !StripsReach(m, n, w)
    ensures m.vsetvl(n) <= n
    ensures if n == m.vsetvl(n) then n < w else !StripsReach(m, n - m.vsetvl(n), w)
  {
    StripBounds(m, n);
    var vl := m.vsetvl(n);
    assert LegalVl(m.vlmax, n, vl);
    if n > vl && vl < w {
      assert LegalVl(m.vlmax, n - vl, m.vsetvl(n - vl));
    }
  }

  /** Full registers all the way exactly when the length is a multiple of VLMAX. */
  lemma {:induction false} StripsFull(m: Machine, n: nat)
    requires Legal(m)
    ensures StripsExactly(m, n, m.vlmax) <==> Multiple(n, m.vlmax)
    ensures StripsReach(m, n, m.vlmax) <==> Multiple(n, m.vlmax)
  {
    if n > 0 {
      StripBounds(m, n);
      assert LegalVl(m.vlmax, n, m.vsetvl(n));
      if n >= m.vlmax {
        StripsFull(m, n - m.vlmax);
      }
    }
  }

  /** Strips keep the width of the first one exactly when the length is a multiple of that width. */
  lemma StripsEven(m: Machine, n: nat)
    requires Legal(m) && n >= 1
    ensures 1 <= m.vsetvl(n) <= m.vlmax
    ensures StripsExactly(m, n, m.vsetvl(n)) <==> Multiple(n, m.vsetvl(n))
    ensures StripsReach(m, n, m.vsetvl(n)) <==> Multiple(n, m.vsetvl(n))
  {
    StripBounds(m, n);
    var w := m.vsetvl(n);
    assert LegalVl(m.vlmax, n, w);
    if w == m.vlmax {
      StripsFull(m, n);
    } else if n > w {
      assert LegalVl(m.vlmax, n - w, m.vsetvl(n - w));
    }
  }
}
