/** The strip-mined distance kernels of src/simd/distances_rvv.cc.

    Two loop shapes cover the float kernels. The fp32 kernels run a four-way
    unrolled main loop over full registers, merge the four accumulators, finish
    with a strip loop and reduce a whole register. The fp16/bf16 kernels run the
    strip loop alone and reduce only as many lanes as the first strip had. What
    differs inside a shape is the lane term (product, squared or absolute
    difference), the reduction (sum or maximum) and whether the accumulating
    instruction keeps its tail lanes: that last point decides which theorem holds.
 */
module RvvKernels {
  import opened Arith
  import opened Folds
  import opened Metrics
  import opened RvvMachine

  function Product(a: real, b: real): real { a * b }

  function SquaredDiff(a: real, b: real): real { (a - b) * (a - b) }

  function Terms(term: (real, real) -> real, x: seq<real>, y: seq<real>): (t: seq<real>)
    requires |x| == |y|
    ensures |t| == |x| && forall i :: 0 <= i < |x| ==> t[i] == term(x[i], y[i])
  {
    seq(|x|, i requires 0 <= i < |x| => term(x[i], y[i]))
  }

  /** The scalar loop every kernel has to reproduce. */
  method ScalarReference(red: Reduction, term: (real, real) -> real, x: seq<real>, y: seq<real>) returns (res: real)
    requires |x| == |y|
    ensures res == Fold(red, Terms(term, x, y))
  {
    var t := Terms(term, x, y);
    res := 0.0;
    for i := 0 to |x|
      invariant res == Fold(red, t[..i])
    {
      assert t[..i + 1][..i] == t[..i];
      res := Combine(red, res, term(x[i], y[i]));
    }
    assert t[..|x|] == t;
  }

  // ---------------------------------------------------------------------------
  // Four-way unrolled kernels
  // ---------------------------------------------------------------------------

  datatype Quad = Quad(a0: seq<real>, a1: seq<real>, a2: seq<real>, a3: seq<real>) {
    predicate Wide(w: nat) { |a0| == |a1| == |a2| == |a3| == w }

    function Merged(red: Reduction, ghost w: nat): (r: seq<real>)
      requires Wide(w)
      ensures |r| == w
    {
      Lanewise(red, Lanewise(red, a0, a1), Lanewise(red, a2, a3))
    }

    function Step(red: Reduction, w: nat, t: seq<real>): (q: Quad)
      requires Wide(w) && |t| >= 4 * w
      ensures q.Wide(w)
    {
      Quad(Lanewise(red, a0, t[..w]), Lanewise(red, a1, t[w..2 * w]),
           Lanewise(red, a2, t[2 * w..3 * w]), Lanewise(red, a3, t[3 * w..4 * w]))
    }
  }

  /** The merged accumulator after the main loop, and the terms it left over. */
  function MainLoop(red: Reduction, w: nat, q: Quad, t: seq<real>): (r: (seq<real>, seq<real>))
    requires w >= 1 && q.Wide(w)
    ensures |r.0| == w
    decreases |t|
  {
    if |t| >= 4 * w then MainLoop(red, w, q.Step(red, w, t), t[4 * w..]) else (q.Merged(red, w), t)
  }

  function Unrolled(m: Machine, p: KernelPolicy, red: Reduction, t: seq<real>): real
    requires Legal(m)
  {
    var z := Zeros(m.vlmax);
    var (acc, rest) := MainLoop(red, m.vlmax, Quad(z, z, z, z), t);
    Fold(red, Strips(m, p, red, acc, rest, 0))
  }

  lemma FourParts(t: seq<real>, w: nat)
    requires |t| >= 4 * w
    ensures t[..4 * w] == (t[..w] + t[w..2 * w]) + (t[2 * w..3 * w] + t[3 * w..4 * w])
  {
  }

  /** Accumulating four adjacent registers into four accumulators conserves the fold. */
  lemma QuadStep(red: Reduction, w: nat, q: Quad, t: seq<real>)
    requires q.Wide(w) && |t| >= 4 * w
    ensures Fold(red, q.Step(red, w, t).Merged(red, w))
         == Combine(red, Fold(red, q.Merged(red, w)), Fold(red, t[..4 * w]))
  {
    QuadParts(red, w, q, t[..w], t[w..2 * w], t[2 * w..3 * w], t[3 * w..4 * w]);
    FourParts(t, w);
  }

  lemma QuadParts(red: Reduction, w: nat, q: Quad, t0: seq<real>, t1: seq<real>, t2: seq<real>, t3: seq<real>)
    requires q.Wide(w) && |t0| == |t1| == |t2| == |t3| == w
    ensures Fold(red, Quad(Lanewise(red, q.a0, t0), Lanewise(red, q.a1, t1),
                           Lanewise(red, q.a2, t2), Lanewise(red, q.a3, t3)).Merged(red, w))
         == Combine(red, Fold(red, q.Merged(red, w)), Fold(red, (t0 + t1) + (t2 + t3)))
  {
    FoldLanewise(red, q.a0, t0);
    FoldLanewise(red, q.a1, t1);
    FoldLanewise(red, q.a2, t2);
    FoldLanewise(red, q.a3, t3);
    MergedFold(red, w, q);
    MergedFold(red, w, Quad(Lanewise(red, q.a0, t0), Lanewise(red, q.a1, t1),
                            Lanewise(red, q.a2, t2), Lanewise(red, q.a3, t3)));
    FoldFour(red, t0, t1, t2, t3);
    Shuffle(red, Fold(red, q.a0), Fold(red, q.a1), Fold(red, q.a2), Fold(red, q.a3),
            Fold(red, t0), Fold(red, t1), Fold(red, t2), Fold(red, t3));
  }

  lemma FoldFour(red: Reduction, a: seq<real>, b: seq<real>, c: seq<real>, d: seq<real>)
    ensures Fold(red, (a + b) + (c + d))
         == Combine(red, Combine(red, Fold(red, a), Fold(red, b)), Combine(red, Fold(red, c), Fold(red, d)))
  {
    FoldConcat(red, a + b, c + d);
    FoldConcat(red, a, b);
    FoldConcat(red, c, d);
  }

  lemma Shuffle(red: Reduction, a: real, b: real, c: real, d: real, s: real, t: real, u: real, v: real)
    ensures Combine(red, Combine(red, Combine(red, a, s), Combine(red, b, t)),
                    Combine(red, Combine(red, c, u), Combine(red, d, v)))
         == Combine(red, Combine(red, Combine(red, a, b), Combine(red, c, d)),
                    Combine(red, Combine(red, s, t), Combine(red, u, v)))
  {
    CombineInterchange(red, a, s, b, t);
    CombineInterchange(red, c, u, d, v);
    CombineInterchange(red, Combine(red, a, b), Combine(red, s, t), Combine(red, c, d), Combine(red, u, v));
  }

  lemma MergedFold(red: Reduction, w: nat, q: Quad)
    requires q.Wide(w)
    ensures Fold(red, q.Merged(red, w))
         == Combine(red, Combine(red, Fold(red, q.a0), Fold(red, q.a1)), Combine(red, Fold(red, q.a2), Fold(red, q.a3)))
  {
    FoldLanewise(red, q.a0, q.a1);
    FoldLanewise(red, q.a2, q.a3);
    FoldLanewise(red, Lanewise(red, q.a0, q.a1), Lanewise(red, q.a2, q.a3));
  }

  lemma {:induction false} MainLoopConserves(red: Reduction, w: nat, q: Quad, t: seq<real>)
    requires w >= 1 && q.Wide(w)
    ensures
      var (acc, rest) := MainLoop(red, w, q, t);
      && Combine(red, Fold(red, acc), Fold(red, rest)) == Combine(red, Fold(red, q.Merged(red, w)), Fold(red, t))
      && (Multiple(|rest|, w) <==> Multiple(|t|, w))
    decreases |t|
  {
    if |t| >= 4 * w {
      QuadStepConserves(red, w, q, t);
      MainLoopConserves(red, w, q.Step(red, w, t), t[4 * w..]);
      MultipleStep4(|t|, w);
    }
  }

  lemma QuadStepConserves(red: Reduction, w: nat, q: Quad, t: seq<real>)
    requires w >= 1 && q.Wide(w) && |t| >= 4 * w
    ensures q.Step(red, w, t).Wide(w)
    ensures Combine(red, Fold(red, q.Step(red, w, t).Merged(red, w)), Fold(red, t[4 * w..]))
         == Combine(red, Fold(red, q.Merged(red, w)), Fold(red, t))
  {
    QuadStep(red, w, q, t);
    FoldSplit(red, t, 4 * w);
    CombineAssoc(red, Fold(red, q.Merged(red, w)), Fold(red, t[..4 * w]), Fold(red, t[4 * w..]));
  }

  lemma MainLoopFromZero(red: Reduction, w: nat, t: seq<real>)
    requires w >= 1
    ensures
      var (acc, rest) := MainLoop(red, w, Quad(Zeros(w), Zeros(w), Zeros(w), Zeros(w)), t);
      && Combine(red, Fold(red, acc), Fold(red, rest)) == Fold(red, t)
      && (Multiple(|rest|, w) <==> Multiple(|t|, w))
  {
    var z := Quad(Zeros(w), Zeros(w), Zeros(w), Zeros(w));
    MainLoopConserves(red, w, z, t);
    MergedFold(red, w, z);
    FoldZeros(red, w);
    if red == Max {
      FoldNonNegative(red, t);
    }
  }

  /** Tail-undisturbed kernels (inner product, squared L2, squared norm) equal the scalar
      reference for every vector length, every legal strip split and every length. */
  lemma UnrolledKeepsTails(m: Machine, red: Reduction, t: seq<real>)
    requires Legal(m)
    ensures Unrolled(m, KeepsTails, red, t) == Fold(red, t)
  {
    MainLoopFromZero(red, m.vlmax, t);
    var z := Zeros(m.vlmax);
    var (acc, rest) := MainLoop(red, m.vlmax, Quad(z, z, z, z), t);
    StripsKeepTails(m, red, acc, rest, 0);
  }

  /** If some strip stops short of lane `w`, a suitable junk value there misses any target. */
  lemma SpikeBreaks(m: Machine, red: Reduction, acc: seq<real>, t: seq<real>, w: nat, target: real) returns (c: real)
    requires Legal(m) && |acc| == m.vlmax && w < m.vlmax
    requires |t| > 0 && !StripsReach(m, |t|, w + 1)
    ensures Fold(red, Strips(m, DropsTails(Spike(w, c)), red, acc, t, 0)[..w + 1]) != target
  {
    var base := Fold(red, Strips(m, DropsTails(Spike(w, 0.0)), red, acc, t, 0)[..w]);
    c := if red == Plus then target - base + 1.0 else (if target < 0.0 then 1.0 else target + 1.0);
    StripsSpike(m, red, acc, acc, t, 0, w, c);
    var s := Strips(m, DropsTails(Spike(w, c)), red, acc, t, 0)[..w + 1];
    assert s[..w] == Strips(m, DropsTails(Spike(w, c)), red, acc, t, 0)[..w];
    assert Fold(red, s) == Combine(red, base, c);
  }

  /** Tail-agnostic kernels (L1, Linf) are guaranteed to equal it exactly when VLMAX divides
      the dimension. */
  lemma UnrolledDropsTails(m: Machine, red: Reduction, t: seq<real>)
    requires Legal(m)
    ensures (forall junk :: Unrolled(m, DropsTails(junk), red, t) == Fold(red, t)) <==> |t| % m.vlmax == 0
  {
    MultipleMod(|t|, m.vlmax);
    if Multiple(|t|, m.vlmax) {
      forall junk ensures Unrolled(m, DropsTails(junk), red, t) == Fold(red, t) {
        UnrolledFullRegisters(m, DropsTails(junk), red, t);
      }
    } else {
      var c := UnrolledSpike(m, red, t);
    }
  }

  lemma UnrolledFullRegisters(m: Machine, p: KernelPolicy, red: Reduction, t: seq<real>)
    requires Legal(m) && Multiple(|t|, m.vlmax)
    ensures Unrolled(m, p, red, t) == Fold(red, t)
  {
    var w := m.vlmax;
    MainLoopFromZero(red, w, t);
    var (acc, rest) := MainLoop(red, w, Quad(Zeros(w), Zeros(w), Zeros(w), Zeros(w)), t);
    StripsFull(m, |rest|);
    StripsEvenWidth(m, p, red, acc, rest, 0, w);
    var s := Strips(m, p, red, acc, rest, 0);
    assert s[..w] == s && acc[..w] == acc;
  }

  lemma UnrolledSpike(m: Machine, red: Reduction, t: seq<real>) returns (c: real)
    requires Legal(m) && !Multiple(|t|, m.vlmax)
    ensures Unrolled(m, DropsTails(Spike(m.vlmax - 1, c)), red, t) != Fold(red, t)
  {
    var w := m.vlmax;
    MainLoopFromZero(red, w, t);
    var (acc, rest) := MainLoop(red, w, Quad(Zeros(w), Zeros(w), Zeros(w), Zeros(w)), t);
    StripsFull(m, |rest|);
    c := SpikeBreaks(m, red, acc, rest, w - 1, Fold(red, t));
    var s := Strips(m, DropsTails(Spike(w - 1, c)), red, acc, rest, 0);
    assert s[..w] == s;
  }

  /** Two loads and the lane operations of one strip; past `vl` the register holds junk. */
  method LaneTerms(term: (real, real) -> real, x: seq<real>, y: seq<real>, offset: nat, vl: nat, vlmax: nat,
                   scratch: nat -> real) returns (r: seq<real>)
    requires |x| == |y| && offset + vl <= |x| && vl <= vlmax
    ensures |r| == vlmax && r[..vl] == Terms(term, x, y)[offset..offset + vl]
  {
    var vx := Register(vlmax, x[offset..offset + vl], scratch);
    var vy := Register(vlmax, y[offset..offset + vl], scratch);
    r := Register(vlmax, Terms(term, vx[..vl], vy[..vl]), scratch);
  }

  /** One iteration of the four-way loop. */
  method UnrolledStep(vlmax: nat, policy: TailPolicy, red: Reduction, term: (real, real) -> real, scratch: nat -> real,
                      q: Quad, x: seq<real>, y: seq<real>, offset: nat) returns (next: Quad)
    requires |x| == |y| && q.Wide(vlmax) && offset + 4 * vlmax <= |x|
    ensures next == q.Step(red, vlmax, Terms(term, x, y)[offset..])
  {
    var t0 := LaneTerms(term, x, y, offset, vlmax, vlmax, scratch);
    var t1 := LaneTerms(term, x, y, offset + vlmax, vlmax, vlmax, scratch);
    var t2 := LaneTerms(term, x, y, offset + 2 * vlmax, vlmax, vlmax, scratch);
    var t3 := LaneTerms(term, x, y, offset + 3 * vlmax, vlmax, vlmax, scratch);
    next := Quad(Accumulate(red, q.a0, t0, policy), Accumulate(red, q.a1, t1, policy),
                 Accumulate(red, q.a2, t2, policy), Accumulate(red, q.a3, t3, policy));
    ghost var t := Terms(term, x, y);
    FourSlices(t, offset, vlmax);
    assert t0 == t0[..vlmax] && t1 == t1[..vlmax] && t2 == t2[..vlmax] && t3 == t3[..vlmax];
    StepByInstructions(red, vlmax, q, t[offset..], policy, t0, t1, t2, t3);
  }

  lemma FourSlices(t: seq<real>, o: nat, w: nat)
    requires o + 4 * w <= |t|
    ensures t[o..o + w] == t[o..][..w] && t[o + w..o + w + w] == t[o..][w..2 * w]
    ensures t[o + 2 * w..o + 2 * w + w] == t[o..][2 * w..3 * w] && t[o + 3 * w..o + 3 * w + w] == t[o..][3 * w..4 * w]
  {
  }

  /** The four-way loop over full registers, and the merge of its accumulators. */
  method MainPhase(vlmax: nat, policy: TailPolicy, red: Reduction, term: (real, real) -> real,
                   scratch: nat -> real, x: seq<real>, y: seq<real>) returns (acc: seq<real>, offset: nat)
    requires vlmax >= 1 && |x| == |y|
    ensures offset <= |x|
    ensures (acc, Terms(term, x, y)[offset..])
         == MainLoop(red, vlmax, Quad(Zeros(vlmax), Zeros(vlmax), Zeros(vlmax), Zeros(vlmax)), Terms(term, x, y))
  {
    ghost var t := Terms(term, x, y);
    var q := Quad(Zeros(vlmax), Zeros(vlmax), Zeros(vlmax), Zeros(vlmax));
    ghost var start := q;
    var d: nat;
    offset, d := 0, |x|;
    assert t[0..] == t;
    while d >= 4 * vlmax
      invariant offset + d == |x| && q.Wide(vlmax)
      invariant MainLoop(red, vlmax, q, t[offset..]) == MainLoop(red, vlmax, start, t)
    {
      q := UnrolledStep(vlmax, policy, red, term, scratch, q, x, y, offset);
      assert t[offset..][4 * vlmax..] == t[offset + 4 * vlmax..];
      offset, d := offset + 4 * vlmax, d - 4 * vlmax;
    }
    MergeByInstructions(red, vlmax, q, policy);
    acc := Accumulate(red, Accumulate(red, q.a0, q.a1, policy), Accumulate(red, q.a2, q.a3, policy), policy);
  }

  /** Where the strip loop ends up from one of its states. */
  ghost function Outcome(m: Machine, p: KernelPolicy, red: Reduction, t: seq<real>, acc: seq<real>, offset: nat, k: nat)
    : seq<real>
    requires Legal(m) && |acc| == m.vlmax && offset <= |t|
  {
    Strips(m, p, red, acc, t[offset..], k)
  }

  /** One strip of the strip loop. */
  lemma StripStep(m: Machine, p: KernelPolicy, red: Reduction, acc: seq<real>, t: seq<real>, offset: nat, k: nat,
                  vl: nat)
    requires Legal(m) && |acc| == m.vlmax && offset < |t| && vl == m.vsetvl(|t| - offset)
    ensures 1 <= vl <= m.vlmax && offset + vl <= |t|
    ensures Outcome(m, p, red, t, Accumulate(red, acc, t[offset..offset + vl], p.At(k)), offset + vl, k + 1)
         == Outcome(m, p, red, t, acc, offset, k)
  {
    StripBounds(m, |t| - offset);
    assert t[offset..][..vl] == t[offset..offset + vl];
    assert t[offset..][vl..] == t[offset + vl..];
  }

  /** One iteration of the strip loop. */
  method StripOnce(m: Machine, p: KernelPolicy, red: Reduction, term: (real, real) -> real, scratch: nat -> real,
                   acc0: seq<real>, x: seq<real>, y: seq<real>, offset: nat, k: nat, vl: nat) returns (acc: seq<real>)
    requires Legal(m) && |x| == |y| && |acc0| == m.vlmax && offset < |x| && vl == m.vsetvl(|x| - offset)
    ensures |acc| == m.vlmax && 1 <= vl && offset + vl <= |x|
    ensures Outcome(m, p, red, Terms(term, x, y), acc, offset + vl, k + 1)
         == Outcome(m, p, red, Terms(term, x, y), acc0, offset, k)
  {
    StripStep(m, p, red, acc0, Terms(term, x, y), offset, k, vl);
    var tv := LaneTerms(term, x, y, offset, vl, m.vlmax, scratch);
    acc := Accumulate(red, acc0, tv[..vl], p.At(k));
  }

  /** The strip loop over what is left from `offset` on. */
  method StripPhase(m: Machine, p: KernelPolicy, red: Reduction, term: (real, real) -> real, scratch: nat -> real,
                    acc0: seq<real>, x: seq<real>, y: seq<real>, offset0: nat) returns (acc: seq<real>)
    requires Legal(m) && |x| == |y| && offset0 <= |x| && |acc0| == m.vlmax
    ensures acc == Strips(m, p, red, acc0, Terms(term, x, y)[offset0..], 0)
  {
    ghost var t := Terms(term, x, y);
    acc := acc0;
    var offset: nat, d: nat, k: nat := offset0, |x| - offset0, 0;
    while d > 0
      invariant offset + d == |x| && |acc| == m.vlmax
      invariant Outcome(m, p, red, t, acc, offset, k) == Outcome(m, p, red, t, acc0, offset0, 0)
    {
      var vl := m.vsetvl(d);
      acc := StripOnce(m, p, red, term, scratch, acc, x, y, offset, k, vl);
      offset, d, k := offset + vl, d - vl, k + 1;
    }
    assert t[offset..] == [];
  }

  /** fvec_inner_product_rvv, fvec_L2sqr_rvv, fvec_L1_rvv, fvec_Linf_rvv, fvec_norm_L2sqr_rvv:
      one body, instantiated by lane term, reduction and tail policy. Tails of loaded and
      intermediate registers come from the arbitrary oracle `scratch`. */
  method UnrolledKernel(m: Machine, p: KernelPolicy, red: Reduction, term: (real, real) -> real,
                        scratch: nat -> real, x: seq<real>, y: seq<real>) returns (res: real)
    requires Legal(m) && |x| == |y|
    ensures res == Unrolled(m, p, red, Terms(term, x, y))
  {
    var acc, offset := MainPhase(m.vlmax, p.At(0), red, term, scratch, x, y);
    acc := StripPhase(m, p, red, term, scratch, acc, x, y, offset);
    res := Fold(red, acc);
  }

  lemma MergeByInstructions(red: Reduction, w: nat, q: Quad, policy: TailPolicy)
    requires q.Wide(w)
    ensures Accumulate(red, Accumulate(red, q.a0, q.a1, policy), Accumulate(red, q.a2, q.a3, policy), policy)
         == q.Merged(red, w)
  {
    FoldAccumulateFull(red, q.a0, q.a1, policy);
    FoldAccumulateFull(red, q.a2, q.a3, policy);
    FoldAccumulateFull(red, Lanewise(red, q.a0, q.a1), Lanewise(red, q.a2, q.a3), policy);
  }

  lemma StepByInstructions(red: Reduction, w: nat, q: Quad, t: seq<real>, policy: TailPolicy,
                           t0: seq<real>, t1: seq<real>, t2: seq<real>, t3: seq<real>)
    requires q.Wide(w) && |t| >= 4 * w
    requires t0 == t[..w] && t1 == t[w..2 * w] && t2 == t[2 * w..3 * w] && t3 == t[3 * w..4 * w]
    ensures Quad(Accumulate(red, q.a0, t0, policy), Accumulate(red, q.a1, t1, policy),
                 Accumulate(red, q.a2, t2, policy), Accumulate(red, q.a3, t3, policy)) == q.Step(red, w, t)
  {
    FoldAccumulateFull(red, q.a0, t0, policy);
    FoldAccumulateFull(red, q.a1, t1, policy);
    FoldAccumulateFull(red, q.a2, t2, policy);
    FoldAccumulateFull(red, q.a3, t3, policy);
  }

  lemma {:induction false} ProductsAddUp(x: seq<real>, y: seq<real>)
    requires |x| == |y|
    ensures Fold(Plus, Terms(Product, x, y)) == Dot(x, y)
  {
    if |x| > 0 {
      var n := |x| - 1;
      ProductsAddUp(x[..n], y[..n]);
      assert Terms(Product, x, y)[..n] == Terms(Product, x[..n], y[..n]);
    }
  }

  lemma {:induction false} SquaresAddUp(x: seq<real>, y: seq<real>)
    requires |x| == |y|
    ensures Fold(Plus, Terms(SquaredDiff, x, y)) == SquaredDistance(x, y)
  {
    if |x| > 0 {
      var n := |x| - 1;
      SquaresAddUp(x[..n], y[..n]);
      assert Terms(SquaredDiff, x, y)[..n] == Terms(SquaredDiff, x[..n], y[..n]);
    }
  }

  lemma {:induction false} DifferencesAddUp(x: seq<real>, y: seq<real>)
    requires |x| == |y|
    ensures Fold(Plus, Terms(AbsDiff, x, y)) == Manhattan(x, y)
  {
    if |x| > 0 {
      var n := |x| - 1;
      DifferencesAddUp(x[..n], y[..n]);
      assert Terms(AbsDiff, x, y)[..n] == Terms(AbsDiff, x[..n], y[..n]);
    }
  }

  lemma LargestDifference(x: seq<real>, y: seq<real>)
    requires |x| == |y|
    ensures IsChebyshev(x, y, Fold(Max, Terms(AbsDiff, x, y)))
  {
    var t := Terms(AbsDiff, x, y);
    var r := Fold(Max, t);
    FoldMaxIsBound(t);
    FoldNonNegative(Max, t);
    forall i | 0 <= i < |x| ensures -r <= x[i] - y[i] <= r {
      assert t[i] <= r;
    }
    if r != 0.0 {
      var i :| 0 <= i < |t| && t[i] == r;
      assert r == x[i] - y[i] || r == y[i] - x[i];
    }
  }

  method InnerProduct(m: Machine, scratch: nat -> real, x: seq<real>, y: seq<real>) returns (res: real)
    requires Legal(m) && |x| == |y|
    ensures res == Fold(Plus, Terms(Product, x, y)) == Dot(x, y)
  {
    ProductsAddUp(x, y);
    res := UnrolledKernel(m, KeepsTails, Plus, Product, scratch, x, y);
    UnrolledKeepsTails(m, Plus, Terms(Product, x, y));
  }

  method L2Sqr(m: Machine, scratch: nat -> real, x: seq<real>, y: seq<real>) returns (res: real)
    requires Legal(m) && |x| == |y|
    ensures res == Fold(Plus, Terms(SquaredDiff, x, y)) == SquaredDistance(x, y)
  {
    SquaresAddUp(x, y);
    res := UnrolledKernel(m, KeepsTails, Plus, SquaredDiff, scratch, x, y);
    UnrolledKeepsTails(m, Plus, Terms(SquaredDiff, x, y));
  }

  method NormL2Sqr(m: Machine, scratch: nat -> real, x: seq<real>) returns (res: real)
    requires Legal(m)
    ensures res == Fold(Plus, Terms(Product, x, x)) == Dot(x, x)
  {
    ProductsAddUp(x, x);
    res := UnrolledKernel(m, KeepsTails, Plus, Product, scratch, x, x);
    UnrolledKeepsTails(m, Plus, Terms(Product, x, x));
  }

  /** L1 accumulates with a policy-less add, so its guarantee needs full registers. */
  method L1(m: Machine, junk: (nat, nat) -> real, scratch: nat -> real, x: seq<real>, y: seq<real>) returns (res: real)
    requires Legal(m) && |x| == |y|
    ensures res == Unrolled(m, DropsTails(junk), Plus, Terms(AbsDiff, x, y))
    ensures |x| % m.vlmax == 0 ==> res == Fold(Plus, Terms(AbsDiff, x, y)) == Manhattan(x, y) == Manhattan(y, x)
    ensures |x| % m.vlmax == 0 ==> res >= 0.0 && (res == 0.0 <==> x == y)
    ensures |x| % m.vlmax == 0 ==> forall i :: 0 <= i < |x| ==> x[i] - y[i] <= res && y[i] - x[i] <= res
  {
    DifferencesAddUp(x, y);
    ManhattanLaws(x, y);
    res := UnrolledKernel(m, DropsTails(junk), Plus, AbsDiff, scratch, x, y);
    UnrolledDropsTails(m, Plus, Terms(AbsDiff, x, y));
  }

  method Linf(m: Machine, junk: (nat, nat) -> real, scratch: nat -> real, x: seq<real>, y: seq<real>)
    returns (res: real)
    requires Legal(m) && |x| == |y|
    ensures res == Unrolled(m, DropsTails(junk), Max, Terms(AbsDiff, x, y))
    ensures |x| % m.vlmax == 0 ==> res == Fold(Max, Terms(AbsDiff, x, y)) && IsChebyshev(x, y, res)
    ensures |x| % m.vlmax == 0 ==> forall i :: 0 <= i < |x| ==> -res <= x[i] - y[i] <= res
  {
    LargestDifference(x, y);
    res := UnrolledKernel(m, DropsTails(junk), Max, AbsDiff, scratch, x, y);
    UnrolledDropsTails(m, Max, Terms(AbsDiff, x, y));
  }

  // ---------------------------------------------------------------------------
  // fp16 / bf16 strip kernels
  // ---------------------------------------------------------------------------

  /** The strip loop alone, reduced over as many lanes as `vsetvl` grants for the whole
      length. A reduction of length zero writes nothing, so its result is `stale`. */
  function Stripped(m: Machine, p: KernelPolicy, t: seq<real>, stale: real): real
    requires Legal(m)
  {
    var vl := m.vsetvl(|t|);
    assert LegalVl(m.vlmax, |t|, vl);
    if vl == 0 then stale else Fold(Plus, Strips(m, p, Plus, Zeros(m.vlmax), t, 0)[..vl])
  }

  /** fp16_vec_inner_product_rvv, fp16_vec_L2sqr_rvv, fp16_vec_norm_L2sqr_rvv and the bf16 three. */
  method StripKernel(m: Machine, p: KernelPolicy, term: (real, real) -> real, scratch: nat -> real,
                     stale: real, x: seq<real>, y: seq<real>) returns (res: real)
    requires Legal(m) && |x| == |y|
    ensures res == Stripped(m, p, Terms(term, x, y), stale)
  {
    var acc := Zeros(m.vlmax);
    acc := StripPhase(m, p, Plus, term, scratch, acc, x, y, 0);
    assert Terms(term, x, y)[0..] == Terms(term, x, y);
    var reduce := m.vsetvl(|x|);
    assert LegalVl(m.vlmax, |x|, reduce);
    res := if reduce == 0 then stale else Fold(Plus, acc[..reduce]);
  }

  /** No strip is wider than the first: lanes past it stay at their initial value. */
  lemma {:induction false} StripsLeaveHighLanes(m: Machine, acc: seq<real>, t: seq<real>, k: nat, w: nat)
    requires Legal(m) && |acc| == m.vlmax && w <= m.vlmax
    requires m.vsetvl(|t|) <= w
    ensures Strips(m, KeepsTails, Plus, acc, t, k)[w..] == acc[w..]
    decreases |t|
  {
    if |t| > 0 {
      StripBounds(m, |t|);
      var vl := m.vsetvl(|t|);
      assert LegalVl(m.vlmax, |t|, vl) && LegalVl(m.vlmax, |t| - vl, m.vsetvl(|t| - vl));
      var next := Accumulate(Plus, acc, t[..vl], Undisturbed);
      assert next[w..] == acc[w..];
      StripsLeaveHighLanes(m, next, t[vl..], k + 1, w);
    }
  }

  lemma ZeroLanesDoNotCount(s: seq<real>, vl: nat)
    requires vl <= |s| && s[vl..] == Zeros(|s| - vl)
    ensures Fold(Plus, s[..vl]) == Fold(Plus, s)
  {
    FoldZeros(Plus, |s| - vl);
    FoldSplit(Plus, s, vl);
  }

  /** With tails kept, nothing reaches the lanes past the first strip. */
  lemma HighLanesStayZero(m: Machine, t: seq<real>)
    requires Legal(m) && |t| >= 1
    ensures
      var vl := m.vsetvl(|t|);
      1 <= vl <= m.vlmax && Strips(m, KeepsTails, Plus, Zeros(m.vlmax), t, 0)[vl..] == Zeros(m.vlmax - vl)
  {
    StripBounds(m, |t|);
    var vl, z := m.vsetvl(|t|), Zeros(m.vlmax);
    StripsLeaveHighLanes(m, z, t, 0, vl);
    ZerosDrop(m.vlmax, vl);
  }

  lemma ZerosDrop(n: nat, k: nat)
    requires k <= n
    ensures Zeros(n)[k..] == Zeros(n - k)
  {
  }

  /** If the accumulating instruction kept its tails, these kernels would be exact for every d >= 1. */
  lemma StrippedKeepsTails(m: Machine, t: seq<real>, stale: real)
    requires Legal(m) && |t| >= 1
    ensures Stripped(m, KeepsTails, t, stale) == Fold(Plus, t)
  {
    HighLanesStayZero(m, t);
    StripsKeepTails(m, Plus, Zeros(m.vlmax), t, 0);
    FoldZeros(Plus, m.vlmax);
    ZeroLanesDoNotCount(Strips(m, KeepsTails, Plus, Zeros(m.vlmax), t, 0), m.vsetvl(|t|));
  }

  /** A first strip that divides the dimension leaves every strip of its width. */
  lemma EvenStripsAreExact(m: Machine, t: seq<real>, junk: (nat, nat) -> real, stale: real)
    requires Legal(m) && |t| >= 1 && m.vsetvl(|t|) >= 1 && Multiple(|t|, m.vsetvl(|t|))
    ensures Stripped(m, DropsTails(junk), t, stale) == Fold(Plus, t)
  {
    StripsEven(m, |t|);
    var vl, z := m.vsetvl(|t|), Zeros(m.vlmax);
    StripsEvenWidth(m, DropsTails(junk), Plus, z, t, 0, vl);
    assert z[..vl] == Zeros(vl);
    FoldZeros(Plus, vl);
  }

  lemma NoStripIsStale(m: Machine, t: seq<real>)
    requires Legal(m) && |t| == 0
    ensures Stripped(m, DropsTails(Spike(0, 0.0)), t, 1.0) != Fold(Plus, t)
  {
    assert LegalVl(m.vlmax, 0, m.vsetvl(0));
  }

  lemma UnevenStripsBreak(m: Machine, t: seq<real>) returns (c: real)
    requires Legal(m) && |t| >= 1 && m.vsetvl(|t|) >= 1 && !Multiple(|t|, m.vsetvl(|t|))
    ensures Stripped(m, DropsTails(Spike(m.vsetvl(|t|) - 1, c)), t, 0.0) != Fold(Plus, t)
  {
    StripsEven(m, |t|);
    c := SpikeBreaks(m, Plus, Zeros(m.vlmax), t, m.vsetvl(|t|) - 1, Fold(Plus, t));
  }

  /** As written (tail-agnostic), they are guaranteed exactly when the first strip's width
      divides a non-zero dimension. */
  lemma StrippedDropsTails(m: Machine, t: seq<real>)
    requires Legal(m)
    ensures (forall junk, stale :: Stripped(m, DropsTails(junk), t, stale) == Fold(Plus, t))
       <==> |t| >= 1 && m.vsetvl(|t|) >= 1 && |t| % m.vsetvl(|t|) == 0
  {
    if |t| == 0 {
      NoStripIsStale(m, t);
    } else {
      StripBounds(m, |t|);
      MultipleMod(|t|, m.vsetvl(|t|));
      if Multiple(|t|, m.vsetvl(|t|)) {
        forall junk, stale ensures Stripped(m, DropsTails(junk), t, stale) == Fold(Plus, t) {
          EvenStripsAreExact(m, t, junk, stale);
        }
      } else {
        var c := UnevenStripsBreak(m, t);
      }
    }
  }

  ghost predicate GuaranteedOnAll(vlmax: nat, t: seq<real>) {
    forall m, junk, stale :: Legal(m) && m.vlmax == vlmax ==> Stripped(m, DropsTails(junk), t, stale) == Fold(Plus, t)
  }

  /** Over all machines with a given VLMAX: the dimension is non-zero and fits one register or
      fills a whole number of them. */
  lemma StrippedOnEveryMachine(vlmax: nat, t: seq<real>)
    requires vlmax >= 1
    ensures GuaranteedOnAll(vlmax, t) <==> |t| >= 1 && (|t| <= vlmax || |t| % vlmax == 0)
  {
    var greedy := Widest(vlmax);
    StrippedDropsTails(greedy, t);
    if |t| >= 1 && (|t| <= vlmax || |t| % vlmax == 0) {
      forall m, junk, stale | Legal(m) && m.vlmax == vlmax
        ensures Stripped(m, DropsTails(junk), t, stale) == Fold(Plus, t)
      {
        StrippedDropsTails(m, t);
        WidthDivides(m, |t|);
      }
    } else if |t| >= 1 {
      assert exists junk, stale :: Stripped(greedy, DropsTails(junk), t, stale) != Fold(Plus, t);
    } else {
      assert exists junk, stale :: Stripped(greedy, DropsTails(junk), t, stale) != Fold(Plus, t);
    }
  }

  ghost predicate GuaranteedOn(m: Machine, t: seq<real>)
    requires Legal(m)
  {
    forall junk, stale :: Stripped(m, DropsTails(junk), t, stale) == Fold(Plus, t)
  }

  /** What one machine guarantees depends on more than its VLMAX: between one and two registers
      the machine that evens out its strips is right on even dimensions and no others, and the
      machine that fills its registers on none. */
  lemma GuaranteeDependsOnStrips(vlmax: nat, t: seq<real>)
    requires 1 <= vlmax < |t| < 2 * vlmax
    ensures GuaranteedOn(Evening(vlmax), t) <==> |t| % 2 == 0
    ensures !GuaranteedOn(Widest(vlmax), t)
  {
    StrippedDropsTails(Evening(vlmax), t);
    StrippedDropsTails(Widest(vlmax), t);
    HalfDivides(|t|);
    DivModUnique(|t|, vlmax, 1, |t| - vlmax);
  }

  lemma HalfDivides(n: nat)
    requires n >= 2
    ensures n % ((n + 1) / 2) == 0 <==> n % 2 == 0
  {
    var half := (n + 1) / 2;
    if n % 2 == 0 {
      DivModUnique(n, half, 2, 0);
    } else {
      DivModUnique(n, half, 1, half - 1);
    }
  }

  lemma WidthDivides(m: Machine, n: nat)
    requires Legal(m) && n >= 1 && (n <= m.vlmax || n % m.vlmax == 0)
    ensures m.vsetvl(n) >= 1 && n % m.vsetvl(n) == 0
  {
    StripBounds(m, n);
    assert LegalVl(m.vlmax, n, m.vsetvl(n));
    if n <= m.vlmax {
      DivModUnique(n, n, 1, 0);
    } else {
      MultipleMod(n, m.vlmax);
    }
  }
}
