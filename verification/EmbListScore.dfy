/** Embedding-list scores from a row-major nq x elLen table of distances.

    get_ordered_sum_max_sim is a dynamic program kept in one row and updated in place; what it
    computes is the best total over all ways to assign query rows to list positions without
    ever moving left. get_sum_max_sim drops the ordering. `larger` selects the maximising
    variant. Sums are exact.
 */
module EmbListScore {
  import opened Arith
  import opened Int32
  import opened Options

  const MAX_INT := 0x7FFF_FFFF

  /** Strictly better, in the direction the metric asks for. */
  predicate Beats(larger: bool, a: real, b: real) {
    if larger then a > b else a < b
  }

  /** std::max(a, b) or std::min(a, b). */
  function Pick(larger: bool, a: real, b: real): real {
    if Beats(larger, b, a) then b else a
  }

  predicate Holds(dists: seq<real>, nq: nat, elLen: nat) {
    nq * elLen <= |dists|
  }

  lemma CellInRange(dists: seq<real>, nq: nat, elLen: nat, i: nat, j: nat)
    requires Holds(dists, nq, elLen) && i < nq && j < elLen
    ensures 0 <= i * elLen + j < |dists| && i * elLen + elLen <= |dists|
  {
    MulMono(i + 1, nq, elLen);
    MulMono(0, i, elLen);
  }

  function Cell(dists: seq<real>, nq: nat, elLen: nat, i: nat, j: nat): real
    requires Holds(dists, nq, elLen) && i < nq && j < elLen
  {
    CellInRange(dists, nq, elLen, i, j);
    dists[i * elLen + j]
  }

  // ---------------------------------------------------------------------------
  // Assignments
  // ---------------------------------------------------------------------------

  /** Positions for the first |f| query rows. */
  ghost predicate Assigns(f: seq<nat>, last: nat) {
    forall a :: 0 <= a < |f| ==> f[a] <= last
  }

  ghost predicate NeverLeft(f: seq<nat>) {
    forall a, b :: 0 <= a <= b < |f| ==> f[a] <= f[b]
  }

  ghost function Total(dists: seq<real>, nq: nat, elLen: nat, f: seq<nat>): real
    requires Holds(dists, nq, elLen) && |f| <= nq && forall a :: 0 <= a < |f| ==> f[a] < elLen
  {
    if |f| == 0 then 0.0
    else Total(dists, nq, elLen, f[..|f| - 1]) + Cell(dists, nq, elLen, |f| - 1, f[|f| - 1])
  }

  /** `v` is attained by an order-preserving assignment of `i` rows to positions up to `j`, and
      no such assignment beats it. */
  ghost predicate IsOptimum(dists: seq<real>, nq: nat, elLen: nat, larger: bool, i: nat, j: nat, v: real)
    requires Holds(dists, nq, elLen) && i <= nq && j < elLen
  {
    && (exists f: seq<nat> :: |f| == i && NeverLeft(f) && Assigns(f, j) && Total(dists, nq, elLen, f) == v)
    && (forall f: seq<nat> :: |f| == i && NeverLeft(f) && Assigns(f, j) ==>
        if larger then Total(dists, nq, elLen, f) <= v else v <= Total(dists, nq, elLen, f))
  }

  // ---------------------------------------------------------------------------
  // Ordered score
  // ---------------------------------------------------------------------------

  /** The value in scores[j] after `i` rows. */
  ghost function Best(dists: seq<real>, nq: nat, elLen: nat, larger: bool, i: nat, j: nat): real
    requires Holds(dists, nq, elLen) && i <= nq && j < elLen
    decreases i, j
  {
    if i == 0 then 0.0
    else
      var here := Best(dists, nq, elLen, larger, i - 1, j) + Cell(dists, nq, elLen, i - 1, j);
      if j == 0 then here else Pick(larger, Best(dists, nq, elLen, larger, i, j - 1), here)
  }

  lemma {:induction false} BestAttained(dists: seq<real>, nq: nat, elLen: nat, larger: bool, i: nat, j: nat)
    returns (f: seq<nat>)
    requires Holds(dists, nq, elLen) && i <= nq && j < elLen
    ensures |f| == i && NeverLeft(f) && Assigns(f, j)
    ensures Total(dists, nq, elLen, f) == Best(dists, nq, elLen, larger, i, j)
    decreases i, j
  {
    if i == 0 {
      f := [];
    } else {
      var here := Best(dists, nq, elLen, larger, i - 1, j) + Cell(dists, nq, elLen, i - 1, j);
      if j > 0 && Best(dists, nq, elLen, larger, i, j) != here {
        f := BestAttained(dists, nq, elLen, larger, i, j - 1);
      } else {
        var g := BestAttained(dists, nq, elLen, larger, i - 1, j);
        PlaceLast(dists, nq, elLen, g, j);
        f := g + [j];
      }
    }
  }

  lemma PlaceLast(dists: seq<real>, nq: nat, elLen: nat, g: seq<nat>, j: nat)
    requires Holds(dists, nq, elLen) && |g| < nq && j < elLen && NeverLeft(g) && Assigns(g, j)
    ensures NeverLeft(g + [j]) && Assigns(g + [j], j)
    ensures Total(dists, nq, elLen, g + [j]) == Total(dists, nq, elLen, g) + Cell(dists, nq, elLen, |g|, j)
  {
    assert (g + [j])[..|g|] == g;
  }

  lemma {:induction false} BestOptimal(dists: seq<real>, nq: nat, elLen: nat, larger: bool, i: nat, j: nat, f: seq<nat>)
    requires Holds(dists, nq, elLen) && i <= nq && j < elLen
    requires |f| == i && NeverLeft(f) && Assigns(f, j)
    ensures larger ==> Total(dists, nq, elLen, f) <= Best(dists, nq, elLen, larger, i, j)
    ensures !larger ==> Best(dists, nq, elLen, larger, i, j) <= Total(dists, nq, elLen, f)
    decreases i, j
  {
    if i > 0 {
      if f[i - 1] < j {
        BestOptimal(dists, nq, elLen, larger, i, j - 1, f);
      } else {
        BestOptimal(dists, nq, elLen, larger, i - 1, j, f[..i - 1]);
      }
    }
  }

  lemma BestIsOptimum(dists: seq<real>, nq: nat, elLen: nat, larger: bool, i: nat, j: nat)
    requires Holds(dists, nq, elLen) && i <= nq && j < elLen
    ensures IsOptimum(dists, nq, elLen, larger, i, j, Best(dists, nq, elLen, larger, i, j))
  {
    var f := BestAttained(dists, nq, elLen, larger, i, j);
    forall g: seq<nat> | |g| == i && NeverLeft(g) && Assigns(g, j)
      ensures if larger then Total(dists, nq, elLen, g) <= Best(dists, nq, elLen, larger, i, j)
              else Best(dists, nq, elLen, larger, i, j) <= Total(dists, nq, elLen, g)
    {
      BestOptimal(dists, nq, elLen, larger, i, j, g);
    }
  }

  /** One row of the in-place update: entry j reads the already updated entry j - 1. */
  method UpdateRow(dists: seq<real>, nq: nat, elLen: nat, larger: bool, i: nat, scores: array<real>)
    requires Holds(dists, nq, elLen) && i < nq && elLen > 0 && scores.Length == elLen
    requires forall j :: 0 <= j < elLen ==> scores[j] == Best(dists, nq, elLen, larger, i, j)
    modifies scores
    ensures forall j :: 0 <= j < elLen ==> scores[j] == Best(dists, nq, elLen, larger, i + 1, j)
  {
    CellInRange(dists, nq, elLen, i, 0);
    scores[0] := scores[0] + dists[i * elLen];
    var j := 1;
    while j < elLen
      invariant 1 <= j <= elLen
      invariant forall k :: 0 <= k < j ==> scores[k] == Best(dists, nq, elLen, larger, i + 1, k)
      invariant forall k :: j <= k < elLen ==> scores[k] == Best(dists, nq, elLen, larger, i, k)
    {
      CellInRange(dists, nq, elLen, i, j);
      scores[j] := Pick(larger, scores[j - 1], scores[j] + dists[i * elLen + j]);
      j := j + 1;
    }
  }

  /** get_ordered_sum_max_sim */
  method OrderedScore(dists: seq<real>, nq: nat, elLen: nat, larger: bool) returns (score: Option<real>)
    requires Holds(dists, nq, elLen)
    ensures score.None? <==> nq == 0 || elLen == 0
    ensures score.Some? ==> IsOptimum(dists, nq, elLen, larger, nq, elLen - 1, score.value)
    ensures score.Some? ==> forall f: seq<nat> :: |f| == nq && NeverLeft(f) && Assigns(f, elLen - 1) ==>
              (larger ==> Total(dists, nq, elLen, f) <= score.value)
              && (!larger ==> score.value <= Total(dists, nq, elLen, f))
  {
    if nq == 0 || elLen == 0 {
      return None;
    }
    var scores := new real[elLen](_ => 0.0);
    for i := 0 to nq
      invariant forall j :: 0 <= j < elLen ==> scores[j] == Best(dists, nq, elLen, larger, i, j)
    {
      UpdateRow(dists, nq, elLen, larger, i, scores);
    }
    BestIsOptimum(dists, nq, elLen, larger, nq, elLen - 1);
    score := Some(scores[elLen - 1]);
  }

  // ---------------------------------------------------------------------------
  // Unordered score
  // ---------------------------------------------------------------------------

  /** `v` is attained by an assignment of the first `i` rows, in any order, and none beats it. */
  ghost predicate IsUnorderedOptimum(dists: seq<real>, nq: nat, elLen: nat, larger: bool, i: nat, v: real)
    requires Holds(dists, nq, elLen) && i <= nq && elLen > 0
  {
    && (exists f: seq<nat> :: |f| == i && Assigns(f, elLen - 1) && Total(dists, nq, elLen, f) == v)
    && (forall f: seq<nat> :: |f| == i && Assigns(f, elLen - 1) ==>
        if larger then Total(dists, nq, elLen, f) <= v else v <= Total(dists, nq, elLen, f))
  }

  /** No entry is worse than the loop's start value, the most extreme finite float. */
  ghost predicate Finite(dists: seq<real>, larger: bool, start: real) {
    forall i :: 0 <= i < |dists| ==> if larger then start <= dists[i] else dists[i] <= start
  }

  /** The table with every entry worse than the start value replaced by it. */
  ghost function Clamped(dists: seq<real>, larger: bool, start: real): (c: seq<real>)
    ensures |c| == |dists| && (c == dists <==> Finite(dists, larger, start))
    ensures forall i :: 0 <= i < |c| ==> c[i] == start || c[i] == dists[i]
    ensures larger ==> forall i :: 0 <= i < |c| ==> start <= c[i] && dists[i] <= c[i]
    ensures !larger ==> forall i :: 0 <= i < |c| ==> c[i] <= start && c[i] <= dists[i]
  {
    var c := seq(|dists|, i requires 0 <= i < |dists| => if Beats(larger, start, dists[i]) then start else dists[i]);
    assert !Finite(dists, larger, start) ==> exists i :: 0 <= i < |dists| && c[i] != dists[i];
    c
  }

  /** find_max_in_range / find_min_in_range, whose bounds are 32-bit ints. */
  method FindInRange(dists: seq<real>, larger: bool, start: real, startIdx: int32, endIdx: int32)
    returns (best: Option<real>)
    requires endIdx <= |dists|
    ensures best.None? <==> startIdx < 0 || endIdx <= startIdx
    ensures best.Some? ==> best.value in Clamped(dists, larger, start)[startIdx..endIdx]
    ensures best.Some? && larger ==>
              start <= best.value && forall k :: startIdx <= k < endIdx ==> dists[k] <= best.value
    ensures best.Some? && !larger ==>
              best.value <= start && forall k :: startIdx <= k < endIdx ==> best.value <= dists[k]
  {
    if startIdx < 0 || endIdx <= startIdx {
      return None;
    }
    ghost var table := Clamped(dists, larger, start);
    var v := start;
    var i: int := startIdx;
    while i < endIdx
      invariant startIdx <= i <= endIdx
      invariant forall k :: startIdx <= k < i ==> if larger then dists[k] <= v else v <= dists[k]
      invariant (if larger then start <= v else v <= start) && (v == start || v in table[startIdx..endIdx])
    {
      if Beats(larger, dists[i], v) {
        v := dists[i];
        assert v == table[startIdx..endIdx][i - startIdx];
      }
      i := i + 1;
    }
    if v == start {
      assert table[startIdx..endIdx][0] == start;
    }
    best := Some(v);
  }

  ghost predicate Valid(f: seq<nat>, i: nat, elLen: nat) {
    |f| == i && forall a :: 0 <= a < i ==> f[a] < elLen
  }

  lemma TotalAppend(dists: seq<real>, nq: nat, elLen: nat, f: seq<nat>, k: nat)
    requires Holds(dists, nq, elLen) && |f| < nq && Valid(f, |f|, elLen) && k < elLen
    ensures Valid(f + [k], |f| + 1, elLen)
    ensures Total(dists, nq, elLen, f + [k]) == Total(dists, nq, elLen, f) + Cell(dists, nq, elLen, |f|, k)
  {
    assert (f + [k])[..|f|] == f;
  }

  /** Appending the best position of one more row keeps the total unbeaten. */
  lemma UnorderedStep(dists: seq<real>, nq: nat, elLen: nat, larger: bool, i: nat, v: real, k: nat)
    requires Holds(dists, nq, elLen) && i < nq && k < elLen
    requires IsUnorderedOptimum(dists, nq, elLen, larger, i, v)
    requires forall j :: 0 <= j < elLen ==>
               if larger then Cell(dists, nq, elLen, i, j) <= Cell(dists, nq, elLen, i, k)
               else Cell(dists, nq, elLen, i, k) <= Cell(dists, nq, elLen, i, j)
    ensures IsUnorderedOptimum(dists, nq, elLen, larger, i + 1, v + Cell(dists, nq, elLen, i, k))
  {
    var f: seq<nat> :| |f| == i && Assigns(f, elLen - 1) && Total(dists, nq, elLen, f) == v;
    TotalAppend(dists, nq, elLen, f, k);
    assert Assigns(f + [k], elLen - 1);
    forall h: seq<nat> | |h| == i + 1 && Assigns(h, elLen - 1)
      ensures if larger then Total(dists, nq, elLen, h) <= v + Cell(dists, nq, elLen, i, k)
              else v + Cell(dists, nq, elLen, i, k) <= Total(dists, nq, elLen, h)
    {
      UnorderedUnbeaten(dists, nq, elLen, larger, i, v, k, h);
    }
  }

  lemma UnorderedUnbeaten(dists: seq<real>, nq: nat, elLen: nat, larger: bool, i: nat, v: real, k: nat, h: seq<nat>)
    requires Holds(dists, nq, elLen) && i < nq && k < elLen
    requires IsUnorderedOptimum(dists, nq, elLen, larger, i, v)
    requires forall j :: 0 <= j < elLen ==>
               if larger then Cell(dists, nq, elLen, i, j) <= Cell(dists, nq, elLen, i, k)
               else Cell(dists, nq, elLen, i, k) <= Cell(dists, nq, elLen, i, j)
    requires |h| == i + 1 && Assigns(h, elLen - 1)
    ensures larger ==> Total(dists, nq, elLen, h) <= v + Cell(dists, nq, elLen, i, k)
    ensures !larger ==> v + Cell(dists, nq, elLen, i, k) <= Total(dists, nq, elLen, h)
  {
    var g := h[..i];
    assert Assigns(g, elLen - 1);
    assert Total(dists, nq, elLen, h) == Total(dists, nq, elLen, g) + Cell(dists, nq, elLen, i, h[i]);
  }

  /** One row's best entry, as the scan over the flat table finds it. */
  lemma BestOfRow(dists: seq<real>, nq: nat, elLen: nat, larger: bool, i: nat, best: real) returns (k: nat)
    requires Holds(dists, nq, elLen) && i < nq && elLen > 0
    requires i * elLen >= 0 && i * elLen + elLen <= |dists|
    requires best in dists[i * elLen..i * elLen + elLen]
    requires forall h :: i * elLen <= h < i * elLen + elLen ==> if larger then dists[h] <= best else best <= dists[h]
    ensures k < elLen && Cell(dists, nq, elLen, i, k) == best
    ensures forall j :: 0 <= j < elLen ==>
              if larger then Cell(dists, nq, elLen, i, j) <= best else best <= Cell(dists, nq, elLen, i, j)
  {
    var base := i * elLen;
    k :| 0 <= k < elLen && dists[base..base + elLen][k] == best;
  }

  /** Rows that still fit the 32-bit indices of the range scan convert exactly; the first one
      that does not wraps to a negative end. */
  lemma RowIndices(elLen: nat, i: nat)
    requires elLen <= MAX_INT && i * elLen <= MAX_INT
    ensures i * elLen >= 0 && (i + 1) * elLen == i * elLen + elLen
    ensures Wrap32(i * elLen) == i * elLen
    ensures (i + 1) * elLen <= MAX_INT ==> Wrap32((i + 1) * elLen) == (i + 1) * elLen
    ensures (i + 1) * elLen > MAX_INT ==> Wrap32((i + 1) * elLen) < 0
  {
    MulMono(0, i, elLen);
  }

  /** The 32-bit bounds of row i enclose something. */
  predicate RowFits(elLen: nat, i: nat) {
    0 <= Wrap32(i * elLen) < Wrap32((i + 1) * elLen)
  }

  lemma {:induction false} AllRowsFit(elLen: nat, n: nat)
    requires elLen <= MAX_INT
    ensures (forall i: nat :: i < n ==> RowFits(elLen, i)) <==> n == 0 || (elLen > 0 && n * elLen <= MAX_INT)
  {
    if n > 0 {
      AllRowsFit(elLen, n - 1);
      MulMono(0, n - 1, elLen);
      assert n * elLen == (n - 1) * elLen + elLen;
      if n == 1 || (elLen > 0 && (n - 1) * elLen <= MAX_INT) {
        RowIndices(elLen, n - 1);
        assert RowFits(elLen, n - 1) <==> elLen > 0 && n * elLen <= MAX_INT;
      }
    }
  }

  lemma WrapNotAbove(n: nat)
    ensures Wrap32(n) <= n
  {
  }

  /** get_sum_max_sim: no score when a row range is empty or leaves the 32-bit index range. */
  method UnorderedScore(dists: seq<real>, nq: nat, elLen: nat, larger: bool, start: real) returns (score: Option<real>)
    requires Holds(dists, nq, elLen)
    ensures score.Some? <==> forall i: nat :: i < nq ==> RowFits(elLen, i)
    ensures elLen <= MAX_INT ==> (score.Some? <==> nq == 0 || (elLen > 0 && nq * elLen <= MAX_INT))
    ensures nq == 0 ==> score == Some(0.0)
    ensures score.Some? && nq > 0 && elLen <= MAX_INT ==>
              elLen > 0 && IsUnorderedOptimum(Clamped(dists, larger, start), nq, elLen, larger, nq, score.value)
    ensures score.Some? && 0 < elLen <= MAX_INT && Finite(dists, larger, start) ==>
              forall f: seq<nat> :: |f| == nq && Assigns(f, elLen - 1) ==>
                (larger ==> Total(dists, nq, elLen, f) <= score.value)
                && (!larger ==> score.value <= Total(dists, nq, elLen, f))
  {
    ghost var table := Clamped(dists, larger, start);
    var total := 0.0;
    if elLen <= MAX_INT {
      AllRowsFit(elLen, nq);
    }
    for i := 0 to nq
      invariant forall k: nat :: k < i ==> RowFits(elLen, k)
      invariant 0 < elLen <= MAX_INT ==> IsUnorderedOptimum(table, nq, elLen, larger, i, total)
      invariant i == 0 ==> total == 0.0
    {
      MulMono(0, i + 1, elLen);
      MulMono(i + 1, nq, elLen);
      WrapNotAbove((i + 1) * elLen);
      var best := FindInRange(dists, larger, start, Wrap32(i * elLen), Wrap32((i + 1) * elLen));
      if best.None? {
        assert !RowFits(elLen, i);
        return None;
      }
      assert RowFits(elLen, i);
      if elLen <= MAX_INT {
        AddBestOfRow(table, nq, elLen, larger, i, total, best.value);
      }
      total := total + best.value;
    }
    score := Some(total);
  }

  /** One row's contribution to the optimum. */
  lemma AddBestOfRow(dists: seq<real>, nq: nat, elLen: nat, larger: bool, i: nat, total: real, best: real)
    requires Holds(dists, nq, elLen) && i < nq && elLen <= MAX_INT
    requires RowFits(elLen, i) && (forall k: nat :: k < i ==> RowFits(elLen, k)) && Wrap32((i + 1) * elLen) <= |dists|
    requires best in dists[Wrap32(i * elLen)..Wrap32((i + 1) * elLen)]
    requires forall k :: Wrap32(i * elLen) <= k < Wrap32((i + 1) * elLen) ==>
               if larger then dists[k] <= best else best <= dists[k]
    requires elLen > 0 ==> IsUnorderedOptimum(dists, nq, elLen, larger, i, total)
    ensures elLen > 0 && IsUnorderedOptimum(dists, nq, elLen, larger, i + 1, total + best)
  {
    AllRowsFit(elLen, i + 1);
    MulMono(i, i + 1, elLen);
    RowIndices(elLen, i);
    var k := BestOfRow(dists, nq, elLen, larger, i, best);
    UnorderedStep(dists, nq, elLen, larger, i, total, k);
  }

  /** Order costs: on the same table the ordered score never beats the unordered one. */
  lemma OrderedNeverBeatsUnordered(dists: seq<real>, nq: nat, elLen: nat, larger: bool, ordered: real, unordered: real)
    requires Holds(dists, nq, elLen) && elLen > 0
    requires IsOptimum(dists, nq, elLen, larger, nq, elLen - 1, ordered)
    requires IsUnorderedOptimum(dists, nq, elLen, larger, nq, unordered)
    ensures if larger then ordered <= unordered else unordered <= ordered
  {
    var f: seq<nat> :| |f| == nq && NeverLeft(f) && Assigns(f, elLen - 1) && Total(dists, nq, elLen, f) == ordered;
  }
}
