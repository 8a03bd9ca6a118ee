/** Post-build HNSW layouts: renumbering every node and, for ROrder, sorting the level-0
    adjacency lists. Searching has to mean the same before and after.

    The graph is stored flat: node i owns the slots offsets[i] .. offsets[i + 1], and its
    links on level L sit at cum[L] .. cum[L + 1] inside them, ended early by a negative entry.
 */
module HnswLayout {
  import opened IntSums
  import opened Permutation

  datatype Graph = Graph(levels: seq<nat>, offsets: seq<nat>, neighbors: seq<int>, entryPoint: int) {
    function Count(): nat { |levels| }
  }

  ghost predicate NotAbove(cum: seq<nat>, i: nat, j: nat) {
    i < |cum| && j < |cum| && cum[i] <= cum[j]
  }

  ghost predicate ValidCum(cum: seq<nat>) {
    |cum| > 0 && cum[0] == 0 && forall i: nat, j: nat :: i <= j < |cum| ==> NotAbove(cum, i, j)
  }

  lemma CumOrder(cum: seq<nat>, level: nat, top: nat)
    requires ValidCum(cum) && level < top < |cum|
    ensures cum[level] <= cum[level + 1] <= cum[top]
  {
    assert NotAbove(cum, level, level + 1) && NotAbove(cum, level + 1, top);
  }

  ghost predicate Valid(g: Graph, cum: seq<nat>) {
    && ValidCum(cum)
    && |g.offsets| == g.Count() + 1 && g.offsets[0] == 0 && g.offsets[g.Count()] == |g.neighbors|
    && (forall i {:trigger g.levels[i]} :: 0 <= i < g.Count() ==>
        g.levels[i] < |cum| && g.offsets[i + 1] == g.offsets[i] + cum[g.levels[i]])
    && (forall i :: 0 <= i <= g.Count() ==> g.offsets[i] <= |g.neighbors|)
    && (forall j :: 0 <= j < |g.neighbors| ==> g.neighbors[j] < g.Count())
    && -1 <= g.entryPoint < g.Count()
  }

  /** All slots of a node. */
  ghost function Slots(g: Graph, cum: seq<nat>, i: nat): (s: seq<int>)
    requires Valid(g, cum) && i < g.Count()
    ensures |s| == cum[g.levels[i]] && forall k :: 0 <= k < |s| ==> s[k] < g.Count()
  {
    assert g.levels[i] < |cum|;
    g.neighbors[g.offsets[i]..g.offsets[i + 1]]
  }

  /** The first position from i on that holds no link. */
  function LinkCount(s: seq<int>, i: nat): (n: nat)
    requires i <= |s|
    ensures i <= n <= |s| && (forall k :: i <= k < n ==> s[k] >= 0) && (n < |s| ==> s[n] < 0)
    decreases |s| - i
  {
    if i < |s| && s[i] >= 0 then LinkCount(s, i + 1) else i
  }

  /** Entries before the first negative one. */
  function UntilNegative(s: seq<int>): (r: seq<int>)
    ensures r <= s && forall k :: 0 <= k < |r| ==> r[k] >= 0
    ensures |r| < |s| ==> s[|r|] < 0
  {
    s[..LinkCount(s, 0)]
  }

  lemma PrefixIs(s: seq<int>, p: seq<int>)
    requires p <= s && (forall k :: 0 <= k < |p| ==> p[k] >= 0) && (|p| < |s| ==> s[|p|] < 0)
    ensures UntilNegative(s) == p
  {
    assert |UntilNegative(s)| == |p|;
  }

  lemma LevelBounds(g: Graph, cum: seq<nat>, i: nat, level: nat)
    requires Valid(g, cum) && i < g.Count() && level < g.levels[i]
    ensures cum[level] <= cum[level + 1] <= |Slots(g, cum, i)| && g.offsets[i] + cum[level + 1] <= |g.neighbors|
  {
    CumOrder(cum, level, g.levels[i]);
    assert g.offsets[i + 1] == g.offsets[i] + cum[g.levels[i]] <= |g.neighbors|;
  }

  /** The slots of node i on a level. */
  ghost function LevelRun(g: Graph, cum: seq<nat>, i: nat, level: nat): (s: seq<int>)
    requires Valid(g, cum) && i < g.Count() && level < g.levels[i]
    ensures forall k :: 0 <= k < |s| ==> s[k] < g.Count()
  {
    LevelBounds(g, cum, i, level);
    var n := cum[level + 1] - cum[level];
    seq(n, k requires 0 <= k < n => g.neighbors[g.offsets[i] + cum[level] + k])
  }

  /** The links of node i on a level, in the order a search meets them. */
  ghost function Links(g: Graph, cum: seq<nat>, i: nat, level: nat): (s: seq<int>)
    requires Valid(g, cum) && i < g.Count() && level < g.levels[i]
    ensures forall k :: 0 <= k < |s| ==> 0 <= s[k] < g.Count()
  {
    UntilNegative(LevelRun(g, cum, i, level))
  }

  // ---------------------------------------------------------------------------
  // Renumbering
  // ---------------------------------------------------------------------------

  function RelabelOne(inv: seq<nat>, v: int): (r: int)
    requires v < |inv|
    ensures v >= 0 ==> r == inv[v]
    ensures v < 0 ==> r == v
  {
    if v >= 0 then inv[v] else v
  }

  function Relabel(inv: seq<nat>, s: seq<int>): (r: seq<int>)
    requires forall k :: 0 <= k < |s| ==> s[k] < |inv|
    ensures |r| == |s| && forall k :: 0 <= k < |s| ==> r[k] == RelabelOne(inv, s[k])
  {
    seq(|s|, k requires 0 <= k < |s| => RelabelOne(inv, s[k]))
  }

  /** `h` is `g` with node map[i] renamed to i. */
  ghost predicate Renumbered(g: Graph, h: Graph, cum: seq<nat>, newToOld: seq<nat>, inv: seq<nat>) {
    && Valid(g, cum) && Valid(h, cum) && h.Count() == g.Count() == |newToOld| && Inverse(newToOld, inv)
    && (forall i :: 0 <= i < g.Count() ==> h.levels[i] == g.levels[newToOld[i]])
    && (forall i :: 0 <= i < g.Count() ==> Slots(h, cum, i) == Relabel(inv, Slots(g, cum, newToOld[i])))
    && h.entryPoint == RelabelOne(inv, g.entryPoint)
  }

  ghost function Widths(levels: seq<nat>, cum: seq<nat>): (w: seq<int>)
    requires forall i :: 0 <= i < |levels| ==> levels[i] < |cum|
    ensures |w| == |levels| && forall i :: 0 <= i < |levels| ==> w[i] == cum[levels[i]]
  {
    seq(|levels|, i requires 0 <= i < |levels| => cum[levels[i]])
  }

  lemma {:induction false} OffsetIsSum(g: Graph, cum: seq<nat>, i: nat)
    requires Valid(g, cum) && i <= g.Count()
    ensures g.offsets[i] == Sum(Widths(g.levels, cum)[..i])
  {
    if i > 0 {
      OffsetIsSum(g, cum, i - 1);
      var w := Widths(g.levels, cum);
      assert w[..i][..i - 1] == w[..i - 1];
    }
  }

  lemma {:induction false} PrefixSumBound(w: seq<int>, i: nat)
    requires i <= |w| && forall k :: 0 <= k < |w| ==> w[k] >= 0
    ensures 0 <= Sum(w[..i]) <= Sum(w)
    decreases |w|
  {
    SumSplit(w, i);
    SumNonNegative(w[..i]);
    SumNonNegative(w[i..]);
  }

  lemma {:induction false} SumNonNegative(w: seq<int>)
    requires forall k :: 0 <= k < |w| ==> w[k] >= 0
    ensures Sum(w) >= 0
  {
    if |w| > 0 {
      SumNonNegative(w[..|w| - 1]);
    }
  }

  /** Copies the slots of one node, renaming the targets. */
  method CopySlots(dst: array<int>, at: nat, src: seq<int>, inv: seq<nat>)
    requires at + |src| <= dst.Length && forall k :: 0 <= k < |src| ==> src[k] < |inv|
    modifies dst
    ensures dst[..at] == old(dst[..at]) && dst[at..at + |src|] == Relabel(inv, src)
  {
    var no := at;
    for j := 0 to |src|
      invariant no == at + j && dst[..at] == old(dst[..at]) && dst[at..at + j] == Relabel(inv, src)[..j]
    {
      dst[no] := RelabelOne(inv, src[j]);
      no := no + 1;
    }
  }

  /** The first `i` nodes of the new numbering are in place: offsets follow the new widths and
      the slots are the renamed old ones. */
  ghost predicate Copied(g: Graph, cum: seq<nat>, newToOld: seq<nat>, inv: seq<nat>, offsets: seq<nat>, out: seq<int>,
                         i: nat)
    requires Valid(g, cum) && Inverse(newToOld, inv) && |newToOld| == g.Count()
  {
    && i <= g.Count() && |offsets| == i + 1 && offsets[0] == 0
    && (forall k :: 0 <= k <= i ==> offsets[k] <= offsets[i] <= |out|)
    && (forall k {:trigger newToOld[k]} :: 0 <= k < i ==> offsets[k + 1] == offsets[k] + cum[g.levels[newToOld[k]]])
    && (forall k {:trigger newToOld[k]} :: 0 <= k < i ==>
        Relabel(inv, Slots(g, cum, newToOld[k])) == out[offsets[k]..offsets[k + 1]])
  }

  lemma CopiedNext(g: Graph, cum: seq<nat>, newToOld: seq<nat>, inv: seq<nat>, offsets: seq<nat>, out: seq<int>,
                   out': seq<int>, i: nat)
    requires Valid(g, cum) && Inverse(newToOld, inv) && |newToOld| == g.Count() && i < g.Count()
    requires Copied(g, cum, newToOld, inv, offsets, out, i) && |out'| == |out|
    requires offsets[i] + cum[g.levels[newToOld[i]]] <= |out|
    requires out'[..offsets[i]] == out[..offsets[i]]
    requires out'[offsets[i]..offsets[i] + cum[g.levels[newToOld[i]]]] == Relabel(inv, Slots(g, cum, newToOld[i]))
    ensures Copied(g, cum, newToOld, inv, offsets + [offsets[i] + cum[g.levels[newToOld[i]]]], out', i + 1)
  {
    var next := offsets + [offsets[i] + cum[g.levels[newToOld[i]]]];
    forall k {:trigger newToOld[k]} | 0 <= k < i + 1
      ensures next[k] <= next[k + 1] <= |out'| && next[k + 1] == next[k] + cum[g.levels[newToOld[k]]]
      ensures out'[next[k]..next[k + 1]] == Relabel(inv, Slots(g, cum, newToOld[k]))
    {
      assert next[k] == offsets[k];
      if k < i {
        assert next[k + 1] == offsets[k + 1] == offsets[k] + cum[g.levels[newToOld[k]]];
        SameRun(out, out', offsets[k], offsets[k + 1], offsets[i]);
      }
    }
  }

  lemma SameRun(a: seq<int>, b: seq<int>, lo: nat, hi: nat, end: nat)
    requires lo <= hi <= end <= |a| == |b| && b[..end] == a[..end]
    ensures b[lo..hi] == a[lo..hi]
  {
    assert a[lo..hi] == a[..end][lo..hi] && b[lo..hi] == b[..end][lo..hi];
  }

  lemma TotalWidth(g: Graph, cum: seq<nat>, newToOld: seq<nat>)
    requires Valid(g, cum) && |newToOld| == g.Count() && IsPermutation(newToOld)
    ensures Sum(Gather(Widths(g.levels, cum), newToOld)) == |g.neighbors|
  {
    var w := Widths(g.levels, cum);
    SumGather(w, newToOld);
    OffsetIsSum(g, cum, g.Count());
    assert w[..g.Count()] == w;
  }

  /** Room in the new table: the new widths add up to the old total, so a prefix always fits. */
  lemma RoomForNext(g: Graph, cum: seq<nat>, newToOld: seq<nat>, offsets: seq<nat>, i: nat)
    requires Valid(g, cum) && |newToOld| == g.Count() && IsPermutation(newToOld)
    requires i <= g.Count() && |offsets| == i + 1 && offsets[0] == 0
    requires forall k {:trigger newToOld[k]} :: 0 <= k < i ==> offsets[k + 1] == offsets[k] + cum[g.levels[newToOld[k]]]
    ensures i < g.Count() ==> offsets[i] + cum[g.levels[newToOld[i]]] <= |g.neighbors|
    ensures i == g.Count() ==> offsets[i] == |g.neighbors|
  {
    TotalWidth(g, cum, newToOld);
    RoomBySums(offsets, Gather(Widths(g.levels, cum), newToOld), i);
  }

  lemma RoomBySums(offsets: seq<nat>, v: seq<int>, i: nat)
    requires i <= |v| && i < |offsets| && offsets[0] == 0 && forall k :: 0 <= k < |v| ==> v[k] >= 0
    requires forall k {:trigger v[k]} :: 0 <= k < i ==> offsets[k + 1] == offsets[k] + v[k]
    ensures i < |v| ==> offsets[i] + v[i] <= Sum(v)
    ensures i == |v| ==> offsets[i] == Sum(v)
  {
    NewOffsetIsSum(offsets, v, i);
    if i < |v| {
      PrefixSumBound(v, i + 1);
      assert v[..i + 1][..i] == v[..i];
    } else {
      assert v[..i] == v;
    }
  }

  lemma {:induction false} NewOffsetIsSum(offsets: seq<nat>, v: seq<int>, i: nat)
    requires i <= |v| && i < |offsets| && offsets[0] == 0
    requires forall k {:trigger v[k]} :: 0 <= k < i ==> offsets[k + 1] == offsets[k] + v[k]
    ensures offsets[i] == Sum(v[..i])
  {
    if i > 0 {
      NewOffsetIsSum(offsets, v, i - 1);
      assert v[..i][..i - 1] == v[..i - 1];
    }
  }

  /** One node of the new numbering. */
  method CopyNode(g: Graph, cum: seq<nat>, newToOld: seq<nat>, inv: seq<nat>, offsets: seq<nat>, out: array<int>,
                  i: nat)
    returns (next: seq<nat>)
    requires Valid(g, cum) && IsPermutation(newToOld) && Inverse(newToOld, inv) && |newToOld| == g.Count()
    requires i < g.Count()
    requires out.Length == |g.neighbors| && Copied(g, cum, newToOld, inv, offsets, out[..], i)
    modifies out
    ensures Copied(g, cum, newToOld, inv, next, out[..], i + 1)
  {
    var o := newToOld[i];
    RoomForNext(g, cum, newToOld, offsets, i);
    ghost var before := out[..];
    CopySlots(out, offsets[i], g.neighbors[g.offsets[o]..g.offsets[o + 1]], inv);
    assert out[..][..offsets[i]] == before[..offsets[i]];
    CopiedNext(g, cum, newToOld, inv, offsets, before, out[..], i);
    next := offsets + [offsets[i] + (g.offsets[o + 1] - g.offsets[o])];
  }

  /** HNSW::permute_entries on the graph's parts. */
  method Permute(g: Graph, cum: seq<nat>, newToOld: seq<nat>) returns (h: Graph, inv: seq<nat>)
    requires Valid(g, cum) && IsPermutation(newToOld) && |newToOld| == g.Count()
    ensures Renumbered(g, h, cum, newToOld, inv)
  {
    inv := Invert(newToOld);
    var entry := if g.entryPoint != -1 then inv[g.entryPoint] else -1;
    var levels: seq<nat>, offsets: seq<nat> := [], [0];
    var out := new int[|g.neighbors|];
    for i := 0 to g.Count()
      invariant |levels| == i && forall k :: 0 <= k < i ==> levels[k] == g.levels[newToOld[k]]
      invariant Copied(g, cum, newToOld, inv, offsets, out[..], i)
    {
      offsets := CopyNode(g, cum, newToOld, inv, offsets, out, i);
      levels := levels + [g.levels[newToOld[i]]];
    }
    RoomForNext(g, cum, newToOld, offsets, g.Count());
    h := Graph(levels, offsets, out[..], entry);
    RenumberedValid(g, h, cum, newToOld, inv);
  }

  lemma RenumberedValid(g: Graph, h: Graph, cum: seq<nat>, newToOld: seq<nat>, inv: seq<nat>)
    requires Valid(g, cum) && Inverse(newToOld, inv) && |newToOld| == g.Count() == h.Count()
    requires forall k :: 0 <= k < g.Count() ==> h.levels[k] == g.levels[newToOld[k]]
    requires Copied(g, cum, newToOld, inv, h.offsets, h.neighbors, g.Count())
    requires h.offsets[g.Count()] == |h.neighbors| && h.entryPoint == RelabelOne(inv, g.entryPoint)
    ensures Renumbered(g, h, cum, newToOld, inv)
  {
    forall j | 0 <= j < |h.neighbors| ensures h.neighbors[j] < h.Count() {
      var i := Owner(h.offsets, g.Count(), j);
      assert newToOld[i] < g.Count();
      assert h.neighbors[j] == h.neighbors[h.offsets[i]..h.offsets[i + 1]][j - h.offsets[i]];
    }
  }

  /** The node that owns a slot. */
  lemma {:induction false} Owner(offsets: seq<nat>, n: nat, j: nat) returns (i: nat)
    requires n < |offsets| && offsets[0] == 0 && j < offsets[n]
    ensures i < n && offsets[i] <= j < offsets[i + 1]
  {
    if j >= offsets[n - 1] {
      i := n - 1;
    } else {
      i := Owner(offsets, n - 1, j);
    }
  }

  class Hnsw {
    var levels: seq<nat>
    var offsets: seq<nat>
    var neighbors: seq<int>
    var entryPoint: int
    const cum: seq<nat>

    ghost function Snapshot(): Graph
      reads this
    {
      Graph(levels, offsets, neighbors, entryPoint)
    }

    ghost predicate Ok()
      reads this
    {
      Valid(Snapshot(), cum)
    }

    constructor (g: Graph, cum: seq<nat>)
      requires Valid(g, cum)
      ensures Ok() && Snapshot() == g && this.cum == cum
    {
      this.cum := cum;
      levels, offsets, neighbors, entryPoint := g.levels, g.offsets, g.neighbors, g.entryPoint;
    }

    /** HNSW::permute_entries: node map[i] becomes node i. */
    method PermuteEntries(newToOld: seq<nat>) returns (ghost inv: seq<nat>)
      requires Ok() && IsPermutation(newToOld) && |newToOld| == |levels|
      modifies this
      ensures Ok() && Renumbered(old(Snapshot()), Snapshot(), cum, newToOld, inv)
    {
      var h, inverse := Permute(Graph(levels, offsets, neighbors, entryPoint), cum, newToOld);
      inv := inverse;
      levels, offsets, neighbors, entryPoint := h.levels, h.offsets, h.neighbors, h.entryPoint;
    }
  }
}
