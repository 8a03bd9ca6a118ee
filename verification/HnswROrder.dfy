/** ROrder: the global renumbering followed by sorting every level-0 adjacency list by id. */
module HnswROrder {
  import opened HnswGreedy
  import opened HnswLayout
  import opened Permutation
  import opened Sorting

  /** r is s after normalisation: the same links in ascending order, then -1 to the end. */
  ghost predicate Normal(s: seq<int>, r: seq<int>) {
    var u, v := UntilNegative(s), UntilNegative(r);
    |r| == |s| && Ascending(v) && multiset(v) == multiset(u) && forall k :: |v| <= k < |r| ==> r[k] == -1
  }

  lemma NormalBound(s: seq<int>, r: seq<int>, n: nat)
    requires Normal(s, r) && forall k :: 0 <= k < |s| ==> s[k] < n
    ensures forall k :: 0 <= k < |r| ==> r[k] < n
  {
    var u, v := UntilNegative(s), UntilNegative(r);
    forall k | 0 <= k < |v| ensures v[k] < n {
      SameMembers(v, u, v[k]);
    }
  }

  // ---------------------------------------------------------------------------
  // One node
  // ---------------------------------------------------------------------------

  /** Collects the valid prefix. */
  method Collect(table: array<int>, begin: nat, end: nat) returns (tmp: seq<int>)
    requires begin <= end <= table.Length
    ensures tmp == UntilNegative(table[begin..end])
  {
    tmp := [];
    ghost var s := table[begin..end];
    var j := begin;
    while j < end
      invariant begin <= j <= end && |tmp| == j - begin && tmp == s[..|tmp|]
      invariant forall k :: 0 <= k < |tmp| ==> tmp[k] >= 0
    {
      assert table[j] == s[j - begin];
      if table[j] < 0 {
        break;
      }
      tmp := tmp + [table[j]];
      j := j + 1;
    }
    PrefixIs(s, tmp);
  }

  /** The list, and -1 in every place after it. */
  ghost function Padded(list: seq<int>, n: nat): seq<int>
    requires |list| <= n
  {
    list + seq(n - |list|, _ => -1)
  }

  /** Writes the sorted links back and clears the rest of the range. */
  method WriteBack(table: array<int>, begin: nat, end: nat, sorted: seq<int>)
    requires begin + |sorted| <= end <= table.Length
    modifies table
    ensures table[..begin] == old(table[..begin]) && table[end..] == old(table[end..])
    ensures table[begin..end] == Padded(sorted, end - begin)
  {
    for j := begin to end
      invariant table[..begin] == old(table[..begin]) && table[end..] == old(table[end..])
      invariant forall k :: begin <= k < j ==> table[k] == if k - begin < |sorted| then sorted[k - begin] else -1
    {
      table[j] := if j - begin < |sorted| then sorted[j - begin] else -1;
    }
  }

  method NormalizeNode(table: array<int>, begin: nat, end: nat)
    requires begin <= end <= table.Length
    modifies table
    ensures table[..begin] == old(table[..begin]) && table[end..] == old(table[end..])
    ensures Normal(old(table[begin..end]), table[begin..end])
  {
    ghost var s := table[begin..end];
    var tmp := Collect(table, begin, end);
    var sorted := Sort(tmp);
    SortedIsNormal(s, tmp, sorted);
    WriteBack(table, begin, end, sorted);
  }

  lemma SortedIsNormal(s: seq<int>, list: seq<int>, sorted: seq<int>)
    requires list == UntilNegative(s) && sorted == Sort(list)
    ensures |sorted| <= |s| && Normal(s, Padded(sorted, |s|))
  {
    assert |sorted| == |list|;
    WrittenIsNormal(s, sorted);
  }

  lemma WrittenIsNormal(s: seq<int>, sorted: seq<int>)
    requires |sorted| <= |s| && Ascending(sorted) && multiset(sorted) == multiset(UntilNegative(s))
    ensures Normal(s, Padded(sorted, |s|))
  {
    var u, r := UntilNegative(s), Padded(sorted, |s|);
    forall k | 0 <= k < |sorted| ensures sorted[k] >= 0 {
      SameMembers(sorted, u, sorted[k]);
    }
    PrefixIs(r, sorted);
  }

  // ---------------------------------------------------------------------------
  // Every node
  // ---------------------------------------------------------------------------

  lemma {:induction false} OffsetsAscend(g: Graph, cum: seq<nat>, i: nat, j: nat)
    requires Valid(g, cum) && i <= j <= g.Count()
    ensures g.offsets[i] <= g.offsets[j]
    decreases j
  {
    if i < j {
      assert g.levels[j - 1] < |cum|;
      OffsetsAscend(g, cum, i, j - 1);
    }
  }

  ghost predicate EveryNodeOnLevel0(g: Graph, cum: seq<nat>) {
    Valid(g, cum) && |cum| > 1 && forall i :: 0 <= i < g.Count() ==> g.levels[i] >= 1
  }

  lemma NodeRange(g: Graph, cum: seq<nat>, i: nat)
    requires EveryNodeOnLevel0(g, cum) && i < g.Count()
    ensures g.offsets[i] + cum[1] <= g.offsets[i + 1] <= |g.neighbors|
  {
    assert NotAbove(cum, 1, g.levels[i]);
  }

  /** A stretch of the table: up to `m` normalised, from `m` to `e` untouched. */
  ghost predicate Stretch(table: seq<int>, was: seq<int>, o: nat, m: nat, e: nat)
    requires o <= m <= e <= |table| == |was|
  {
    Normal(was[o..m], table[o..m]) && table[m..e] == was[m..e]
  }

  lemma StretchKept(before: seq<int>, after: seq<int>, was: seq<int>, o: nat, m: nat, e: nat, limit: nat)
    requires o <= m <= e <= limit <= |before| == |after| == |was| && before[..limit] == after[..limit]
    requires Stretch(before, was, o, m, e)
    ensures Stretch(after, was, o, m, e)
  {
    SameRun(after, before, o, m, limit);
    SameRun(after, before, m, e, limit);
  }

  lemma StretchBound(table: seq<int>, was: seq<int>, o: nat, m: nat, e: nat, n: nat, j: nat)
    requires o <= m <= e <= |table| == |was| && Stretch(table, was, o, m, e)
    requires o <= j < e && forall k :: 0 <= k < |was| ==> was[k] < n
    ensures table[j] < n
  {
    NormalBound(was[o..m], table[o..m], n);
    if j < m {
      assert table[j] == table[o..m][j - o];
    } else {
      assert table[j] == table[m..e][j - m];
    }
  }

  /** The node just rewritten: its range normalised, the later slots still the original ones. */
  lemma StretchNew(before: seq<int>, after: seq<int>, was: seq<int>, o: nat, m: nat, e: nat)
    requires o <= m <= e <= |before| == |after| == |was| && before[o..] == was[o..]
    requires Normal(before[o..m], after[o..m]) && after[m..] == before[m..]
    ensures Stretch(after, was, o, m, e) && after[e..] == was[e..]
  {
    TailSlices(before, was, o, m, e);
    TailSlices(after, before, m, m, e);
  }

  lemma TailSlices(a: seq<int>, b: seq<int>, o: nat, m: nat, e: nat)
    requires o <= m <= e <= |a| == |b| && a[o..] == b[o..]
    ensures a[o..m] == b[o..m] && a[m..e] == b[m..e] && a[e..] == b[e..]
  {
    assert forall k :: o <= k < |a| ==> a[k] == a[o..][k - o] && b[k] == b[o..][k - o];
  }

  /** Node k's slots in a table: the level-0 part normalised, the rest untouched. */
  ghost predicate NodeDone(g: Graph, cum: seq<nat>, table: seq<int>, k: nat)
    requires EveryNodeOnLevel0(g, cum) && k < g.Count() && |table| == |g.neighbors|
  {
    NodeRange(g, cum, k);
    Stretch(table, g.neighbors, g.offsets[k], g.offsets[k] + cum[1], g.offsets[k + 1])
  }

  ghost predicate Progress(g: Graph, cum: seq<nat>, table: seq<int>, i: nat)
    requires EveryNodeOnLevel0(g, cum)
  {
    && |table| == |g.neighbors| && i <= g.Count()
    && (forall k :: 0 <= k < i ==> NodeDone(g, cum, table, k))
    && table[g.offsets[i]..] == g.neighbors[g.offsets[i]..]
  }

  lemma EarlierKept(g: Graph, cum: seq<nat>, before: seq<int>, after: seq<int>, i: nat, k: nat)
    requires EveryNodeOnLevel0(g, cum) && k < i < g.Count() && |before| == |after| == |g.neighbors|
    requires after[..g.offsets[i]] == before[..g.offsets[i]] && NodeDone(g, cum, before, k)
    ensures NodeDone(g, cum, after, k)
  {
    NodeRange(g, cum, k);
    OffsetsAscend(g, cum, k + 1, i);
    StretchKept(before, after, g.neighbors, g.offsets[k], g.offsets[k] + cum[1], g.offsets[k + 1], g.offsets[i]);
  }

  lemma NodeJustDone(g: Graph, cum: seq<nat>, before: seq<int>, after: seq<int>, i: nat)
    requires EveryNodeOnLevel0(g, cum) && i < g.Count() && |before| == |after| == |g.neighbors|
    requires before[g.offsets[i]..] == g.neighbors[g.offsets[i]..] && g.offsets[i] + cum[1] <= |before|
    requires after[g.offsets[i] + cum[1]..] == before[g.offsets[i] + cum[1]..]
    requires Normal(before[g.offsets[i]..g.offsets[i] + cum[1]], after[g.offsets[i]..g.offsets[i] + cum[1]])
    ensures NodeDone(g, cum, after, i) && after[g.offsets[i + 1]..] == g.neighbors[g.offsets[i + 1]..]
  {
    NodeRange(g, cum, i);
    StretchNew(before, after, g.neighbors, g.offsets[i], g.offsets[i] + cum[1], g.offsets[i + 1]);
  }

  lemma ProgressNext(g: Graph, cum: seq<nat>, before: seq<int>, after: seq<int>, i: nat)
    requires EveryNodeOnLevel0(g, cum) && i < g.Count() && Progress(g, cum, before, i) && |after| == |before|
    requires g.offsets[i] + cum[1] <= |before|
    requires after[..g.offsets[i]] == before[..g.offsets[i]]
    requires after[g.offsets[i] + cum[1]..] == before[g.offsets[i] + cum[1]..]
    requires Normal(before[g.offsets[i]..g.offsets[i] + cum[1]], after[g.offsets[i]..g.offsets[i] + cum[1]])
    ensures Progress(g, cum, after, i + 1)
  {
    AllEarlierKept(g, cum, before, after, i);
    NodeJustDone(g, cum, before, after, i);
  }

  lemma AllEarlierKept(g: Graph, cum: seq<nat>, before: seq<int>, after: seq<int>, i: nat)
    requires EveryNodeOnLevel0(g, cum) && i < g.Count() && |before| == |after| == |g.neighbors|
    requires after[..g.offsets[i]] == before[..g.offsets[i]]
    requires forall k :: 0 <= k < i ==> NodeDone(g, cum, before, k)
    ensures forall k :: 0 <= k < i ==> NodeDone(g, cum, after, k)
  {
    forall k | 0 <= k < i ensures NodeDone(g, cum, after, k) {
      EarlierKept(g, cum, before, after, i, k);
    }
  }

  /** `h` is `g` with every level-0 list sorted. */
  ghost predicate SortedLevel0(g: Graph, h: Graph, cum: seq<nat>) {
    && EveryNodeOnLevel0(g, cum) && EveryNodeOnLevel0(h, cum)
    && h.levels == g.levels && h.offsets == g.offsets && h.entryPoint == g.entryPoint
    && forall i :: 0 <= i < g.Count() ==> NodeDone(g, cum, h.neighbors, i)
  }

  /** optimize_neighbors_by_id. The nodes' ranges are disjoint, so the order of the parallel
      loop does not matter. */
  method OptimizeNeighborsById(g: Graph, cum: seq<nat>) returns (h: Graph)
    requires EveryNodeOnLevel0(g, cum)
    ensures SortedLevel0(g, h, cum)
  {
    var table := new int[|g.neighbors|](k requires 0 <= k < |g.neighbors| => g.neighbors[k]);
    assert table[..] == g.neighbors;
    for i := 0 to g.Count()
      invariant Progress(g, cum, table[..], i)
    {
      OptimizeNode(g, cum, table, i);
    }
    h := g.(neighbors := table[..]);
    SortedValid(g, h, cum);
  }

  method OptimizeNode(g: Graph, cum: seq<nat>, table: array<int>, i: nat)
    requires EveryNodeOnLevel0(g, cum) && i < g.Count() && Progress(g, cum, table[..], i)
    modifies table
    ensures Progress(g, cum, table[..], i + 1)
  {
    NodeRange(g, cum, i);
    ghost var before := table[..];
    var begin, end := g.offsets[i], g.offsets[i] + cum[1];
    assert before[begin..end] == table[begin..end] && before[..begin] == table[..begin]
      && before[end..] == table[end..];
    NormalizeNode(table, begin, end);
    ghost var after := table[..];
    assert after[begin..end] == table[begin..end] && after[..begin] == table[..begin] && after[end..] == table[end..];
    ProgressNext(g, cum, before, after, i);
  }

  lemma SortedValid(g: Graph, h: Graph, cum: seq<nat>)
    requires EveryNodeOnLevel0(g, cum) && h.levels == g.levels && h.offsets == g.offsets && h.entryPoint == g.entryPoint
    requires |h.neighbors| == |g.neighbors| && forall i :: 0 <= i < g.Count() ==> NodeDone(g, cum, h.neighbors, i)
    ensures Valid(h, cum)
  {
    forall j | 0 <= j < |h.neighbors| ensures h.neighbors[j] < h.Count() {
      var i := Owner(g.offsets, g.Count(), j);
      SlotBound(g, cum, h.neighbors, i, j);
    }
  }

  lemma SlotBound(g: Graph, cum: seq<nat>, table: seq<int>, i: nat, j: nat)
    requires EveryNodeOnLevel0(g, cum) && i < g.Count() && |table| == |g.neighbors| && NodeDone(g, cum, table, i)
    requires g.offsets[i] <= j < g.offsets[i + 1]
    ensures j < |table| && table[j] < g.Count()
  {
    NodeRange(g, cum, i);
    StretchBound(table, g.neighbors, g.offsets[i], g.offsets[i] + cum[1], g.offsets[i + 1], g.Count(), j);
  }

  // ---------------------------------------------------------------------------
  // What a search sees
  // ---------------------------------------------------------------------------

  lemma InnerSlice(a: seq<int>, b: seq<int>, m: nat, e: nat, lo: nat, hi: nat)
    requires m <= lo <= hi <= e <= |a| == |b| && a[m..e] == b[m..e]
    ensures a[lo..hi] == b[lo..hi]
  {
    assert forall k :: m <= k < e ==> a[k] == a[m..e][k - m] && b[k] == b[m..e][k - m];
  }

  lemma LinksInTable(g: Graph, cum: seq<nat>, i: nat, level: nat)
    requires Valid(g, cum) && i < g.Count() && level < g.levels[i]
    ensures g.offsets[i] + cum[level] <= g.offsets[i] + cum[level + 1] <= |g.neighbors|
    ensures Links(g, cum, i, level)
         == UntilNegative(g.neighbors[g.offsets[i] + cum[level]..g.offsets[i] + cum[level + 1]])
  {
    LevelSlots(g, cum, i, level);
  }

  /** The stretch of node i, read as a fact about two tables. */
  lemma NodeStretch(g: Graph, h: Graph, cum: seq<nat>, i: nat)
    requires SortedLevel0(g, h, cum) && i < g.Count()
    ensures g.offsets[i] + cum[1] <= g.offsets[i + 1] <= |g.neighbors| == |h.neighbors|
    ensures Stretch(h.neighbors, g.neighbors, g.offsets[i], g.offsets[i] + cum[1], g.offsets[i + 1])
  {
    NodeRange(g, cum, i);
    assert NodeDone(g, cum, h.neighbors, i);
  }

  lemma LinksLevel0(g: Graph, h: Graph, cum: seq<nat>, i: nat)
    requires SortedLevel0(g, h, cum) && i < g.Count()
    ensures Ascending(Links(h, cum, i, 0)) && multiset(Links(h, cum, i, 0)) == multiset(Links(g, cum, i, 0))
  {
    NodeNormal(g, h, cum, i);
  }

  lemma NodeNormal(g: Graph, h: Graph, cum: seq<nat>, i: nat)
    requires SortedLevel0(g, h, cum) && i < g.Count()
    ensures Normal(LevelRun(g, cum, i, 0), LevelRun(h, cum, i, 0))
  {
    NodeStretch(g, h, cum, i);
    FirstRun(g, cum, i, g.offsets[i], g.offsets[i] + cum[1]);
    FirstRun(h, cum, i, g.offsets[i], g.offsets[i] + cum[1]);
  }

  lemma FirstRun(g: Graph, cum: seq<nat>, i: nat, o: nat, m: nat)
    requires EveryNodeOnLevel0(g, cum) && i < g.Count() && o == g.offsets[i] && m == g.offsets[i] + cum[1]
    ensures m <= |g.neighbors| && LevelRun(g, cum, i, 0) == g.neighbors[o..m]
  {
    LevelBounds(g, cum, i, 0);
    var run, slice := LevelRun(g, cum, i, 0), g.neighbors[o..m];
    assert |run| == |slice| && forall k :: 0 <= k < |run| ==> run[k] == slice[k];
  }

  lemma TableAbove(g: Graph, h: Graph, cum: seq<nat>, i: nat, level: nat)
    requires SortedLevel0(g, h, cum) && i < g.Count() && 0 < level < g.levels[i]
    ensures g.offsets[i] + cum[level] <= g.offsets[i] + cum[level + 1] <= |g.neighbors| == |h.neighbors|
    ensures h.neighbors[g.offsets[i] + cum[level]..g.offsets[i] + cum[level + 1]]
         == g.neighbors[g.offsets[i] + cum[level]..g.offsets[i] + cum[level + 1]]
  {
    NodeStretch(g, h, cum, i);
    CumOrder(cum, level, g.levels[i]);
    CumOrder(cum, 0, level);
    var o := g.offsets[i];
    InnerSlice(h.neighbors, g.neighbors, o + cum[1], g.offsets[i + 1], o + cum[level], o + cum[level + 1]);
  }

  lemma LinksAbove(g: Graph, h: Graph, cum: seq<nat>, i: nat, level: nat)
    requires SortedLevel0(g, h, cum) && i < g.Count() && 0 < level < g.levels[i]
    ensures Links(h, cum, i, level) == Links(g, cum, i, level)
  {
    TableAbove(g, h, cum, i, level);
    LinksInTable(g, cum, i, level);
    LinksInTable(h, cum, i, level);
  }

  /** Level 0 is the same list sorted; the other levels are untouched. */
  lemma SortedLinks(g: Graph, h: Graph, cum: seq<nat>, i: nat, level: nat)
    requires SortedLevel0(g, h, cum) && i < g.Count() && level < g.levels[i]
    ensures multiset(Links(h, cum, i, level)) == multiset(Links(g, cum, i, level))
    ensures if level == 0 then Ascending(Links(h, cum, i, level))
            else Links(h, cum, i, level) == Links(g, cum, i, level)
  {
    if level == 0 {
      LinksLevel0(g, h, cum, i);
    } else {
      LinksAbove(g, h, cum, i, level);
    }
  }

  /** The edge set after ROrder is the old one under the new names, on every level. */
  lemma ROrderKeepsEdges(g: Graph, p: Graph, h: Graph, cum: seq<nat>, newToOld: seq<nat>, inv: seq<nat>, i: nat,
                         level: nat, v: nat)
    requires Renumbered(g, p, cum, newToOld, inv) && SortedLevel0(p, h, cum)
    requires i < g.Count() && level < h.levels[i] && v < g.Count()
    ensures newToOld[i] < g.Count() && newToOld[v] < g.Count() && level < g.levels[newToOld[i]]
    ensures v in Links(h, cum, i, level) <==> newToOld[v] in Links(g, cum, newToOld[i], level)
    ensures multiset(Links(h, cum, i, level)) == multiset(Relabel(inv, Links(g, cum, newToOld[i], level)))
  {
    RenumberedLinks(g, p, cum, newToOld, inv, i, level);
    SortedLinks(p, h, cum, i, level);
    SameMembers(Links(h, cum, i, level), Links(p, cum, i, level), v);
    RelabelMember(newToOld, inv, Links(g, cum, newToOld[i], level), v);
  }

  lemma RelabelMember(newToOld: seq<nat>, inv: seq<nat>, list: seq<int>, v: nat)
    requires Inverse(newToOld, inv) && v < |inv| && forall k :: 0 <= k < |list| ==> 0 <= list[k] < |inv|
    ensures v in Relabel(inv, list) <==> newToOld[v] in list
  {
    if newToOld[v] in list {
      var k :| 0 <= k < |list| && list[k] == newToOld[v];
      assert Relabel(inv, list)[k] == v;
    }
    if v in Relabel(inv, list) {
      var k :| 0 <= k < |list| && Relabel(inv, list)[k] == v;
      assert list[k] == newToOld[v];
    }
  }

  lemma SortedLevelled(g: Graph, h: Graph, cum: seq<nat>)
    requires SortedLevel0(g, h, cum) && Levelled(g, cum)
    ensures Levelled(h, cum)
  {
    forall i: nat, level: nat | i < h.Count() && level < h.levels[i] ensures StaysOn(h, cum, i, level) {
      SortedLinks(g, h, cum, i, level);
      assert StaysOn(g, cum, i, level);
      forall k | 0 <= k < |Links(h, cum, i, level)| ensures h.levels[Links(h, cum, i, level)[k]] > level {
        SameMembers(Links(h, cum, i, level), Links(g, cum, i, level), Links(h, cum, i, level)[k]);
      }
    }
  }

  /** Sorting level 0 leaves every greedy step above it alone. */
  lemma {:induction false} GreedyAboveLevel0(g: Graph, h: Graph, cum: seq<nat>, dist: seq<real>, level: nat, cur: nat)
    requires SortedLevel0(g, h, cum) && Ready(g, cum, dist, level, cur) && level > 0
    ensures Ready(h, cum, dist, level, cur) && Greedy(h, cum, dist, level, cur) == Greedy(g, cum, dist, level, cur)
    decreases |Nearer(dist, |dist|, dist[cur])|
  {
    SortedLevelled(g, h, cum);
    SortedLinks(g, h, cum, cur, level);
    var next := Scan(Links(g, cum, cur, level), dist, cur);
    if next != cur {
      HopStays(g, cum, dist, level, cur);
      FewerNearer(dist, next, cur);
      GreedyAboveLevel0(g, h, cum, dist, level, next);
    }
  }

  lemma DescendAboveLevel0(g: Graph, h: Graph, cum: seq<nat>, dist: seq<real>, level: nat, cur: nat)
    requires SortedLevel0(g, h, cum) && Ready(g, cum, dist, level, cur)
    ensures Ready(h, cum, dist, level, cur) && Descend(h, cum, dist, level, cur) == Descend(g, cum, dist, level, cur)
  {
    var hop, sortedHop := GreedyHop(g, cum, dist), GreedyHop(h, cum, dist);
    var same := (level: nat, a: nat, b: nat) => Ready(g, cum, dist, level, a) && a == b;
    forall level: nat, a: nat, b: nat | level > 0 && same(level, a, b)
      ensures same(level - 1, hop(level, a), sortedHop(level, b))
    {
      GreedyAboveLevel0(g, h, cum, dist, level, a);
    }
    IterateInStep(hop, sortedHop, same, level, cur, cur);
    SortedLevelled(g, h, cum);
  }

  /** After ROrder every query enters level 0 at the node it entered before, renamed. */
  lemma ROrderKeepsEntry(g: Graph, p: Graph, h: Graph, cum: seq<nat>, newToOld: seq<nat>, inv: seq<nat>,
                         dist: seq<real>, level: nat, cur: nat)
    requires Renumbered(g, p, cum, newToOld, inv) && SortedLevel0(p, h, cum) && Ready(g, cum, dist, level, cur)
    ensures Ready(h, cum, Gather(dist, newToOld), level, inv[cur]) && Descend(g, cum, dist, level, cur) < |inv|
    ensures Descend(h, cum, Gather(dist, newToOld), level, inv[cur]) == inv[Descend(g, cum, dist, level, cur)]
  {
    DescendCommutes(g, p, cum, newToOld, inv, dist, level, cur);
    DescendAboveLevel0(p, h, cum, Gather(dist, newToOld), level, inv[cur]);
  }
}
