/** The greedy descent through the upper HNSW levels, and why a layout does not change it.

    `dist` is the query's distance to every node. A search that meets the same links in the
    same order, under other names, ends at the same node under its other name.
 */
module HnswGreedy {
  import opened HnswLayout
  import opened Permutation

  /** Node i's links on a level lead to nodes that exist on that level. */
  ghost predicate StaysOn(g: Graph, cum: seq<nat>, i: nat, level: nat)
    requires Valid(g, cum) && i < g.Count() && level < g.levels[i]
  {
    forall k :: 0 <= k < |Links(g, cum, i, level)| ==> g.levels[Links(g, cum, i, level)[k]] > level
  }

  ghost predicate Levelled(g: Graph, cum: seq<nat>)
    requires Valid(g, cum)
  {
    forall i: nat, level: nat :: i < g.Count() && level < g.levels[i] ==> StaysOn(g, cum, i, level)
  }

  // ---------------------------------------------------------------------------
  // One hop
  // ---------------------------------------------------------------------------

  /** The baseline scan: move on every strictly smaller distance. */
  function Scan(list: seq<int>, dist: seq<real>, best: nat): (r: nat)
    requires best < |dist| && forall k :: 0 <= k < |list| ==> 0 <= list[k] < |dist|
    ensures r < |dist| && (r == best || r in list) && dist[r] <= dist[best] && (r != best ==> dist[r] < dist[best])
  {
    if |list| == 0 then best
    else
      var b := Scan(list[..|list| - 1], dist, best);
      var v := list[|list| - 1];
      if dist[v] < dist[b] then v else b
  }

  lemma ScanExtend(list: seq<int>, dist: seq<real>, best: nat, k: nat)
    requires best < |dist| && forall h :: 0 <= h < |list| ==> 0 <= list[h] < |dist|
    requires k < |list|
    ensures Scan(list[..k + 1], dist, best)
         == (if dist[list[k]] < dist[Scan(list[..k], dist, best)] then list[k] else Scan(list[..k], dist, best))
  {
    assert list[..k + 1][..k] == list[..k];
  }

  /** The scan greedy_update_nearest really runs: candidates are buffered, measured four at a
      time, and compared in order. */
  method BufferedScan(slots: seq<int>, dist: seq<real>, best0: nat) returns (nearest: nat)
    requires best0 < |dist| && forall k :: 0 <= k < |slots| ==> slots[k] < |dist|
    ensures nearest == Scan(UntilNegative(slots), dist, best0)
  {
    ghost var list := UntilNegative(slots);
    nearest := best0;
    var buffer: seq<nat> := [];
    var j := 0;
    ghost var done := 0;
    while j < |slots| && slots[j] >= 0
      invariant |buffer| < 4 && Pending(list, done, j, buffer)
      invariant nearest == Scan(list[..done], dist, best0)
      decreases |slots| - j
    {
      assert j < |list| && slots[j] == list[j];
      buffer := buffer + [slots[j]];
      j := j + 1;
      if |buffer| == 4 {
        nearest := Flush(list, done, j, buffer, dist, nearest, best0);
        buffer, done := [], j;
      }
    }
    nearest := Flush(list, done, j, buffer, dist, nearest, best0);
    assert list[..j] == list;
  }

  /** The buffer holds the candidates from `done` to `j`. */
  ghost predicate Pending(list: seq<int>, done: nat, j: nat, buffer: seq<nat>) {
    done <= j <= |list| && |buffer| == j - done && forall k :: 0 <= k < |buffer| ==> buffer[k] == list[done + k]
  }

  method Flush(ghost list: seq<int>, ghost done: nat, ghost j: nat, buffer: seq<nat>, dist: seq<real>, nearest0: nat,
               ghost best0: nat)
    returns (nearest: nat)
    requires best0 < |dist| && forall h :: 0 <= h < |list| ==> 0 <= list[h] < |dist|
    requires Pending(list, done, j, buffer) && nearest0 == Scan(list[..done], dist, best0)
    ensures nearest == Scan(list[..j], dist, best0)
  {
    nearest := nearest0;
    for k := 0 to |buffer|
      invariant nearest == Scan(list[..done + k], dist, best0)
    {
      ScanExtend(list, dist, best0, done + k);
      if dist[buffer[k]] < dist[nearest] {
        nearest := buffer[k];
      }
    }
  }

  // ---------------------------------------------------------------------------
  // Descent
  // ---------------------------------------------------------------------------

  ghost function Nearer(dist: seq<real>, n: nat, d: real): (s: set<nat>)
    requires n <= |dist|
    ensures forall i: nat :: i in s <==> i < n && dist[i] < d
  {
    if n == 0 then {} else Nearer(dist, n - 1, d) + (if dist[n - 1] < d then {n - 1} else {})
  }

  lemma FewerNearer(dist: seq<real>, a: nat, b: nat)
    requires a < |dist| && b < |dist| && dist[a] < dist[b]
    ensures |Nearer(dist, |dist|, dist[a])| < |Nearer(dist, |dist|, dist[b])|
  {
    var s, t := Nearer(dist, |dist|, dist[a]), Nearer(dist, |dist|, dist[b]);
    assert s <= t - {a};
    SubsetSize(s, t - {a});
  }

  ghost predicate Ready(g: Graph, cum: seq<nat>, dist: seq<real>, level: nat, cur: nat) {
    Valid(g, cum) && Levelled(g, cum) && |dist| == g.Count() && cur < g.Count() && level < g.levels[cur]
  }

  /** A hop leads to a node of the same level. */
  lemma HopStays(g: Graph, cum: seq<nat>, dist: seq<real>, level: nat, cur: nat)
    requires Ready(g, cum, dist, level, cur)
    ensures Ready(g, cum, dist, level, Scan(Links(g, cum, cur, level), dist, cur))
  {
    assert StaysOn(g, cum, cur, level);
  }

  /** Hop to the best link until no link is strictly better. */
  ghost function Greedy(g: Graph, cum: seq<nat>, dist: seq<real>, level: nat, cur: nat): (r: nat)
    requires Ready(g, cum, dist, level, cur)
    ensures Ready(g, cum, dist, level, r)
    decreases |Nearer(dist, |dist|, dist[cur])|
  {
    var next := Scan(Links(g, cum, cur, level), dist, cur);
    HopStays(g, cum, dist, level, cur);
    if next == cur then cur else FewerNearer(dist, next, cur); Greedy(g, cum, dist, level, next)
  }

  /** The first of the nearest links, if it is strictly nearer than the node itself. */
  ghost predicate BestLink(links: seq<int>, dist: seq<real>, cur: nat, next: nat) {
    && cur < |dist| && next < |dist| && dist[next] < dist[cur]
    && exists k :: 0 <= k < |links| && links[k] == next
         && (forall j :: 0 <= j < |links| ==> 0 <= links[j] < |dist| && dist[next] <= dist[links[j]])
         && (forall j :: 0 <= j < k ==> dist[next] < dist[links[j]])
  }

  /** No link is nearer than the node itself. */
  ghost predicate NoneNearer(links: seq<int>, dist: seq<real>, cur: nat) {
    cur < |dist| && forall j :: 0 <= j < |links| ==> 0 <= links[j] < |dist| && dist[cur] <= dist[links[j]]
  }

  lemma {:induction false} ScanMeaning(links: seq<int>, dist: seq<real>, cur: nat)
    requires cur < |dist| && forall k :: 0 <= k < |links| ==> 0 <= links[k] < |dist|
    ensures
      var next := Scan(links, dist, cur);
      if next == cur then NoneNearer(links, dist, cur) else BestLink(links, dist, cur, next)
  {
    if |links| > 0 {
      var n := |links| - 1;
      ScanMeaning(links[..n], dist, cur);
      BestOfMore(links[..n], links, dist, cur, Scan(links[..n], dist, cur));
    }
  }

  lemma BestOfMore(some: seq<int>, links: seq<int>, dist: seq<real>, cur: nat, b: nat)
    requires |links| == |some| + 1 && links[..|some|] == some && 0 <= links[|some|] < |dist| && cur < |dist|
    requires if b == cur then NoneNearer(some, dist, cur) else BestLink(some, dist, cur, b)
    ensures
      var v := links[|some|];
      if dist[v] < dist[b] then BestLink(links, dist, cur, v)
      else if b == cur then NoneNearer(links, dist, cur) else BestLink(links, dist, cur, b)
  {
    var n, v := |some|, links[|some|];
    assert forall j :: 0 <= j < n ==> links[j] == some[j];
    if dist[v] < dist[b] {
      assert links[n] == v;
    } else if b != cur {
      var k :| 0 <= k < n && some[k] == b && (forall j :: 0 <= j < k ==> dist[b] < dist[some[j]]);
      assert links[k] == b;
    }
  }

  /** The links of every node on a level. */
  ghost function LinksOn(g: Graph, cum: seq<nat>, level: nat): nat -> seq<int>
    requires Valid(g, cum)
  {
    (i: nat) => if i < g.Count() && level < g.levels[i] then Links(g, cum, i, level) else []
  }

  /** A walk from its first node to its last, always to the best link, until no link is nearer. */
  ghost predicate Walks(links: nat -> seq<int>, dist: seq<real>, path: seq<nat>) {
    && |path| > 0 && NoneNearer(links(path[|path| - 1]), dist, path[|path| - 1])
    && forall i :: 0 <= i < |path| - 1 ==> Hops(links, dist, path, i)
  }

  ghost predicate Hops(links: nat -> seq<int>, dist: seq<real>, path: seq<nat>, i: nat) {
    i + 1 < |path| && BestLink(links(path[i]), dist, path[i], path[i + 1])
  }

  ghost predicate Reaches(links: nat -> seq<int>, dist: seq<real>, from: nat, to: nat) {
    exists path: seq<nat> :: Walks(links, dist, path) && path[0] == from && path[|path| - 1] == to
  }

  lemma StaysPut(links: nat -> seq<int>, dist: seq<real>, cur: nat)
    requires NoneNearer(links(cur), dist, cur)
    ensures Reaches(links, dist, cur, cur)
  {
    assert Walks(links, dist, [cur]);
  }

  lemma HopsFirst(links: nat -> seq<int>, dist: seq<real>, cur: nat, next: nat, to: nat)
    requires BestLink(links(cur), dist, cur, next) && Reaches(links, dist, next, to)
    ensures Reaches(links, dist, cur, to)
  {
    var path: seq<nat> :| Walks(links, dist, path) && path[0] == next && path[|path| - 1] == to;
    var longer := [cur] + path;
    forall i | 0 <= i < |longer| - 1 ensures Hops(links, dist, longer, i) {
      assert i > 0 ==> Hops(links, dist, path, i - 1);
    }
    assert Walks(links, dist, longer);
  }

  /** Greedy search is that walk. */
  lemma {:induction false} GreedyReaches(g: Graph, cum: seq<nat>, dist: seq<real>, level: nat, cur: nat)
    requires Ready(g, cum, dist, level, cur)
    ensures Reaches(LinksOn(g, cum, level), dist, cur, Greedy(g, cum, dist, level, cur))
    decreases |Nearer(dist, |dist|, dist[cur])|
  {
    var next, links := Scan(Links(g, cum, cur, level), dist, cur), LinksOn(g, cum, level);
    ScanMeaning(Links(g, cum, cur, level), dist, cur);
    if next == cur {
      StaysPut(links, dist, cur);
    } else {
      HopStays(g, cum, dist, level, cur);
      FewerNearer(dist, next, cur);
      GreedyReaches(g, cum, dist, level, next);
      HopsFirst(links, dist, cur, next, Greedy(g, cum, dist, level, next));
    }
  }

  /** Where greedy stops no link is closer. */
  lemma {:induction false} GreedyIsLocalMinimum(g: Graph, cum: seq<nat>, dist: seq<real>, level: nat, cur: nat)
    requires Ready(g, cum, dist, level, cur)
    ensures
      var r := Greedy(g, cum, dist, level, cur);
      dist[r] <= dist[cur] && forall k :: 0 <= k < |Links(g, cum, r, level)| ==>
        dist[r] <= dist[Links(g, cum, r, level)[k]]
    decreases |Nearer(dist, |dist|, dist[cur])|
  {
    var next := Scan(Links(g, cum, cur, level), dist, cur);
    if next == cur {
      ScanIsMinimum(Links(g, cum, cur, level), dist, cur);
    } else {
      HopStays(g, cum, dist, level, cur);
      FewerNearer(dist, next, cur);
      GreedyIsLocalMinimum(g, cum, dist, level, next);
    }
  }

  lemma {:induction false} ScanIsMinimum(list: seq<int>, dist: seq<real>, best: nat)
    requires best < |dist| && forall k :: 0 <= k < |list| ==> 0 <= list[k] < |dist|
    ensures forall k :: 0 <= k < |list| ==> dist[Scan(list, dist, best)] <= dist[list[k]]
  {
    if |list| > 0 {
      ScanIsMinimum(list[..|list| - 1], dist, best);
    }
  }

  /** The range neighbor_range computes. */
  lemma LevelSlots(g: Graph, cum: seq<nat>, i: nat, level: nat)
    requires Valid(g, cum) && i < g.Count() && level < g.levels[i]
    ensures cum[level] <= cum[level + 1] <= |Slots(g, cum, i)| && g.offsets[i] + cum[level + 1] <= |g.neighbors|
    ensures g.neighbors[g.offsets[i] + cum[level]..g.offsets[i] + cum[level + 1]] == LevelRun(g, cum, i, level)
    ensures Slots(g, cum, i)[cum[level]..cum[level + 1]] == LevelRun(g, cum, i, level)
  {
    LevelBounds(g, cum, i, level);
    InnerRange(g.neighbors, g.offsets[i], g.offsets[i + 1], cum[level], cum[level + 1]);
  }

  lemma InnerRange(s: seq<int>, a: nat, b: nat, lo: nat, hi: nat)
    requires lo <= hi && a + hi <= b <= |s|
    ensures s[a + lo..a + hi] == s[a..b][lo..hi]
  {
    var l, r := s[a + lo..a + hi], s[a..b][lo..hi];
    assert |l| == |r|;
    forall k | 0 <= k < |l| ensures l[k] == r[k] {
      assert l[k] == s[a + lo + k];
      assert r[k] == s[a..b][lo + k];
    }
  }

  /** neighbor_range, and what lies there. */
  method NeighborRange(g: Graph, cum: seq<nat>, i: nat, level: nat) returns (slots: seq<int>)
    requires Valid(g, cum) && i < g.Count() && level < g.levels[i]
    ensures UntilNegative(slots) == Links(g, cum, i, level)
    ensures forall k :: 0 <= k < |slots| ==> slots[k] < g.Count()
  {
    LevelSlots(g, cum, i, level);
    var begin, end := g.offsets[i] + cum[level], g.offsets[i] + cum[level + 1];
    slots := g.neighbors[begin..end];
  }

  /** One pass of the outer loop. */
  method Hop(g: Graph, cum: seq<nat>, dist: seq<real>, level: nat, cur: nat) returns (next: nat)
    requires Valid(g, cum) && |dist| == g.Count() && cur < g.Count() && level < g.levels[cur]
    ensures next == Scan(Links(g, cum, cur, level), dist, cur)
  {
    var slots := NeighborRange(g, cum, cur, level);
    next := BufferedScan(slots, dist, cur);
  }

  /** greedy_update_nearest */
  method GreedyUpdateNearest(g: Graph, cum: seq<nat>, dist: seq<real>, level: nat, cur: nat) returns (nearest: nat)
    requires Ready(g, cum, dist, level, cur)
    ensures nearest == Greedy(g, cum, dist, level, cur) && Reaches(LinksOn(g, cum, level), dist, cur, nearest)
  {
    GreedyReaches(g, cum, dist, level, cur);
    nearest := cur;
    while true
      invariant Ready(g, cum, dist, level, nearest)
      invariant Greedy(g, cum, dist, level, nearest) == Greedy(g, cum, dist, level, cur)
      decreases |Nearer(dist, |dist|, dist[nearest])|
    {
      var previous := nearest;
      HopStays(g, cum, dist, level, nearest);
      nearest := Hop(g, cum, dist, level, nearest);
      if nearest == previous {
        return;
      }
      FewerNearer(dist, nearest, previous);
    }
  }

  // ---------------------------------------------------------------------------
  // Renumbering changes nothing but names
  // ---------------------------------------------------------------------------

  lemma RelabelUntilNegative(inv: seq<nat>, s: seq<int>)
    requires forall k :: 0 <= k < |s| ==> s[k] < |inv|
    ensures UntilNegative(Relabel(inv, s)) == Relabel(inv, UntilNegative(s))
  {
    PrefixIs(Relabel(inv, s), Relabel(inv, UntilNegative(s)));
  }

  lemma RelabelSlice(inv: seq<nat>, s: seq<int>, lo: nat, hi: nat)
    requires lo <= hi <= |s| && forall k :: 0 <= k < |s| ==> s[k] < |inv|
    ensures Relabel(inv, s)[lo..hi] == Relabel(inv, s[lo..hi])
  {
  }

  /** Every node keeps its links, in order, under the new names. */
  lemma RenumberedLinks(g: Graph, h: Graph, cum: seq<nat>, newToOld: seq<nat>, inv: seq<nat>, i: nat, level: nat)
    requires Renumbered(g, h, cum, newToOld, inv) && i < g.Count() && level < h.levels[i]
    ensures newToOld[i] < g.Count() && level < g.levels[newToOld[i]]
    ensures Links(h, cum, i, level) == Relabel(inv, Links(g, cum, newToOld[i], level))
  {
    LevelSlots(g, cum, newToOld[i], level);
    LevelSlots(h, cum, i, level);
    RelabelSlice(inv, Slots(g, cum, newToOld[i]), cum[level], cum[level + 1]);
    RelabelUntilNegative(inv, LevelRun(g, cum, newToOld[i], level));
  }

  lemma {:induction false} ScanRelabel(list: seq<int>, dist: seq<real>, newToOld: seq<nat>, inv: seq<nat>, best: nat)
    requires Inverse(newToOld, inv) && |inv| == |dist| && best < |dist|
    requires forall k :: 0 <= k < |list| ==> 0 <= list[k] < |dist|
    ensures Scan(Relabel(inv, list), Gather(dist, newToOld), inv[best]) == inv[Scan(list, dist, best)]
  {
    if |list| > 0 {
      var n := |list| - 1;
      ScanRelabel(list[..n], dist, newToOld, inv, best);
      assert Relabel(inv, list)[..n] == Relabel(inv, list[..n]);
    }
  }

  lemma RenumberedLevelled(g: Graph, h: Graph, cum: seq<nat>, newToOld: seq<nat>, inv: seq<nat>)
    requires Renumbered(g, h, cum, newToOld, inv) && Levelled(g, cum)
    ensures Levelled(h, cum)
  {
    forall i: nat, level: nat | i < h.Count() && level < h.levels[i] ensures StaysOn(h, cum, i, level) {
      RenumberedLinks(g, h, cum, newToOld, inv, i, level);
      assert StaysOn(g, cum, newToOld[i], level);
      RelabelledLevels(g, h, newToOld, inv, Links(g, cum, newToOld[i], level), level);
    }
  }

  lemma RelabelledLevels(g: Graph, h: Graph, newToOld: seq<nat>, inv: seq<nat>, list: seq<int>, level: nat)
    requires Inverse(newToOld, inv) && |newToOld| == g.Count() == h.Count()
    requires forall i :: 0 <= i < g.Count() ==> h.levels[i] == g.levels[newToOld[i]]
    requires forall k :: 0 <= k < |list| ==> 0 <= list[k] < g.Count() && g.levels[list[k]] > level
    ensures forall k :: 0 <= k < |list| ==> h.levels[Relabel(inv, list)[k]] > level
  {
  }

  /** Greedy search on a renumbered graph visits the renamed nodes, so it ends at the renamed node. */
  lemma {:induction false} GreedyCommutes(g: Graph, h: Graph, cum: seq<nat>, newToOld: seq<nat>, inv: seq<nat>,
                                          dist: seq<real>, level: nat, cur: nat)
    requires Renumbered(g, h, cum, newToOld, inv) && Ready(g, cum, dist, level, cur)
    ensures Ready(h, cum, Gather(dist, newToOld), level, inv[cur])
    ensures Greedy(h, cum, Gather(dist, newToOld), level, inv[cur]) == inv[Greedy(g, cum, dist, level, cur)]
    decreases |Nearer(dist, |dist|, dist[cur])|
  {
    RenumberedLevelled(g, h, cum, newToOld, inv);
    RenumberedLinks(g, h, cum, newToOld, inv, inv[cur], level);
    ScanRelabel(Links(g, cum, cur, level), dist, newToOld, inv, cur);
    var next := Scan(Links(g, cum, cur, level), dist, cur);
    if next != cur {
      HopStays(g, cum, dist, level, cur);
      FewerNearer(dist, next, cur);
      GreedyCommutes(g, h, cum, newToOld, inv, dist, level, next);
    }
  }

  // ---------------------------------------------------------------------------
  // The whole descent
  // ---------------------------------------------------------------------------

  /** A hop on level `level`, then on the one below, down to level 1. */
  ghost function Iterate(hop: (nat, nat) -> nat, level: nat, cur: nat): nat {
    if level == 0 then cur else Iterate(hop, level - 1, hop(level, cur))
  }

  /** One hop on each side takes related nodes of a level to related nodes of the next. */
  ghost predicate InStep(hop: (nat, nat) -> nat, other: (nat, nat) -> nat, related: (nat, nat, nat) -> bool) {
    forall level: nat, a: nat, b: nat ::
      level > 0 && related(level, a, b) ==> related(level - 1, hop(level, a), other(level, b))
  }

  lemma {:induction false} IterateInStep(hop: (nat, nat) -> nat, other: (nat, nat) -> nat,
                                         related: (nat, nat, nat) -> bool, level: nat, a: nat, b: nat)
    requires InStep(hop, other, related) && related(level, a, b)
    ensures related(0, Iterate(hop, level, a), Iterate(other, level, b))
    decreases level
  {
    if level > 0 {
      IterateInStep(hop, other, related, level - 1, hop(level, a), other(level, b));
    }
  }

  ghost function GreedyHop(g: Graph, cum: seq<nat>, dist: seq<real>): (nat, nat) -> nat {
    (level: nat, cur: nat) => if Ready(g, cum, dist, level, cur) then Greedy(g, cum, dist, level, cur) else cur
  }

  /** Greedy search on one level after the other, down to the entry into level 0. */
  ghost function Descend(g: Graph, cum: seq<nat>, dist: seq<real>, level: nat, cur: nat): nat {
    Iterate(GreedyHop(g, cum, dist), level, cur)
  }

  /** Which node a walk on a level takes which to. */
  ghost function WalkOn(g: Graph, cum: seq<nat>, dist: seq<real>): (nat, nat, nat) -> bool {
    (level: nat, from: nat, to: nat) => Valid(g, cum) && Reaches(LinksOn(g, cum, level), dist, from, to)
  }

  /** One stop per level: the entry point above the top level, then the end of each level's walk. */
  ghost predicate Stops(walk: (nat, nat, nat) -> bool, stops: seq<nat>) {
    forall level: nat :: 1 <= level < |stops| ==> StopsAt(walk, stops, level)
  }

  ghost predicate StopsAt(walk: (nat, nat, nat) -> bool, stops: seq<nat>, level: nat) {
    1 <= level < |stops| && walk(level, stops[level], stops[level - 1])
  }

  lemma OneMoreStop(walk: (nat, nat, nat) -> bool, lower: seq<nat>, level: nat, cur: nat)
    requires Stops(walk, lower) && |lower| == level > 0 && walk(level, cur, lower[level - 1])
    ensures Stops(walk, lower + [cur])
  {
    var stops := lower + [cur];
    forall l: nat | 1 <= l < |stops| ensures StopsAt(walk, stops, l) {
      assert l < level ==> StopsAt(walk, lower, l);
    }
  }

  lemma LevelWalked(g: Graph, cum: seq<nat>, dist: seq<real>, level: nat, cur: nat)
    requires Ready(g, cum, dist, level, cur) && level > 0
    ensures
      var next := GreedyHop(g, cum, dist)(level, cur);
      WalkOn(g, cum, dist)(level, cur, next) && Ready(g, cum, dist, level - 1, next)
  {
    GreedyReaches(g, cum, dist, level, cur);
  }

  lemma {:induction false} IterateStops(hop: (nat, nat) -> nat, walk: (nat, nat, nat) -> bool, fit: (nat, nat) -> bool,
                                        level: nat, cur: nat)
    returns (stops: seq<nat>)
    requires forall l: nat, c: nat :: l > 0 && fit(l, c) ==> walk(l, c, hop(l, c)) && fit(l - 1, hop(l, c))
    requires fit(level, cur)
    ensures |stops| == level + 1 && stops[level] == cur && stops[0] == Iterate(hop, level, cur) && Stops(walk, stops)
    decreases level
  {
    if level == 0 {
      stops := [cur];
    } else {
      stops := IterateStops(hop, walk, fit, level - 1, hop(level, cur));
      OneMoreStop(walk, stops, level, cur);
      stops := stops + [cur];
    }
  }

  /** The descent by its stops, said without it. */
  lemma DescendStops(g: Graph, cum: seq<nat>, dist: seq<real>, level: nat, cur: nat) returns (stops: seq<nat>)
    requires Ready(g, cum, dist, level, cur)
    ensures |stops| == level + 1 && stops[level] == cur && stops[0] == Descend(g, cum, dist, level, cur)
    ensures Stops(WalkOn(g, cum, dist), stops)
  {
    var hop, walk := GreedyHop(g, cum, dist), WalkOn(g, cum, dist);
    var fit := (l: nat, c: nat) => Ready(g, cum, dist, l, c);
    forall l: nat, c: nat | l > 0 && fit(l, c) ensures walk(l, c, hop(l, c)) && fit(l - 1, hop(l, c)) {
      LevelWalked(g, cum, dist, l, c);
    }
    stops := IterateStops(hop, walk, fit, level, cur);
  }

  /** The upper levels of HNSW::search. */
  method UpperLevels(g: Graph, cum: seq<nat>, dist: seq<real>, maxLevel: nat, entry: nat)
    returns (nearest: nat, ghost stops: seq<nat>)
    requires Ready(g, cum, dist, maxLevel, entry)
    ensures nearest == Descend(g, cum, dist, maxLevel, entry)
    ensures |stops| == maxLevel + 1 && stops[maxLevel] == entry && stops[0] == nearest
    ensures Stops(WalkOn(g, cum, dist), stops)
  {
    stops := DescendStops(g, cum, dist, maxLevel, entry);
    nearest := LevelByLevel(g, cum, dist, maxLevel, entry);
  }

  /** The loop over the levels. */
  method LevelByLevel(g: Graph, cum: seq<nat>, dist: seq<real>, maxLevel: nat, entry: nat) returns (nearest: nat)
    requires Ready(g, cum, dist, maxLevel, entry)
    ensures nearest == Descend(g, cum, dist, maxLevel, entry)
  {
    nearest := entry;
    for level := maxLevel downto 0
      invariant Ready(g, cum, dist, level, nearest)
      invariant Descend(g, cum, dist, level, nearest) == Descend(g, cum, dist, maxLevel, entry)
    {
      nearest := OneLevel(g, cum, dist, level + 1, nearest);
    }
  }

  method OneLevel(g: Graph, cum: seq<nat>, dist: seq<real>, level: nat, cur: nat) returns (next: nat)
    requires Ready(g, cum, dist, level, cur) && level > 0
    ensures Ready(g, cum, dist, level - 1, next)
    ensures Descend(g, cum, dist, level - 1, next) == Descend(g, cum, dist, level, cur)
  {
    next := GreedyUpdateNearest(g, cum, dist, level, cur);
  }

  /** A descent never ends further from the query than it began. */
  lemma DescendImproves(g: Graph, cum: seq<nat>, dist: seq<real>, level: nat, cur: nat)
    requires Ready(g, cum, dist, level, cur)
    ensures Ready(g, cum, dist, 0, Descend(g, cum, dist, level, cur))
    ensures dist[Descend(g, cum, dist, level, cur)] <= dist[cur]
  {
    var hop, stay := GreedyHop(g, cum, dist), (level: nat, b: nat) => b;
    var nearer := (level: nat, a: nat, b: nat) => Ready(g, cum, dist, level, a) && b < |dist| && dist[a] <= dist[b];
    forall level: nat, a: nat, b: nat | level > 0 && nearer(level, a, b)
      ensures nearer(level - 1, hop(level, a), stay(level, b))
    {
      GreedyIsLocalMinimum(g, cum, dist, level, a);
    }
    IterateInStep(hop, stay, nearer, level, cur, cur);
    StayPut(stay, level, cur);
  }

  lemma {:induction false} StayPut(stay: (nat, nat) -> nat, level: nat, cur: nat)
    requires forall level: nat, b: nat :: stay(level, b) == b
    ensures Iterate(stay, level, cur) == cur
  {
    if level > 0 {
      StayPut(stay, level - 1, cur);
    }
  }

  /** The level-0 search starts from the same node, renamed. */
  lemma DescendCommutes(g: Graph, h: Graph, cum: seq<nat>, newToOld: seq<nat>, inv: seq<nat>,
                        dist: seq<real>, level: nat, cur: nat)
    requires Renumbered(g, h, cum, newToOld, inv) && Ready(g, cum, dist, level, cur)
    ensures Ready(h, cum, Gather(dist, newToOld), level, inv[cur]) && Descend(g, cum, dist, level, cur) < |inv|
    ensures Descend(h, cum, Gather(dist, newToOld), level, inv[cur]) == inv[Descend(g, cum, dist, level, cur)]
  {
    var hop, renamedHop := GreedyHop(g, cum, dist), GreedyHop(h, cum, Gather(dist, newToOld));
    var renamed := (level: nat, a: nat, b: nat) => Ready(g, cum, dist, level, a) && a < |inv| && b == inv[a];
    forall level: nat, a: nat, b: nat | level > 0 && renamed(level, a, b)
      ensures renamed(level - 1, hop(level, a), renamedHop(level, b))
    {
      GreedyCommutes(g, h, cum, newToOld, inv, dist, level, a);
    }
    GreedyCommutes(g, h, cum, newToOld, inv, dist, level, cur);
    IterateInStep(hop, renamedHop, renamed, level, cur, inv[cur]);
  }
}
