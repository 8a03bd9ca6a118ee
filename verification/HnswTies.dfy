/** Queries that a layout does change: whenever two nodes are equally far from the query there is a
    graph on which the answer depends on their names, and one on which it depends on the order of
    a list. So the layouts keep every answer exactly when no two nodes are equally far.
 */
module HnswTies {
  import opened HeapResults
  import opened HnswAnswers
  import opened HnswGreedy
  import opened HnswLayout
  import opened HnswResults
  import opened HnswROrder
  import opened HnswSearch
  import opened MinimaxHeaps
  import opened Permutation

  // ---------------------------------------------------------------------------
  // Graphs with two slots per node
  // ---------------------------------------------------------------------------

  const CUM: seq<nat> := [0, 2]

  /** Node i links to first[i] and second[i], or to fewer nodes if one of them is -1. */
  function Pairs(first: seq<int>, second: seq<int>, entry: int): Graph
    requires |first| == |second|
  {
    var n := |first|;
    Graph(seq(n, _ => 1), seq(n + 1, i requires 0 <= i <= n => 2 * i),
          seq(2 * n, t requires 0 <= t < 2 * n => if t % 2 == 0 then first[t / 2] else second[t / 2]), entry)
  }

  ghost predicate Linked(first: seq<int>, second: seq<int>, entry: int) {
    && |first| == |second| && -1 <= entry < |first|
    && forall i :: 0 <= i < |first| ==> first[i] < |first| && second[i] < |first|
  }

  lemma PairsAreValid(first: seq<int>, second: seq<int>, entry: int)
    requires Linked(first, second, entry)
    ensures Valid(Pairs(first, second, entry), CUM)
  {
    assert NotAbove(CUM, 0, 0) && NotAbove(CUM, 0, 1) && NotAbove(CUM, 1, 1);
  }

  lemma PairSlots(g: Graph, i: nat, x: int, y: int)
    requires Valid(g, CUM) && i < g.Count() && g.levels[i] == 1 && g.offsets[i] == 2 * i && 2 * i + 1 < |g.neighbors|
    requires g.neighbors[2 * i] == x && g.neighbors[2 * i + 1] == y
    ensures Slots(g, CUM, i) == [x, y] && Links(g, CUM, i, 0) == UntilNegative([x, y])
  {
    assert LevelRun(g, CUM, i, 0) == [x, y];
  }

  lemma PairsValid(first: seq<int>, second: seq<int>, entry: int)
    requires Linked(first, second, entry)
    ensures
      var g := Pairs(first, second, entry);
      && g.Count() == |first| && EveryNodeOnLevel0(g, CUM) && (forall i :: 0 <= i < |first| ==> g.levels[i] == 1)
      && (forall i :: 0 <= i < |first| ==> Slots(g, CUM, i) == [first[i], second[i]])
      && (forall i :: 0 <= i < |first| ==> Links(g, CUM, i, 0) == UntilNegative([first[i], second[i]]))
  {
    var g := Pairs(first, second, entry);
    PairsAreValid(first, second, entry);
    forall i | 0 <= i < |first|
      ensures Slots(g, CUM, i) == [first[i], second[i]] && Links(g, CUM, i, 0) == UntilNegative([first[i], second[i]])
    {
      assert g.neighbors[2 * i] == first[i] && g.neighbors[2 * i + 1] == second[i];
      PairSlots(g, i, first[i], second[i]);
    }
  }

  lemma PairsLevelled(first: seq<int>, second: seq<int>, entry: int)
    requires Linked(first, second, entry)
    ensures Valid(Pairs(first, second, entry), CUM) && Levelled(Pairs(first, second, entry), CUM)
  {
    var g := Pairs(first, second, entry);
    PairsValid(first, second, entry);
    forall i: nat, level: nat | i < g.Count() && level < g.levels[i] ensures StaysOn(g, CUM, i, level) {
      assert level == 0;
    }
  }

  /** Two nodes exchange their names. */
  function Swap(n: nat, a: nat, b: nat): (r: seq<nat>)
    requires a < n && b < n
    ensures |r| == n && Inverse(r, r)
  {
    seq(n, i => if i == a then b else if i == b then a else i)
  }

  lemma PairsRenumbered(first: seq<int>, second: seq<int>, entry: int, first': seq<int>, second': seq<int>,
                        newToOld: seq<nat>, inv: seq<nat>)
    requires Linked(first, second, entry) && Inverse(newToOld, inv) && |inv| == |first| == |first'| == |second'|
    requires forall i :: 0 <= i < |first| ==>
               first'[i] == RelabelOne(inv, first[newToOld[i]]) && second'[i] == RelabelOne(inv, second[newToOld[i]])
    ensures Linked(first', second', RelabelOne(inv, entry))
    ensures Renumbered(Pairs(first, second, entry), Pairs(first', second', RelabelOne(inv, entry)), CUM, newToOld, inv)
  {
    var g, h := Pairs(first, second, entry), Pairs(first', second', RelabelOne(inv, entry));
    PairsValid(first, second, entry);
    PairsValid(first', second', RelabelOne(inv, entry));
    forall i | 0 <= i < |first| ensures Slots(h, CUM, i) == Relabel(inv, Slots(g, CUM, newToOld[i])) {
      RelabelPair(inv, first[newToOld[i]], second[newToOld[i]]);
      assert Slots(h, CUM, i) == [first'[i], second'[i]];
    }
  }

  lemma RelabelPair(inv: seq<nat>, x: int, y: int)
    requires x < |inv| && y < |inv|
    ensures Relabel(inv, [x, y]) == [RelabelOne(inv, x), RelabelOne(inv, y)]
  {
  }

  lemma PairsSorted(first: seq<int>, second: seq<int>, entry: int, first': seq<int>, second': seq<int>)
    requires Linked(first, second, entry) && Linked(first', second', entry) && |first'| == |first|
    requires forall i :: 0 <= i < |first| ==> Normal([first[i], second[i]], [first'[i], second'[i]])
    ensures SortedLevel0(Pairs(first, second, entry), Pairs(first', second', entry), CUM)
  {
    var g, h := Pairs(first, second, entry), Pairs(first', second', entry);
    PairsValid(first, second, entry);
    PairsValid(first', second', entry);
    forall i | 0 <= i < |first| ensures NodeDone(g, CUM, h.neighbors, i) {
      SlotsOf(first, second, entry, i);
      SlotsOf(first', second', entry, i);
      SortedPair(g.neighbors, h.neighbors, 2 * i);
    }
  }

  lemma SlotsOf(first: seq<int>, second: seq<int>, entry: int, i: nat)
    requires |first| == |second| && i < |first|
    ensures
      var g := Pairs(first, second, entry);
      g.neighbors[2 * i..2 * i + 2] == [first[i], second[i]] && g.offsets[i] == 2 * i && g.offsets[i + 1] == 2 * i + 2
  {
  }

  lemma SortedPair(was: seq<int>, table: seq<int>, o: nat)
    requires o + 2 <= |was| == |table| && Normal(was[o..o + 2], table[o..o + 2])
    ensures Stretch(table, was, o, o + 2, o + 2)
  {
  }

  // ---------------------------------------------------------------------------
  // Names decide between equally far nodes
  // ---------------------------------------------------------------------------

  /** Node a links to b; nothing else is linked. */
  function Only(n: nat, a: nat, b: nat): (first: seq<int>)
    ensures |first| == n
  {
    seq(n, i => if i == a then b else -1)
  }

  function None(n: nat): (second: seq<int>)
    ensures |second| == n
  {
    seq(n, _ => -1)
  }

  /** One step with room for two results, from a node entered on level 0. */
  function TwoResults(n: nat): Query {
    Query(0, 1, 2, Params(0, false, seq(n, _ => true)), 1)
  }

  lemma FirstStep(g: Graph, cum: seq<nat>, p: Params, dist: seq<real>, s: State, m: nat)
    requires Shaped(g, cum, 0, p, dist, s) && !Halted(s) && IsMin(s.cand.entries, m)
    ensures 0 <= s.cand.entries[m].id < g.Count() && 0 < g.levels[s.cand.entries[m].id]
    ensures Run(g, cum, 0, p, dist, s, 1) == Stepped(p, dist, s, m, Links(g, cum, s.cand.entries[m].id, 0))
  {
    OneMin(s.cand.entries, m, MinOf(s.cand.entries));
    NextNode(g, cum, 0, p, dist, s, m);
    var next := NextOrSame(g, cum, 0, p, dist);
    assert Repeat(next, 1, s) == Repeat(next, 0, next(s));
  }

  /** A search that has entered at e and done nothing yet. */
  ghost predicate JustEntered(s: State, dist: seq<real>, e: nat, capacity: nat) {
    && e < |dist| == |s.seen| && s.cand == Candidates(capacity, [Entry(dist[e], e)], 1) && s.steps == 0 && !s.done
    && forall w :: 0 <= w < |dist| ==> (s.seen[w] <==> w == e)
  }

  lemma EntersAlone(g: Graph, p: Params, dist: seq<real>, s: State, e: nat, capacity: nat, t: State)
    requires Shaped(g, CUM, 0, p, dist, s) && JustEntered(s, dist, e, capacity) && t == Run(g, CUM, 0, p, dist, s, 1)
    ensures 0 < g.levels[e] && t == Stepped(p, dist, s, 0, Links(g, CUM, e, 0)) && !Halted(s)
  {
    assert IsMin(s.cand.entries, 0);
    FirstStep(g, CUM, p, dist, s, 0);
  }

  /** What a step without the distance check has visited. */
  lemma StepVisits(p: Params, dist: seq<real>, s: State, m: nat, links: seq<int>, w: nat)
    requires s.cand.Valid() && |s.res| > 0 && |dist| == |p.sel| == |s.seen| && Listed(links, |dist|) && w < |dist|
    requires m < |s.cand.entries| && s.cand.entries[m].id != -1 && !p.check
    ensures Stepped(p, dist, s, m, links).seen[w] <==> s.seen[w] || w in links
  {
    FreshMembers(s.seen, links, w);
  }

  /** Two places for two nodes. */
  lemma BothFit(p: Params, dist: seq<real>, limit: real, s: State, a: nat, b: nat)
    requires Best(p, dist, limit, s.seen, s.res) && |s.res| == 2 && a != b
    requires Eligible(p, dist, limit, s.seen, a) && Eligible(p, dist, limit, s.seen, b) && dist[a] == dist[b]
    requires forall w: nat :: Eligible(p, dist, limit, s.seen, w) ==> w == a || w == b
    ensures multiset(s.res) == multiset{Entry(dist[a], a), Entry(dist[b], b)}
  {
    var x, y, u, v := Entry(dist[a], a), Entry(dist[b], b), s.res[0], s.res[1];
    BestMeans(p, dist, limit, s);
    assert s.res == [u, v] && u in s.res && v in s.res;
    assert multiset(s.res) == multiset{u, v};
    assert FromVisited(p, dist, limit, s, u) && FromVisited(p, dist, limit, s, v);
    assert NotMissed(p, dist, limit, s, a) && NotMissed(p, dist, limit, s, b);
  }

  /** They are ranked by id. */
  lemma TiedRanking(res: seq<Entry>, d: real, a: nat, b: nat)
    requires a < b && multiset(res) == multiset{Entry(d, a), Entry(d, b)}
    ensures Ranked(res) == [Entry(d, a), Entry(d, b)]
  {
    var both := [Entry(d, a), Entry(d, b)];
    RankedSorts(res);
    forall z ensures multiset(Ranked(res))[z] == multiset(both)[z] {
      assert Live(res, z) == multiset(res)[z] || z.id == -1;
    }
    AscendingUnique(Ranked(res), both);
  }

  /** The answer lists the two nodes by their ids, whichever of them was entered first. */
  lemma TiedAnswer(a: nat, b: nat, dist: seq<real>, limit: real, g: Graph, q: Query)
    requires a < |dist| && b < |dist| && a != b && dist[a] == dist[b] < limit
    requires g == Pairs(Only(|dist|, a, b), None(|dist|), a) && q == TwoResults(|dist|)
    ensures Askable(g, CUM, dist, q) && Halted(End(g, CUM, dist, q, limit))
    ensures Answer(g, CUM, dist, q, limit)
         == [Entry(dist[a], if a < b then a else b), Entry(dist[a], if a < b then b else a)]
  {
    TiedEnd(a, b, dist, limit);
    var end := End(g, CUM, dist, q, limit);
    BothFit(q.p, dist, limit, end, a, b);
    TiedRanking(end.res, dist[a], if a < b then a else b, if a < b then b else a);
  }

  lemma TiedEnd(a: nat, b: nat, dist: seq<real>, limit: real)
    requires a < |dist| && b < |dist| && a != b && dist[a] == dist[b] < limit
    ensures
      var g, q := Pairs(Only(|dist|, a, b), None(|dist|), a), TwoResults(|dist|);
      Askable(g, CUM, dist, q) &&
      var end := End(g, CUM, dist, q, limit);
      && Halted(end) && Best(q.p, dist, limit, end.seen, end.res) && |end.res| == 2
      && forall w: nat :: w < |dist| ==> (end.seen[w] <==> w == a || w == b)
  {
    var n := |dist|;
    var g, q := Pairs(Only(n, a, b), None(n), a), TwoResults(n);
    TiedStart(a, b, dist);
    var s := Start(g, CUM, dist, q, limit);
    assert IsMin(s.cand.entries, 0);
    FirstStep(g, CUM, q.p, dist, s, 0);
    forall w: nat | w < n ensures End(g, CUM, dist, q, limit).seen[w] <==> w == a || w == b {
      StepVisits(q.p, dist, s, 0, [b], w);
    }
    StartedBest(1, 2, q.p, dist, limit, a);
    RunBest(g, CUM, 0, q.p, dist, limit, s, 1);
  }

  lemma TiedStart(a: nat, b: nat, dist: seq<real>)
    requires a < |dist| && b < |dist| && a != b
    ensures
      var g, q := Pairs(Only(|dist|, a, b), None(|dist|), a), TwoResults(|dist|);
      && Askable(g, CUM, dist, q) && Entrance(g, CUM, dist, q) == a
      && Links(g, CUM, a, 0) == [b]
  {
    var n := |dist|;
    PairsValid(Only(n, a, b), None(n), a);
    PairsLevelled(Only(n, a, b), None(n), a);
    var slots: seq<int> := [b as int, -1];
    PrefixIs(slots, [b]);
  }

  // ---------------------------------------------------------------------------
  // Exactly when the layouts keep all answers
  // ---------------------------------------------------------------------------

  /** Every query on every graph has the same answer after every layout of the kind. */
  ghost predicate AlwaysKept(sorted: bool, dist: seq<real>, limit: real) {
    forall g, plain, h, cum, newToOld, inv, q ::
      Laid(g, plain, h, cum, newToOld, inv, sorted) && Askable(g, cum, dist, q) ==>
        SameAnswer(g, h, cum, newToOld, inv, dist, q, limit)
  }

  lemma AloneIsNormal(v: int)
    requires v >= -1
    ensures Normal([v, -1], [v, -1])
  {
    PrefixIs([v, -1], if v >= 0 then [v] else []);
  }

  /** The two nodes exchange their names; a list of at most one link is sorted. */
  lemma TiedLayout(n: nat, a: nat, b: nat, sorted: bool)
    requires a < n && b < n && a != b
    ensures
      var g, h := Pairs(Only(n, a, b), None(n), a), Pairs(Only(n, b, a), None(n), b);
      Laid(g, h, h, CUM, Swap(n, a, b), Swap(n, a, b), sorted)
  {
    PairsRenumbered(Only(n, a, b), None(n), a, Only(n, b, a), None(n), Swap(n, a, b), Swap(n, a, b));
    forall i | 0 <= i < n ensures Normal([Only(n, b, a)[i], None(n)[i]], [Only(n, b, a)[i], None(n)[i]]) {
      AloneIsNormal(Only(n, b, a)[i]);
    }
    PairsSorted(Only(n, b, a), None(n), b, Only(n, b, a), None(n));
  }

  lemma DifferentAnswers(g: Graph, h: Graph, cum: seq<nat>, swap: seq<nat>, dist: seq<real>, dist': seq<real>, q: Query,
                         limit: real, before: seq<Entry>, after: seq<Entry>)
    requires Inverse(swap, swap) && |swap| == |dist| && dist' == Gather(dist, swap)
    requires Askable(g, cum, dist, q) && Answer(g, cum, dist, q, limit) == before
    requires |q.p.sel| == |swap| && Gather(q.p.sel, swap) == q.p.sel
    requires Askable(h, cum, dist', q) && Answer(h, cum, dist', q, limit) == after
    requires InRange(before, |swap|) && RenamedAll(swap, before) != after
    ensures !SameAnswer(g, h, cum, swap, swap, dist, q, limit)
  {
    assert RenamedQuery(swap, q) == q;
  }

  lemma SwapsIds(n: nat, a: nat, b: nat, d: real)
    requires a < n && b < n && a != b
    ensures
      var low, high := if a < b then a else b, if a < b then b else a;
      var answer := [Entry(d, low), Entry(d, high)];
      InRange(answer, n) && RenamedAll(Swap(n, a, b), answer) != answer
  {
    var low, high := if a < b then a else b, if a < b then b else a;
    assert RenamedAll(Swap(n, a, b), [Entry(d, low), Entry(d, high)])[0].id == high;
  }

  lemma TiedAnswersDiffer(a: nat, b: nat, dist: seq<real>, limit: real, g: Graph, h: Graph, swap: seq<nat>, q: Query,
                          dist': seq<real>)
    requires a < |dist| && b < |dist| && a != b && dist[a] == dist[b] < limit
    requires g == Pairs(Only(|dist|, a, b), None(|dist|), a) && h == Pairs(Only(|dist|, b, a), None(|dist|), b)
    requires swap == Swap(|dist|, a, b) && q == TwoResults(|dist|) && dist' == Gather(dist, swap)
    ensures Askable(g, CUM, dist, q) && Halted(End(g, CUM, dist, q, limit))
    ensures !SameAnswer(g, h, CUM, swap, swap, dist, q, limit)
  {
    TiedAnswer(a, b, dist, limit, g, q);
    TiedAnswer(b, a, dist', limit, h, q);
    SwapsIds(|dist|, a, b, dist[a]);
    AllSelected(|dist|, swap);
    var answer := [Entry(dist[a], if a < b then a else b), Entry(dist[a], if a < b then b else a)];
    DifferentAnswers(g, h, CUM, swap, dist, dist', q, limit, answer, answer);
  }

  lemma AllSelected(n: nat, swap: seq<nat>)
    requires |swap| == n && forall i :: 0 <= i < n ==> swap[i] < n
    ensures |TwoResults(n).p.sel| == n && Gather(TwoResults(n).p.sel, swap) == TwoResults(n).p.sel
  {
  }

  /** Two equally far nodes below the limit: some query to completion changes its answer. */
  lemma TieChangesAnswer(a: nat, b: nat, sorted: bool, dist: seq<real>, limit: real, g: Graph, h: Graph,
                         swap: seq<nat>, q: Query)
    requires a < |dist| && b < |dist| && a != b && dist[a] == dist[b] < limit
    requires g == Pairs(Only(|dist|, a, b), None(|dist|), a) && h == Pairs(Only(|dist|, b, a), None(|dist|), b)
    requires swap == Swap(|dist|, a, b) && q == TwoResults(|dist|)
    ensures Laid(g, h, h, CUM, swap, swap, sorted) && Askable(g, CUM, dist, q) && Halted(End(g, CUM, dist, q, limit))
    ensures !SameAnswer(g, h, CUM, swap, swap, dist, q, limit)
  {
    TiedAnswersDiffer(a, b, dist, limit, g, h, swap, q, Gather(dist, swap));
    TiedLayout(|dist|, a, b, sorted);
  }

  /** GOrder and ROrder each keep the answers of all queries if no two nodes are equally far, and
      only if no two nodes below the limit are; with the limit above every distance, as it is at
      the start of a search, that is the same. */
  lemma KeptExactly(sorted: bool, dist: seq<real>, limit: real)
    ensures Injective(dist) ==> AlwaysKept(sorted, dist, limit)
    ensures AlwaysKept(sorted, dist, limit) ==>
              forall a, b :: 0 <= a < b < |dist| && dist[a] < limit ==> dist[a] != dist[b]
    ensures (forall w :: 0 <= w < |dist| ==> dist[w] < limit) ==> (AlwaysKept(sorted, dist, limit) <==> Injective(dist))
  {
    if Injective(dist) {
      forall g, plain, h, cum, newToOld, inv, q |
        Laid(g, plain, h, cum, newToOld, inv, sorted) && Askable(g, cum, dist, q)
        ensures SameAnswer(g, h, cum, newToOld, inv, dist, q, limit)
      {
        LayoutKeepsAnswer(g, plain, h, cum, newToOld, inv, sorted, dist, q, limit);
      }
    }
    forall a, b | 0 <= a < b < |dist| && dist[a] == dist[b] < limit ensures !AlwaysKept(sorted, dist, limit) {
      var n := |dist|;
      TieChangesAnswer(a, b, sorted, dist, limit, Pairs(Only(n, a, b), None(n), a), Pairs(Only(n, b, a), None(n), b),
                       Swap(n, a, b), TwoResults(n));
    }
  }

  // ---------------------------------------------------------------------------
  // The order of a list decides between equally far nodes
  // ---------------------------------------------------------------------------

  /** One step with room for one result, which cannot be e. */
  function OneResult(n: nat, e: nat): Query {
    Query(0, 1, 1, Params(0, false, seq(n, w => w != e)), 1)
  }

  /** One node is offered to the results if it is selected. */
  function Tried(p: Params, dist: seq<real>, res: seq<Entry>, v: nat): (r: seq<Entry>)
    requires |res| > 0 && v < |dist| == |p.sel|
    ensures |r| == |res|
  {
    if p.sel[v] then Offered(res, Entry(dist[v], v)) else res
  }

  lemma NoneTried(p: Params, dist: seq<real>, s: State, nodes: seq<nat>)
    requires s.cand.Valid() && |s.res| > 0 && |dist| == |p.sel| && |nodes| == 0
    ensures AddedAll(p, dist, s, nodes).res == s.res
  {
  }

  lemma AddedTried(p: Params, dist: seq<real>, s: State, v: nat)
    requires s.cand.Valid() && |s.res| > 0 && v < |dist| == |p.sel|
    ensures Added(p, dist, s, v).res == Tried(p, dist, s.res, v)
  {
  }

  lemma LastTried(p: Params, dist: seq<real>, s: State, nodes: seq<nat>, n: nat, t: State)
    requires s.cand.Valid() && |s.res| > 0 && |dist| == |p.sel| && Within(nodes, |dist|) && |nodes| == n + 1
    requires t == AddedAll(p, dist, s, nodes[..n])
    ensures AddedAll(p, dist, s, nodes).res == Tried(p, dist, t.res, nodes[n])
  {
    AddedNext(p, dist, s, nodes[..n], nodes[n]);
    assert nodes == nodes[..n] + [nodes[n]];
    AddedTried(p, dist, t, nodes[n]);
  }

  lemma BothTried(p: Params, dist: seq<real>, s: State, f: seq<nat>)
    requires s.cand.Valid() && |s.res| > 0 && |dist| == |p.sel| && Within(f, |dist|) && |f| == 2
    ensures AddedAll(p, dist, s, f).res == Tried(p, dist, Tried(p, dist, s.res, f[0]), f[1])
  {
    NoneTried(p, dist, s, f[..1][..0]);
    LastTried(p, dist, s, f[..1], 0, AddedAll(p, dist, s, f[..1][..0]));
    LastTried(p, dist, s, f, 1, AddedAll(p, dist, s, f[..1]));
  }

  lemma BothFresh(seen: seq<bool>, x: nat, y: nat)
    requires x < |seen| && y < |seen| && x != y && !seen[x] && !seen[y]
    ensures Fresh(seen, [x, y]) == [x, y]
  {
    AllFresh(seen, [x, y], [x, y]);
  }

  lemma {:induction false} AllFresh(seen: seq<bool>, list: seq<int>, f: seq<nat>)
    requires |f| == |list| && forall k :: 0 <= k < |f| ==> list[k] == f[k] < |seen| && !seen[f[k]]
    requires forall j, k :: 0 <= j < k < |f| ==> f[j] != f[k]
    ensures Fresh(seen, list) == f
  {
    if |list| > 0 {
      var n := |list| - 1;
      AllFresh(seen, list[..n], f[..n]);
      assert f == f[..n] + [f[n]];
    }
  }

  /** Of two equally far nodes the only place goes to the one met first. */
  lemma FirstMetStays(p: Params, dist: seq<real>, s: State, x: nat, y: nat)
    requires s.cand.Valid() && |s.res| == 1 && |dist| == |p.sel| == |s.seen| && x < |dist| && y < |dist| && x != y
    requires !s.seen[x] && !s.seen[y] && p.sel[x] && dist[x] == dist[y] < s.res[0].dis
    ensures Visited(p, dist, s, [x, y]).res == [Entry(dist[x], x)]
  {
    BothFresh(s.seen, x, y);
    var f: seq<nat> := [x, y];
    BothTried(p, dist, s.(seen := Marked(s.seen, f)), f);
  }

  /** Node e links to x and y, in this order. */
  function Fork(n: nat, e: nat, x: nat, y: nat): Graph {
    Pairs(Only(n, e, x), Only(n, e, y), e)
  }

  lemma ForkStart(e: nat, x: nat, y: nat, dist: seq<real>, q: Query)
    requires e < |dist| && x < |dist| && y < |dist|
    requires q.maxLevel == 0 && |q.p.sel| == |dist| && q.capacity > 0 && q.k > 0
    ensures Askable(Fork(|dist|, e, x, y), CUM, dist, q) && Entrance(Fork(|dist|, e, x, y), CUM, dist, q) == e
    ensures Links(Fork(|dist|, e, x, y), CUM, e, 0) == [x, y]
  {
    var n := |dist|;
    PairsValid(Only(n, e, x), Only(n, e, y), e);
    PairsLevelled(Only(n, e, x), Only(n, e, y), e);
    PrefixIs([x, y], [x, y]);
  }

  lemma ForkEnd(e: nat, x: nat, y: nat, dist: seq<real>, g: Graph, p: Params, s: State, t: State)
    requires x < |dist| && y < |dist| && e != x && e != y && x != y && Shaped(g, CUM, 0, p, dist, s)
    requires JustEntered(s, dist, e, 1) && |s.res| == 1 && dist[x] == dist[y] < s.res[0].dis && p.sel[x]
    requires !p.check && p.ef == 0 && t == Stepped(p, dist, s, 0, [x, y])
    ensures Halted(t) && t.res == [Entry(dist[x], x)]
  {
    FirstMetStays(p, dist, s.(cand := TakenOut(s.cand, 0)), x, y);
  }

  lemma ForkAnswer(e: nat, x: nat, y: nat, dist: seq<real>, limit: real, g: Graph, q: Query)
    requires e < |dist| && x < |dist| && y < |dist| && e != x && e != y && x != y && dist[x] == dist[y] < limit
    requires g == Fork(|dist|, e, x, y) && q == OneResult(|dist|, e)
    ensures Askable(g, CUM, dist, q) && Halted(End(g, CUM, dist, q, limit))
    ensures Answer(g, CUM, dist, q, limit) == [Entry(dist[x], x)]
  {
    ForkStart(e, x, y, dist, q);
    var s, end := Start(g, CUM, dist, q, limit), End(g, CUM, dist, q, limit);
    EntersAlone(g, q.p, dist, s, e, 1, end);
    ForkEnd(e, x, y, dist, g, q.p, s, end);
    AloneReturned(Entry(dist[x], x), limit);
  }

  lemma AloneReturned(x: Entry, limit: real)
    requires x.id != -1
    ensures Returned([x], limit) == [x]
  {
    assert [x][..0] == [];
    assert Ranked([x]) == Inserted(Ranked([x][..0]), x);
  }

  lemma PairIsNormal(a: nat, b: nat)
    requires a <= b
    ensures Normal([b, a], [a, b])
  {
    PrefixIs([b, a], [b, a]);
    PrefixIs([a, b], [a, b]);
  }

  /** Sorting the lists alone, without any renaming, changes which of two equally far nodes is
      returned. */
  lemma SortingChangesAnswer(e: nat, a: nat, b: nat, dist: seq<real>, limit: real)
    requires e < |dist| && e != a && e != b && a < b < |dist| && dist[a] == dist[b] < limit
    ensures
      var n, q := |dist|, OneResult(|dist|, e);
      var g, h := Fork(n, e, b, a), Fork(n, e, a, b);
      && SortedLevel0(g, h, CUM) && Askable(g, CUM, dist, q) && Askable(h, CUM, dist, q)
      && Answer(g, CUM, dist, q, limit) == [Entry(dist[b], b)] && Answer(h, CUM, dist, q, limit) == [Entry(dist[a], a)]
  {
    var n := |dist|;
    forall i | 0 <= i < n
      ensures Normal([Only(n, e, b)[i], Only(n, e, a)[i]], [Only(n, e, a)[i], Only(n, e, b)[i]])
    {
      PairIsNormal(a, b);
      AloneIsNormal(-1);
    }
    PairsSorted(Only(n, e, b), Only(n, e, a), e, Only(n, e, a), Only(n, e, b));
    ForkAnswer(e, b, a, dist, limit, Fork(n, e, b, a), OneResult(n, e));
    ForkAnswer(e, a, b, dist, limit, Fork(n, e, a, b), OneResult(n, e));
  }

  // ---------------------------------------------------------------------------
  // Ties at or above the limit
  // ---------------------------------------------------------------------------

  /** Node e links to x and y, and x to c. */
  function Detour(n: nat, e: nat, x: nat, y: nat, c: nat): Graph {
    Pairs(seq(n, i => if i == e then x else if i == x then c else -1), Only(n, e, y), e)
  }

  /** Two steps with room for one result, which can only be c. */
  function OnlyResult(n: nat, c: nat): Query {
    Query(0, 3, 1, Params(1, false, seq(n, w => w == c)), 2)
  }

  lemma DetourStart(e: nat, x: nat, y: nat, c: nat, dist: seq<real>, q: Query)
    requires e < |dist| && x < |dist| && y < |dist| && c < |dist| && e != x && e != y && x != y
    requires q.maxLevel == 0 && |q.p.sel| == |dist| && q.capacity > 0 && q.k > 0
    ensures Askable(Detour(|dist|, e, x, y, c), CUM, dist, q) && Entrance(Detour(|dist|, e, x, y, c), CUM, dist, q) == e
  {
    var first := seq(|dist|, i => if i == e then x else if i == x then c else -1);
    PairsValid(first, Only(|dist|, e, y), e);
    PairsLevelled(first, Only(|dist|, e, y), e);
  }

  lemma PairLinks(first: seq<int>, second: seq<int>, entry: int, i: nat, list: seq<int>)
    requires Linked(first, second, entry) && i < |first| && list <= [first[i], second[i]]
    requires (forall k :: 0 <= k < |list| ==> list[k] >= 0) && (|list| < 2 ==> [first[i], second[i]][|list|] < 0)
    ensures EveryNodeOnLevel0(Pairs(first, second, entry), CUM)
    ensures Links(Pairs(first, second, entry), CUM, i, 0) == list
  {
    PairsValid(first, second, entry);
    PrefixIs([first[i], second[i]], list);
  }

  lemma DetourLinks(n: nat, e: nat, x: nat, y: nat, c: nat)
    requires e < n && x < n && y < n && c < n && e != x && e != y && x != y
    ensures
      var g := Detour(n, e, x, y, c);
      && EveryNodeOnLevel0(g, CUM) && g.Count() == n
      && Links(g, CUM, e, 0) == [x, y] && Links(g, CUM, x, 0) == [c] && Links(g, CUM, y, 0) == []
  {
    var first, second := seq(n, i => if i == e then x else if i == x then c else -1), Only(n, e, y);
    PairLinks(first, second, e, e, [x, y]);
    PairLinks(first, second, e, x, [c]);
    PairLinks(first, second, e, y, []);
  }

  /** Above an entry taken out, two equally far ones are placed by id. */
  lemma ThreeHeap(x: Entry, y: Entry, out: Entry)
    requires x.dis == y.dis >= out.dis && out.id == -1 && x.id >= 0 && y.id >= 0 && x.id != y.id
    ensures Joined(Joined([out], x), y) == if x.id < y.id then [y, out, x] else [x, out, y]
  {
    assert Climb([out, out], 0, x) == [x, out];
    assert ([out] + [x])[1 := out] == [out, out];
    var two := Joined([out], x);
    assert two == [x, out];
    assert two + [y] == [x, out, y];
    assert [x, out, y][2 := x] == [x, out, x];
    assert Climb([x, out, x], 0, y) == [y, out, x];
  }

  lemma BothPushed(p: Params, dist: seq<real>, s: State, f: seq<nat>)
    requires s.cand.Valid() && |s.res| > 0 && |dist| == |p.sel| && Within(f, |dist|) && |f| == 2
    requires |s.cand.entries| + 2 <= s.cand.capacity
    ensures
      var x, y := Entry(dist[f[0]], f[0]), Entry(dist[f[1]], f[1]);
      AddedAll(p, dist, s, f).cand.entries == Joined(Joined(s.cand.entries, x), y)
  {
    assert f[..1][..0] == [];
    LastAdded(p, dist, s, f[..1]);
    LastAdded(p, dist, s, f);
    assert AddedAll(p, dist, s, f[..1][..0]) == s;
  }

  function TakenAndMarked(s: State, m: nat, f: seq<nat>): State
    requires s.cand.Valid() && m < |s.cand.entries| && s.cand.entries[m].id != -1
  {
    s.(cand := TakenOut(s.cand, m), seen := Marked(s.seen, f))
  }

  /** A step without the distance check, part by part. */
  lemma StepParts(p: Params, dist: seq<real>, s: State, m: nat, links: seq<int>, f: seq<nat>)
    requires s.cand.Valid() && |s.res| > 0 && |dist| == |p.sel| == |s.seen| && Listed(links, |dist|)
    requires m < |s.cand.entries| && s.cand.entries[m].id != -1 && !p.check && f == Fresh(s.seen, links)
    ensures
      var r := Stepped(p, dist, s, m, links);
      && r.cand == AddedAll(p, dist, TakenAndMarked(s, m, f), f).cand
      && r.steps == s.steps + 1 && r.done == (s.steps + 1 > p.ef)
  {
  }

  lemma LastOfThree(c: Candidates, x: Entry, y: Entry, out: Entry)
    requires c.Valid() && c.entries == [x, out, y] && x.dis == y.dis && out.id == -1 && x.id >= 0 && y.id >= 0
    ensures IsMin(c.entries, 2) && c.valid > 0
  {
    SomeLeft(c.entries);
  }

  lemma DetourEntries(out: Entry, p: Params, dist: seq<real>, t: State, f: seq<nat>)
    requires |f| == 2 && Within(f, |dist|) && f[0] != f[1] && dist[f[0]] == dist[f[1]] >= out.dis && |dist| == |p.sel|
    requires t.cand.Valid() && |t.res| > 0 && t.cand.entries == [out] && t.cand.capacity >= 3 && out.id == -1
    ensures
      var r, low, high := AddedAll(p, dist, t, f).cand, if f[0] < f[1] then 0 else 1, if f[0] < f[1] then 1 else 0;
      r.entries == [Entry(dist[f[high]], f[high]), out, Entry(dist[f[low]], f[low])]
  {
    BothPushed(p, dist, t, f);
    ThreeHeap(Entry(dist[f[0]], f[0]), Entry(dist[f[1]], f[1]), out);
  }

  /** The candidates after the first step: the one with the smaller id is last. */
  lemma DetourCandidates(out: Entry, p: Params, dist: seq<real>, t: State, f: seq<nat>, c: Candidates)
    requires |f| == 2 && Within(f, |dist|) && f[0] != f[1] && dist[f[0]] == dist[f[1]] >= out.dis && |dist| == |p.sel|
    requires t.cand.Valid() && |t.res| > 0 && t.cand.entries == [out] && t.cand.capacity >= 3 && out.id == -1
    requires c == AddedAll(p, dist, t, f).cand
    ensures IsMin(c.entries, 2) && c.entries[2].id == (if f[0] < f[1] then f[0] else f[1]) && c.valid > 0
  {
    DetourEntries(out, p, dist, t, f);
    LastOfThree(c, c.entries[0], c.entries[2], out);
  }

  lemma SecondStep(g: Graph, cum: seq<nat>, p: Params, dist: seq<real>, s: State, t: State)
    requires Shaped(g, cum, 0, p, dist, s) && !Halted(s) && t == Run(g, cum, 0, p, dist, s, 1)
    ensures Shaped(g, cum, 0, p, dist, t) && Run(g, cum, 0, p, dist, s, 2) == Run(g, cum, 0, p, dist, t, 1)
  {
    var next := NextOrSame(g, cum, 0, p, dist);
    assert Repeat(next, 2, s) == Repeat(next, 1, next(s)) && Repeat(next, 1, s) == Repeat(next, 0, next(s));
  }

  lemma DetourTaken(e: nat, p: Params, dist: seq<real>, s: State, f: seq<nat>, c: Candidates)
    requires |f| == 2 && Within(f, |dist|) && f[0] != f[1] && |dist| == |p.sel| && JustEntered(s, dist, e, 3)
    requires dist[f[0]] == dist[f[1]] >= dist[e] && s.cand.Valid() && |s.res| > 0
    requires c == AddedAll(p, dist, TakenAndMarked(s, 0, f), f).cand
    ensures IsMin(c.entries, 2) && c.entries[2].id == (if f[0] < f[1] then f[0] else f[1]) && c.valid > 0
  {
    DetourCandidates(Entry(dist[e], -1), p, dist, TakenAndMarked(s, 0, f), f, c);
  }

  lemma DetourMiddle(e: nat, x: nat, y: nat, c: nat, dist: seq<real>, g: Graph, p: Params, s: State, t: State)
    requires e < |dist| && x < |dist| && y < |dist| && c < |dist| && e != x && e != y && x != y
    requires c != e && c != x && c != y && dist[x] == dist[y] >= dist[e] && !p.check && p.ef > 0
    requires Shaped(g, CUM, 0, p, dist, s) && JustEntered(s, dist, e, 3) && 0 < g.levels[e]
    requires Links(g, CUM, e, 0) == [x, y] && t == Stepped(p, dist, s, 0, [x, y])
    ensures IsMin(t.cand.entries, 2) && t.cand.entries[2].id == (if x < y then x else y)
    ensures !Halted(t) && t.steps == 1 && |t.seen| == |dist| && !t.seen[c]
  {
    var f: seq<nat> := [x, y];
    BothFresh(s.seen, x, y);
    StepVisits(p, dist, s, 0, [x, y], c);
    StepParts(p, dist, s, 0, [x, y], f);
    DetourTaken(e, p, dist, s, f, t.cand);
  }

  lemma DetourLast(x: nat, y: nat, c: nat, dist: seq<real>, g: Graph, p: Params, t: State, r: State)
    requires Shaped(g, CUM, 0, p, dist, t) && !Halted(t) && IsMin(t.cand.entries, 2) && !p.check && p.ef == t.steps
    requires x < |dist| && y < |dist| && c < |dist| && EveryNodeOnLevel0(g, CUM)
    requires Links(g, CUM, x, 0) == [c] && Links(g, CUM, y, 0) == []
    requires t.cand.entries[2].id == (if x < y then x else y) && !t.seen[c] && r == Run(g, CUM, 0, p, dist, t, 1)
    ensures Halted(r) && |r.seen| == |dist| && (r.seen[c] <==> x < y)
  {
    FirstStep(g, CUM, p, dist, t, 2);
    var links := Links(g, CUM, t.cand.entries[2].id, 0);
    StepVisits(p, dist, t, 2, links, c);
    StepParts(p, dist, t, 2, links, Fresh(t.seen, links));
  }

  /** Node c is visited exactly if x has the smaller id. */
  lemma DetourEnd(e: nat, x: nat, y: nat, c: nat, dist: seq<real>, limit: real, g: Graph, q: Query)
    requires e < |dist| && x < |dist| && y < |dist| && c < |dist| && e != x && e != y && x != y
    requires c != e && c != x && c != y && dist[x] == dist[y] >= dist[e]
    requires g == Detour(|dist|, e, x, y, c) && q == OnlyResult(|dist|, c)
    ensures Askable(g, CUM, dist, q)
    ensures
      var end := End(g, CUM, dist, q, limit);
      && Halted(end) && Best(q.p, dist, limit, end.seen, end.res) && |end.res| == 1
      && (end.seen[c] <==> x < y)
  {
    DetourStart(e, x, y, c, dist, q);
    var s := Start(g, CUM, dist, q, limit);
    var t := Run(g, CUM, 0, q.p, dist, s, 1);
    DetourLinks(|dist|, e, x, y, c);
    EntersAlone(g, q.p, dist, s, e, 3, t);
    SecondStep(g, CUM, q.p, dist, s, t);
    DetourMiddle(e, x, y, c, dist, g, q.p, s, t);
    DetourLast(x, y, c, dist, g, q.p, t, End(g, CUM, dist, q, limit));
    EndsBest(g, dist, limit, q);
  }

  lemma EndsBest(g: Graph, dist: seq<real>, limit: real, q: Query)
    requires Askable(g, CUM, dist, q)
    ensures
      var end := End(g, CUM, dist, q, limit);
      Best(q.p, dist, limit, end.seen, end.res) && |end.res| == q.k
  {
    StartedBest(q.capacity, q.k, q.p, dist, limit, Entrance(g, CUM, dist, q));
    RunBest(g, CUM, 0, q.p, dist, limit, Start(g, CUM, dist, q, limit), q.n);
  }

  lemma DetourAnswer(e: nat, x: nat, y: nat, c: nat, dist: seq<real>, limit: real, g: Graph, q: Query)
    requires e < |dist| && x < |dist| && y < |dist| && c < |dist| && e != x && e != y && x != y
    requires c != e && c != x && c != y && dist[x] == dist[y] >= dist[e] && dist[c] < limit
    requires g == Detour(|dist|, e, x, y, c) && q == OnlyResult(|dist|, c)
    ensures Askable(g, CUM, dist, q) && Halted(End(g, CUM, dist, q, limit))
    ensures Answer(g, CUM, dist, q, limit) == [if x < y then Entry(dist[c], c) else Entry(limit, -1)]
  {
    DetourEnd(e, x, y, c, dist, limit, g, q);
    var end := End(g, CUM, dist, q, limit);
    OnePlace(q.p, dist, limit, end, c);
    AloneReturned(Entry(dist[c], c), limit);
    assert Ranked([Entry(limit, -1)][..0]) == [];
  }

  lemma OnePlace(p: Params, dist: seq<real>, limit: real, s: State, c: nat)
    requires Best(p, dist, limit, s.seen, s.res) && |s.res| == 1 && c < |dist| && dist[c] < limit
    requires forall w :: 0 <= w < |dist| ==> (p.sel[w] <==> w == c)
    ensures s.res == [if s.seen[c] then Entry(dist[c], c) else Entry(limit, -1)]
  {
    BestMeans(p, dist, limit, s);
    assert s.res == [s.res[0]] && s.res[0] in s.res;
    assert FromVisited(p, dist, limit, s, s.res[0]) && NotMissed(p, dist, limit, s, c);
  }

  lemma SwapKeeps(n: nat, a: nat, b: nat, c: nat, d: real, limit: real)
    requires a < n && b < n && a != b && c < n && c != a && c != b
    ensures
      var before := if a < b then Entry(d, c) else Entry(limit, -1);
      var after := if b < a then Entry(d, c) else Entry(limit, -1);
      InRange([before], n) && RenamedAll(Swap(n, a, b), [before]) != [after]
  {
    var before := if a < b then Entry(d, c) else Entry(limit, -1);
    assert RenamedAll(Swap(n, a, b), [before])[0] == before;
  }

  lemma OneSelected(n: nat, a: nat, b: nat, c: nat)
    requires a < n && b < n && c < n && c != a && c != b
    ensures |OnlyResult(n, c).p.sel| == n
    ensures Gather(OnlyResult(n, c).p.sel, Swap(n, a, b)) == OnlyResult(n, c).p.sel
  {
  }

  lemma FarAnswersDiffer(e: nat, a: nat, b: nat, c: nat, dist: seq<real>, limit: real, g: Graph, h: Graph,
                         swap: seq<nat>, q: Query, dist': seq<real>)
    requires e < |dist| && a < |dist| && b < |dist| && c < |dist| && e != a && e != b && a != b
    requires c != e && c != a && c != b && dist[a] == dist[b] >= dist[e] && dist[c] < limit
    requires g == Detour(|dist|, e, a, b, c) && h == Detour(|dist|, e, b, a, c)
    requires swap == Swap(|dist|, a, b) && q == OnlyResult(|dist|, c) && dist' == Gather(dist, swap)
    ensures Askable(g, CUM, dist, q) && Halted(End(g, CUM, dist, q, limit))
    ensures !SameAnswer(g, h, CUM, swap, swap, dist, q, limit)
  {
    DetourAnswer(e, a, b, c, dist, limit, g, q);
    DetourAnswer(e, b, a, c, dist', limit, h, q);
    SwapKeeps(|dist|, a, b, c, dist[c], limit);
    OneSelected(|dist|, a, b, c);
    var before, after := if a < b then Entry(dist[c], c) else Entry(limit, -1),
                         if b < a then Entry(dist[c], c) else Entry(limit, -1);
    DifferentAnswers(g, h, CUM, swap, dist, dist', q, limit, [before], [after]);
  }

  /** Ties at or above the limit change answers too: which of two such candidates is taken out first
      decides what is found behind it. */
  lemma FarTieChangesAnswer(e: nat, a: nat, b: nat, c: nat, dist: seq<real>, limit: real, g: Graph, h: Graph,
                            swap: seq<nat>, q: Query)
    requires e < |dist| && a < |dist| && b < |dist| && c < |dist| && e != a && e != b && a != b
    requires c != e && c != a && c != b && dist[a] == dist[b] >= dist[e] && dist[c] < limit
    requires g == Detour(|dist|, e, a, b, c) && h == Detour(|dist|, e, b, a, c)
    requires swap == Swap(|dist|, a, b) && q == OnlyResult(|dist|, c)
    ensures Laid(g, h, h, CUM, swap, swap, false) && Askable(g, CUM, dist, q) && Halted(End(g, CUM, dist, q, limit))
    ensures !SameAnswer(g, h, CUM, swap, swap, dist, q, limit)
  {
    FarAnswersDiffer(e, a, b, c, dist, limit, g, h, swap, q, Gather(dist, swap));
    DetourLayout(|dist|, e, a, b, c);
  }

  lemma DetourLayout(n: nat, e: nat, a: nat, b: nat, c: nat)
    requires e < n && a < n && b < n && c < n && e != a && e != b && a != b && c != e && c != a && c != b
    ensures
      var g, h := Detour(n, e, a, b, c), Detour(n, e, b, a, c);
      Renumbered(g, h, CUM, Swap(n, a, b), Swap(n, a, b))
  {
    var first := seq(n, i => if i == e then a else if i == a then c else -1);
    var first' := seq(n, i => if i == e then b else if i == b then c else -1);
    PairsRenumbered(first, Only(n, e, b), e, first', Only(n, e, a), Swap(n, a, b), Swap(n, a, b));
  }
}
