/** The search on one level: a bounded heap of candidates, a heap of results, a table of visited
    nodes. On a renumbered graph every step leaves the same heaps behind under the new names,
    provided no two nodes are equally far from the query.
 */
module HnswSearch {
  import opened HnswGreedy
  import opened HnswLayout
  import opened MinimaxHeaps
  import opened Permutation

  /** efSearch, check_relative_distance, and which nodes the selector admits. */
  datatype Params = Params(ef: int, check: bool, sel: seq<bool>)

  datatype State = State(cand: Candidates, seen: seq<bool>, res: seq<Entry>, nres: nat, steps: nat, done: bool)

  // ---------------------------------------------------------------------------
  // One step
  // ---------------------------------------------------------------------------

  /** add_to_heap: offers a node to the results and makes it a candidate. */
  function Added(p: Params, dist: seq<real>, s: State, v: nat): (r: State)
    requires s.cand.Valid() && |s.res| > 0 && v < |dist| == |p.sel|
    ensures r.cand.Valid() && |r.res| == |s.res| && r.cand.valid <= s.cand.valid + 1
    ensures r.seen == s.seen && r.steps == s.steps && r.done == s.done
  {
    var e := Entry(dist[v], v);
    var better := p.sel[v] && e.dis < s.res[0].dis;
    s.(cand := Pushed(s.cand, e),
       res := if better then Sink(s.res, 0, e) else s.res,
       nres := s.nres + if better then 1 else 0)
  }

  function AddedAll(p: Params, dist: seq<real>, s: State, nodes: seq<nat>): (r: State)
    requires s.cand.Valid() && |s.res| > 0 && |dist| == |p.sel| && forall k :: 0 <= k < |nodes| ==> nodes[k] < |dist|
    ensures r.cand.Valid() && |r.res| == |s.res| && r.cand.valid <= s.cand.valid + |nodes|
    ensures r.seen == s.seen && r.steps == s.steps && r.done == s.done
  {
    if |nodes| == 0 then s
    else Added(p, dist, AddedAll(p, dist, s, nodes[..|nodes| - 1]), nodes[|nodes| - 1])
  }

  ghost predicate Listed(list: seq<int>, n: nat) {
    forall k :: 0 <= k < |list| ==> 0 <= list[k] < n
  }

  /** The unvisited nodes of a list, in the order they are met first. */
  function Fresh(seen: seq<bool>, list: seq<int>): (f: seq<nat>)
    requires Listed(list, |seen|)
    ensures forall k :: 0 <= k < |f| ==> f[k] < |seen| && !seen[f[k]] && f[k] in list
    ensures forall j, k :: 0 <= j < k < |f| ==> f[j] != f[k]
  {
    if |list| == 0 then []
    else
      var f, v := Fresh(seen, list[..|list| - 1]), list[|list| - 1];
      if seen[v] || v in f then f else f + [v]
  }

  function Marked(seen: seq<bool>, nodes: seq<nat>): (r: seq<bool>)
    ensures |r| == |seen| && forall w: nat :: w < |seen| ==> r[w] == (seen[w] || w in nodes)
  {
    seq(|seen|, w requires 0 <= w < |seen| => seen[w] || w in nodes)
  }

  /** The links of one node: all unvisited ones are marked and added. */
  function Visited(p: Params, dist: seq<real>, s: State, links: seq<int>): (r: State)
    requires s.cand.Valid() && |s.res| > 0 && |dist| == |p.sel| == |s.seen| && Listed(links, |dist|)
    ensures r.cand.Valid() && |r.res| == |s.res| && |r.seen| == |s.seen| && r.steps == s.steps && r.done == s.done
  {
    var f := Fresh(s.seen, links);
    AddedAll(p, dist, s.(seen := Marked(s.seen, f)), f)
  }

  /** Without the distance check the number of steps is limited. */
  function Counted(p: Params, s: State): State {
    s.(steps := s.steps + 1, done := !p.check && s.steps + 1 > p.ef)
  }

  /** The rest of an iteration once a candidate at distance d0 has been taken out. */
  function Continued(p: Params, dist: seq<real>, s: State, d0: real, links: seq<int>): (r: State)
    requires s.cand.Valid() && |s.res| > 0 && |dist| == |p.sel| == |s.seen| && Listed(links, |dist|)
    ensures r.cand.Valid() && |r.res| == |s.res| && |r.seen| == |s.seen|
  {
    if p.check && Closer(s.cand.entries, d0) >= p.ef then s.(done := true) else Counted(p, Visited(p, dist, s, links))
  }

  /** One iteration of the loop, taking the candidate at position m. */
  function Stepped(p: Params, dist: seq<real>, s: State, m: nat, links: seq<int>): (r: State)
    requires s.cand.Valid() && |s.res| > 0 && |dist| == |p.sel| == |s.seen| && Listed(links, |dist|)
    requires m < |s.cand.entries| && s.cand.entries[m].id != -1
    ensures r.cand.Valid() && |r.res| == |s.res| && |r.seen| == |s.seen|
  {
    Continued(p, dist, s.(cand := TakenOut(s.cand, m)), s.cand.entries[m].dis, links)
  }

  // ---------------------------------------------------------------------------
  // What every step keeps
  // ---------------------------------------------------------------------------

  ghost predicate Injective(dist: seq<real>) {
    forall i, j :: 0 <= i < j < |dist| ==> dist[i] != dist[j]
  }

  /** One of the used nodes is that far away. */
  ghost predicate From(dist: seq<real>, used: seq<bool>, d: real)
    requires |used| == |dist|
  {
    exists w: nat :: w < |dist| && used[w] && dist[w] == d
  }

  ghost predicate GoodCandidate(g: Graph, level: nat, dist: seq<real>, used: seq<bool>, x: Entry)
    requires |used| == |dist| == g.Count()
  {
    && (x.id == -1 || (0 <= x.id < |dist| && g.levels[x.id] > level && x.dis == dist[x.id]))
    && From(dist, used, x.dis)
  }

  /** Unfilled places hold id -1 at the limit; the others hold nodes nearer than that. */
  ghost predicate GoodResult(dist: seq<real>, limit: real, x: Entry) {
    (x.id == -1 && x.dis == limit) || (0 <= x.id < |dist| && x.dis == dist[x.id] < limit)
  }

  ghost predicate GoodHeaps(g: Graph, level: nat, dist: seq<real>, limit: real, s: State, used: seq<bool>) {
    match s
    case State(cand, _, res, _, _, _) =>
      && |used| == |dist| == g.Count() && cand.Valid() && NoTies(cand.entries) && |res| > 0
      && (forall x :: x in cand.entries ==> GoodCandidate(g, level, dist, used, x))
      && (forall x :: x in res ==> GoodResult(dist, limit, x))
  }

  ghost predicate Fits(g: Graph, p: Params, dist: seq<real>, s: State) {
    |dist| == |p.sel| == |s.seen| == g.Count() && Injective(dist)
  }

  lemma UnusedIsUnlike(g: Graph, level: nat, dist: seq<real>, limit: real, s: State, used: seq<bool>, v: nat)
    requires GoodHeaps(g, level, dist, limit, s, used) && Injective(dist) && v < |dist| && !used[v]
    ensures Unlike(s.cand.entries, Entry(dist[v], v))
  {
    forall x | x in s.cand.entries ensures x.dis != dist[v] {
      assert GoodCandidate(g, level, dist, used, x);
    }
  }

  lemma AddedGood(g: Graph, level: nat, p: Params, dist: seq<real>, limit: real, s: State, used: seq<bool>, v: nat)
    requires GoodHeaps(g, level, dist, limit, s, used) && Fits(g, p, dist, s)
    requires v < |dist| && !used[v] && g.levels[v] > level
    ensures GoodHeaps(g, level, dist, limit, Added(p, dist, s, v), used[v := true])
  {
    var e, r, used' := Entry(dist[v], v), Added(p, dist, s, v), used[v := true];
    UnusedIsUnlike(g, level, dist, limit, s, used, v);
    PushedUnlike(s.cand, e);
    forall x | x in r.cand.entries ensures GoodCandidate(g, level, dist, used', x) {
      if x == e {
        assert used'[v];
      } else {
        MoreUsed(g, level, dist, used, v, x);
      }
    }
    ResultsGood(p, dist, limit, s, v);
  }

  lemma MoreUsed(g: Graph, level: nat, dist: seq<real>, used: seq<bool>, v: nat, x: Entry)
    requires |used| == |dist| == g.Count() && v < |dist| && GoodCandidate(g, level, dist, used, x)
    ensures GoodCandidate(g, level, dist, used[v := true], x)
  {
    var w: nat :| w < |dist| && used[w] && dist[w] == x.dis;
    assert used[v := true][w];
  }

  lemma ResultsGood(p: Params, dist: seq<real>, limit: real, s: State, v: nat)
    requires s.cand.Valid() && |s.res| > 0 && v < |dist| == |p.sel|
    requires forall x :: x in s.res ==> GoodResult(dist, limit, x)
    ensures forall x :: x in Added(p, dist, s, v).res ==> GoodResult(dist, limit, x)
  {
    var e := Entry(dist[v], v);
    if p.sel[v] && e.dis < s.res[0].dis {
      assert s.res[0] in s.res;
      SinkPermutes(s.res, 0, e);
      forall x | x in Sink(s.res, 0, e) ensures GoodResult(dist, limit, x) {
        assert x in multiset(Sink(s.res, 0, e));
        assert x in s.res[0 := e];
      }
    }
  }

  ghost predicate Unused(g: Graph, level: nat, used: seq<bool>, nodes: seq<nat>) {
    && |used| == g.Count()
    && (forall k :: 0 <= k < |nodes| ==> nodes[k] < |used| && !used[nodes[k]] && g.levels[nodes[k]] > level)
    && (forall j, k :: 0 <= j < k < |nodes| ==> nodes[j] != nodes[k])
  }

  lemma {:induction false} AddedAllGood(g: Graph, level: nat, p: Params, dist: seq<real>, limit: real, s: State,
                                        used: seq<bool>, nodes: seq<nat>)
    requires GoodHeaps(g, level, dist, limit, s, used) && Fits(g, p, dist, s) && Unused(g, level, used, nodes)
    ensures GoodHeaps(g, level, dist, limit, AddedAll(p, dist, s, nodes), Marked(used, nodes))
  {
    if |nodes| == 0 {
      assert Marked(used, nodes) == used;
    } else {
      var n, v := |nodes| - 1, nodes[|nodes| - 1];
      var t := AddedAll(p, dist, s, nodes[..n]);
      assert AddedAll(p, dist, s, nodes) == Added(p, dist, t, v);
      AddedAllGood(g, level, p, dist, limit, s, used, nodes[..n]);
      MarkedNext(used, nodes);
      AddedGood(g, level, p, dist, limit, t, Marked(used, nodes[..n]), v);
    }
  }

  lemma MarkedNext(used: seq<bool>, nodes: seq<nat>)
    requires |nodes| > 0 && (forall k :: 0 <= k < |nodes| ==> nodes[k] < |used| && !used[nodes[k]])
    requires forall j, k :: 0 <= j < k < |nodes| ==> nodes[j] != nodes[k]
    ensures
      var n, v := |nodes| - 1, nodes[|nodes| - 1];
      !Marked(used, nodes[..n])[v] && Marked(used, nodes) == Marked(used, nodes[..n])[v := true]
  {
    var n, v := |nodes| - 1, nodes[|nodes| - 1];
    assert v !in nodes[..n];
    assert nodes == nodes[..n] + [v];
  }

  // ---------------------------------------------------------------------------
  // One step on the renumbered graph
  // ---------------------------------------------------------------------------

  function RenamedParams(newToOld: seq<nat>, p: Params): Params
    requires forall i :: 0 <= i < |newToOld| ==> newToOld[i] < |p.sel|
  {
    Params(p.ef, p.check, Gather(p.sel, newToOld))
  }

  ghost predicate Renameable(newToOld: seq<nat>, inv: seq<nat>, s: State) {
    match s
    case State(cand, seen, res, _, _, _) =>
      Inverse(newToOld, inv) && |seen| == |inv| && InRange(cand.entries, |inv|) && InRange(res, |inv|)
  }

  ghost function RenamedState(newToOld: seq<nat>, inv: seq<nat>, s: State): State
    requires Renameable(newToOld, inv, s)
  {
    State(RenamedCandidates(inv, s.cand), Gather(s.seen, newToOld), RenamedAll(inv, s.res), s.nres, s.steps, s.done)
  }

  lemma GoodIsRenameable(g: Graph, level: nat, dist: seq<real>, limit: real, s: State, used: seq<bool>,
                         newToOld: seq<nat>, inv: seq<nat>)
    requires GoodHeaps(g, level, dist, limit, s, used) && |s.seen| == |inv| == g.Count() && Inverse(newToOld, inv)
    ensures Renameable(newToOld, inv, s) && RenamedCandidates(inv, s.cand).Valid()
  {
    forall i | 0 <= i < |s.cand.entries| ensures -1 <= s.cand.entries[i].id < |inv| {
      assert GoodCandidate(g, level, dist, used, s.cand.entries[i]);
    }
    forall i | 0 <= i < |s.res| ensures -1 <= s.res[i].id < |inv| {
      assert GoodResult(dist, limit, s.res[i]);
    }
    TakenRenamed(inv, s.cand.entries);
  }

  lemma ResultsAgree(dist: seq<real>, limit: real, res: seq<Entry>, v: nat)
    requires |res| > 0 && Injective(dist) && v < |dist| && dist[v] < res[0].dis
    requires forall x :: x in res ==> GoodResult(dist, limit, x)
    ensures AllAgree(res) && AgreesWith(res, Entry(dist[v], v))
  {
    forall i, j | 0 <= i < |res| && 0 <= j < |res| ensures Agree(res[i], res[j]) {
      assert GoodResult(dist, limit, res[i]) && GoodResult(dist, limit, res[j]);
    }
    assert GoodResult(dist, limit, res[0]);
    forall i | 0 <= i < |res| ensures Agree(Entry(dist[v], v), res[i]) {
      assert GoodResult(dist, limit, res[i]);
    }
  }

  lemma AddedCommutes(g: Graph, level: nat, p: Params, dist: seq<real>, limit: real, s: State, used: seq<bool>,
                      newToOld: seq<nat>, inv: seq<nat>, v: nat)
    requires GoodHeaps(g, level, dist, limit, s, used) && Fits(g, p, dist, s) && v < |dist| && !used[v]
    requires Inverse(newToOld, inv) && |inv| == g.Count() && Renameable(newToOld, inv, s)
    requires RenamedCandidates(inv, s.cand).Valid() && Renameable(newToOld, inv, Added(p, dist, s, v))
    ensures Added(RenamedParams(newToOld, p), Gather(dist, newToOld), RenamedState(newToOld, inv, s), inv[v])
         == RenamedState(newToOld, inv, Added(p, dist, s, v))
  {
    var e := Entry(dist[v], v);
    UnusedIsUnlike(g, level, dist, limit, s, used, v);
    PushedRenamed(inv, s.cand, e);
    if e.dis < s.res[0].dis {
      OfferRenamed(dist, limit, s.res, inv, v);
    }
    AddedPartsRenamed(p, dist, s, newToOld, inv, v, e);
  }

  lemma AddedPartsRenamed(p: Params, dist: seq<real>, s: State, newToOld: seq<nat>, inv: seq<nat>, v: nat, e: Entry)
    requires s.cand.Valid() && |s.res| > 0 && v < |dist| == |p.sel| == |inv| && e == Entry(dist[v], v)
    requires Renameable(newToOld, inv, s) && RenamedCandidates(inv, s.cand).Valid()
    requires Renameable(newToOld, inv, Added(p, dist, s, v))
    requires Pushed(RenamedCandidates(inv, s.cand), Renamed(inv, e)) == RenamedCandidates(inv, Pushed(s.cand, e))
    requires e.dis < s.res[0].dis ==> InRange(Sink(s.res, 0, e), |inv|)
    requires e.dis < s.res[0].dis ==>
               Sink(RenamedAll(inv, s.res), 0, Renamed(inv, e)) == RenamedAll(inv, Sink(s.res, 0, e))
    ensures Added(RenamedParams(newToOld, p), Gather(dist, newToOld), RenamedState(newToOld, inv, s), inv[v])
         == RenamedState(newToOld, inv, Added(p, dist, s, v))
  {
    assert Entry(Gather(dist, newToOld)[inv[v]], inv[v]) == Renamed(inv, e);
  }

  lemma OfferRenamed(dist: seq<real>, limit: real, res: seq<Entry>, inv: seq<nat>, v: nat)
    requires |res| > 0 && Injective(dist) && v < |dist| == |inv| && dist[v] < res[0].dis && InRange(res, |inv|)
    requires forall x :: x in res ==> GoodResult(dist, limit, x)
    ensures
      var e := Entry(dist[v], v);
      InRange(Sink(res, 0, e), |inv|)
        && Sink(RenamedAll(inv, res), 0, Renamed(inv, e)) == RenamedAll(inv, Sink(res, 0, e))
  {
    ResultsAgree(dist, limit, res, v);
    SinkRenamed(inv, res, 0, Entry(dist[v], v));
  }

  function Names(inv: seq<nat>, nodes: seq<nat>): (r: seq<nat>)
    requires forall k :: 0 <= k < |nodes| ==> nodes[k] < |inv|
    ensures |r| == |nodes| && forall k :: 0 <= k < |nodes| ==> r[k] == inv[nodes[k]]
  {
    seq(|nodes|, k requires 0 <= k < |nodes| => inv[nodes[k]])
  }

  lemma {:induction false} AddedAllCommutes(g: Graph, level: nat, p: Params, dist: seq<real>, limit: real, s: State,
                                            used: seq<bool>, newToOld: seq<nat>, inv: seq<nat>, nodes: seq<nat>)
    requires GoodHeaps(g, level, dist, limit, s, used) && Fits(g, p, dist, s) && Unused(g, level, used, nodes)
    requires Inverse(newToOld, inv) && |inv| == g.Count()
    requires Renameable(newToOld, inv, s) && RenamedCandidates(inv, s.cand).Valid()
    ensures Renameable(newToOld, inv, AddedAll(p, dist, s, nodes))
    ensures AddedAll(RenamedParams(newToOld, p), Gather(dist, newToOld), RenamedState(newToOld, inv, s),
                     Names(inv, nodes))
         == RenamedState(newToOld, inv, AddedAll(p, dist, s, nodes))
  {
    if |nodes| > 0 {
      var n, v := |nodes| - 1, nodes[|nodes| - 1];
      var t := AddedAll(p, dist, s, nodes[..n]);
      assert AddedAll(p, dist, s, nodes) == Added(p, dist, t, v);
      AddedAllCommutes(g, level, p, dist, limit, s, used, newToOld, inv, nodes[..n]);
      LastCommutes(g, level, p, dist, limit, s, used, newToOld, inv, nodes, t);
      NamesPrefix(inv, nodes);
    }
  }

  lemma NamesPrefix(inv: seq<nat>, nodes: seq<nat>)
    requires |nodes| > 0 && forall k :: 0 <= k < |nodes| ==> nodes[k] < |inv|
    ensures Names(inv, nodes)[..|nodes| - 1] == Names(inv, nodes[..|nodes| - 1])
  {
  }

  lemma LastCommutes(g: Graph, level: nat, p: Params, dist: seq<real>, limit: real, s: State, used: seq<bool>,
                     newToOld: seq<nat>, inv: seq<nat>, nodes: seq<nat>, t: State)
    requires GoodHeaps(g, level, dist, limit, s, used) && Fits(g, p, dist, s) && Unused(g, level, used, nodes)
    requires Inverse(newToOld, inv) && |inv| == g.Count()
    requires |nodes| > 0 && t == AddedAll(p, dist, s, nodes[..|nodes| - 1])
    ensures
      var v := nodes[|nodes| - 1];
      Renameable(newToOld, inv, t) && Renameable(newToOld, inv, Added(p, dist, t, v))
        && RenamedCandidates(inv, t.cand).Valid() &&
      Added(RenamedParams(newToOld, p), Gather(dist, newToOld), RenamedState(newToOld, inv, t), inv[v])
      == RenamedState(newToOld, inv, Added(p, dist, t, v))
  {
    var n, v := |nodes| - 1, nodes[|nodes| - 1];
    var used' := Marked(used, nodes[..n]);
    AddedAllGood(g, level, p, dist, limit, s, used, nodes[..n]);
    MarkedNext(used, nodes);
    AddedGood(g, level, p, dist, limit, t, used', v);
    GoodIsRenameable(g, level, dist, limit, t, used', newToOld, inv);
    GoodIsRenameable(g, level, dist, limit, Added(p, dist, t, v), used'[v := true], newToOld, inv);
    AddedCommutes(g, level, p, dist, limit, t, used', newToOld, inv, v);
  }

  lemma {:induction false} FreshCommutes(seen: seq<bool>, list: seq<int>, newToOld: seq<nat>, inv: seq<nat>)
    requires Inverse(newToOld, inv) && |seen| == |inv| && Listed(list, |seen|)
    ensures Listed(Relabel(inv, list), |seen|)
    ensures Fresh(Gather(seen, newToOld), Relabel(inv, list)) == Names(inv, Fresh(seen, list))
  {
    if |list| > 0 {
      var n, v := |list| - 1, list[|list| - 1];
      FreshCommutes(seen, list[..n], newToOld, inv);
      assert Relabel(inv, list)[..n] == Relabel(inv, list[..n]);
      NameIn(newToOld, inv, Fresh(seen, list[..n]), v);
    }
  }

  lemma NameIn(newToOld: seq<nat>, inv: seq<nat>, nodes: seq<nat>, v: nat)
    requires Inverse(newToOld, inv) && v < |inv| && forall k :: 0 <= k < |nodes| ==> nodes[k] < |inv|
    ensures inv[v] in Names(inv, nodes) <==> v in nodes
  {
    if v in nodes {
      var k :| 0 <= k < |nodes| && nodes[k] == v;
      assert Names(inv, nodes)[k] == inv[v];
    }
    if inv[v] in Names(inv, nodes) {
      var k :| 0 <= k < |nodes| && Names(inv, nodes)[k] == inv[v];
      assert newToOld[inv[nodes[k]]] == nodes[k] && newToOld[inv[v]] == v;
    }
  }

  lemma MarkedCommutes(seen: seq<bool>, nodes: seq<nat>, newToOld: seq<nat>, inv: seq<nat>)
    requires Inverse(newToOld, inv) && |seen| == |inv| && forall k :: 0 <= k < |nodes| ==> nodes[k] < |inv|
    ensures Marked(Gather(seen, newToOld), Names(inv, nodes)) == Gather(Marked(seen, nodes), newToOld)
  {
    forall i | 0 <= i < |newToOld|
      ensures Marked(Gather(seen, newToOld), Names(inv, nodes))[i] == Gather(Marked(seen, nodes), newToOld)[i]
    {
      NameIn(newToOld, inv, nodes, newToOld[i]);
    }
  }

  ghost predicate OnLevel(g: Graph, level: nat, links: seq<int>) {
    Listed(links, g.Count()) && forall k :: 0 <= k < |links| ==> g.levels[links[k]] > level
  }

  lemma FreshUnused(g: Graph, level: nat, seen: seq<bool>, links: seq<int>)
    requires |seen| == g.Count() && OnLevel(g, level, links)
    ensures Unused(g, level, seen, Fresh(seen, links))
  {
  }

  /** Marking nodes as visited does not touch the heaps. */
  lemma SameHeaps(g: Graph, level: nat, dist: seq<real>, limit: real, s: State, used: seq<bool>, seen: seq<bool>)
    requires GoodHeaps(g, level, dist, limit, s, used)
    ensures GoodHeaps(g, level, dist, limit, s.(seen := seen), used)
  {
  }

  lemma VisitedGood(g: Graph, level: nat, p: Params, dist: seq<real>, limit: real, s: State, links: seq<int>)
    requires GoodHeaps(g, level, dist, limit, s, s.seen) && Fits(g, p, dist, s) && OnLevel(g, level, links)
    ensures GoodHeaps(g, level, dist, limit, Visited(p, dist, s, links), Visited(p, dist, s, links).seen)
  {
    var f := Fresh(s.seen, links);
    FreshUnused(g, level, s.seen, links);
    SameHeaps(g, level, dist, limit, s, s.seen, Marked(s.seen, f));
    AddedAllGood(g, level, p, dist, limit, s.(seen := Marked(s.seen, f)), s.seen, f);
  }

  lemma VisitedCommutes(g: Graph, level: nat, p: Params, dist: seq<real>, limit: real, s: State,
                        newToOld: seq<nat>, inv: seq<nat>, links: seq<int>)
    requires GoodHeaps(g, level, dist, limit, s, s.seen) && Fits(g, p, dist, s) && OnLevel(g, level, links)
    requires Inverse(newToOld, inv) && |inv| == g.Count()
    ensures Renameable(newToOld, inv, s) && RenamedCandidates(inv, s.cand).Valid()
    ensures Renameable(newToOld, inv, Visited(p, dist, s, links)) && Listed(Relabel(inv, links), |inv|)
    ensures Visited(RenamedParams(newToOld, p), Gather(dist, newToOld), RenamedState(newToOld, inv, s),
                    Relabel(inv, links))
         == RenamedState(newToOld, inv, Visited(p, dist, s, links))
  {
    var f := Fresh(s.seen, links);
    var t := s.(seen := Marked(s.seen, f));
    FreshUnused(g, level, s.seen, links);
    SameHeaps(g, level, dist, limit, s, s.seen, t.seen);
    GoodIsRenameable(g, level, dist, limit, s, s.seen, newToOld, inv);
    GoodIsRenameable(g, level, dist, limit, t, s.seen, newToOld, inv);
    AddedAllCommutes(g, level, p, dist, limit, t, s.seen, newToOld, inv, f);
    FreshCommutes(s.seen, links, newToOld, inv);
    MarkedCommutes(s.seen, f, newToOld, inv);
  }

  lemma TakenOutGood(g: Graph, level: nat, dist: seq<real>, limit: real, s: State, m: nat)
    requires |s.seen| == g.Count() && GoodHeaps(g, level, dist, limit, s, s.seen)
    requires m < |s.cand.entries| && s.cand.entries[m].id != -1
    ensures GoodHeaps(g, level, dist, limit, s.(cand := TakenOut(s.cand, m)), s.seen)
  {
    var h, r := s.cand.entries, TakenOut(s.cand, m).entries;
    TakenOutNoTies(s.cand, m);
    forall x | x in r ensures GoodCandidate(g, level, dist, s.seen, x) {
      var i :| 0 <= i < |r| && r[i] == x;
      assert h[i] in h && h[m] in h;
      assert GoodCandidate(g, level, dist, s.seen, h[i]);
    }
  }

  lemma SteppedGood(g: Graph, level: nat, p: Params, dist: seq<real>, limit: real, s: State, m: nat, links: seq<int>)
    requires GoodHeaps(g, level, dist, limit, s, s.seen) && Fits(g, p, dist, s) && OnLevel(g, level, links)
    requires m < |s.cand.entries| && s.cand.entries[m].id != -1
    ensures GoodHeaps(g, level, dist, limit, Stepped(p, dist, s, m, links), Stepped(p, dist, s, m, links).seen)
  {
    TakenOutGood(g, level, dist, limit, s, m);
    VisitedGood(g, level, p, dist, limit, s.(cand := TakenOut(s.cand, m)), links);
  }

  lemma ContinuedCommutes(g: Graph, level: nat, p: Params, dist: seq<real>, limit: real, s: State,
                          newToOld: seq<nat>, inv: seq<nat>, d0: real, links: seq<int>)
    requires GoodHeaps(g, level, dist, limit, s, s.seen) && Fits(g, p, dist, s) && OnLevel(g, level, links)
    requires Inverse(newToOld, inv) && |inv| == g.Count()
    ensures Renameable(newToOld, inv, s) && RenamedCandidates(inv, s.cand).Valid()
    ensures Renameable(newToOld, inv, Continued(p, dist, s, d0, links)) && Listed(Relabel(inv, links), |inv|)
    ensures Continued(RenamedParams(newToOld, p), Gather(dist, newToOld), RenamedState(newToOld, inv, s), d0,
                      Relabel(inv, links))
         == RenamedState(newToOld, inv, Continued(p, dist, s, d0, links))
  {
    VisitedCommutes(g, level, p, dist, limit, s, newToOld, inv, links);
    CloserRenamed(inv, s.cand.entries, d0);
    StopRenamed(newToOld, inv, s);
    CountRenamed(newToOld, inv, p, Visited(p, dist, s, links));
  }

  lemma StopRenamed(newToOld: seq<nat>, inv: seq<nat>, s: State)
    requires Renameable(newToOld, inv, s)
    ensures Renameable(newToOld, inv, s.(done := true))
    ensures RenamedState(newToOld, inv, s.(done := true)) == RenamedState(newToOld, inv, s).(done := true)
  {
  }

  lemma CountRenamed(newToOld: seq<nat>, inv: seq<nat>, p: Params, s: State)
    requires Renameable(newToOld, inv, s) && |p.sel| == |inv|
    ensures Renameable(newToOld, inv, Counted(p, s))
    ensures Counted(RenamedParams(newToOld, p), RenamedState(newToOld, inv, s))
         == RenamedState(newToOld, inv, Counted(p, s))
  {
  }

  lemma SteppedCommutes(g: Graph, level: nat, p: Params, dist: seq<real>, limit: real, s: State,
                        newToOld: seq<nat>, inv: seq<nat>, m: nat, links: seq<int>)
    requires GoodHeaps(g, level, dist, limit, s, s.seen) && Fits(g, p, dist, s) && OnLevel(g, level, links)
    requires Inverse(newToOld, inv) && |inv| == g.Count() && m < |s.cand.entries| && s.cand.entries[m].id != -1
    requires Renameable(newToOld, inv, s) && RenamedCandidates(inv, s.cand).Valid()
    ensures RenamedAll(inv, s.cand.entries)[m].id != -1
    ensures Renameable(newToOld, inv, Stepped(p, dist, s, m, links)) && Listed(Relabel(inv, links), |inv|)
    ensures Stepped(RenamedParams(newToOld, p), Gather(dist, newToOld), RenamedState(newToOld, inv, s), m,
                    Relabel(inv, links))
         == RenamedState(newToOld, inv, Stepped(p, dist, s, m, links))
  {
    var t := s.(cand := TakenOut(s.cand, m));
    TakenOutRenamed(inv, s.cand, m);
    TakenOutGood(g, level, dist, limit, s, m);
    ContinuedCommutes(g, level, p, dist, limit, t, newToOld, inv, s.cand.entries[m].dis, links);
    var s' := RenamedState(newToOld, inv, s);
    assert s'.(cand := TakenOut(s'.cand, m)) == RenamedState(newToOld, inv, t);
  }

  // ---------------------------------------------------------------------------
  // The whole search
  // ---------------------------------------------------------------------------

  /** A candidate has been taken out or is a node of the level. */
  ghost predicate Placed(g: Graph, level: nat, x: Entry) {
    x.id == -1 || (0 <= x.id < g.Count() && g.levels[x.id] > level)
  }

  /** What holds between two iterations of any search. */
  ghost predicate Shaped(g: Graph, cum: seq<nat>, level: nat, p: Params, dist: seq<real>, s: State) {
    && Valid(g, cum) && Levelled(g, cum) && |dist| == |p.sel| == |s.seen| == g.Count() && s.cand.Valid() && |s.res| > 0
    && forall x :: x in s.cand.entries ==> Placed(g, level, x)
  }

  lemma {:induction false} AddedAllPlaced(g: Graph, level: nat, p: Params, dist: seq<real>, s: State, nodes: seq<nat>)
    requires s.cand.Valid() && |s.res| > 0 && |dist| == |p.sel| == g.Count()
    requires forall k :: 0 <= k < |nodes| ==> nodes[k] < |dist| && g.levels[nodes[k]] > level
    requires forall x :: x in s.cand.entries ==> Placed(g, level, x)
    ensures forall x :: x in AddedAll(p, dist, s, nodes).cand.entries ==> Placed(g, level, x)
  {
    if |nodes| > 0 {
      var n, v := |nodes| - 1, nodes[|nodes| - 1];
      AddedAllPlaced(g, level, p, dist, s, nodes[..n]);
      PushedMembers(AddedAll(p, dist, s, nodes[..n]).cand, Entry(dist[v], v));
    }
  }

  lemma SteppedShaped(g: Graph, cum: seq<nat>, level: nat, p: Params, dist: seq<real>, s: State, m: nat,
                      links: seq<int>)
    requires Shaped(g, cum, level, p, dist, s) && OnLevel(g, level, links)
    requires m < |s.cand.entries| && s.cand.entries[m].id != -1
    ensures Shaped(g, cum, level, p, dist, Stepped(p, dist, s, m, links))
  {
    var f := Fresh(s.seen, links);
    var t := s.(cand := TakenOut(s.cand, m));
    FreshUnused(g, level, s.seen, links);
    AddedAllPlaced(g, level, p, dist, t.(seen := Marked(t.seen, f)), f);
  }

  /** What also holds if no two nodes are equally far. */
  ghost predicate Sound(g: Graph, cum: seq<nat>, level: nat, p: Params, dist: seq<real>, limit: real, s: State) {
    Shaped(g, cum, level, p, dist, s) && Injective(dist) && GoodHeaps(g, level, dist, limit, s, s.seen)
  }

  ghost predicate Halted(s: State) {
    s.done || s.cand.valid == 0
  }

  /** The position pop_min takes its entry from. */
  ghost function MinOf(h: seq<Entry>): (m: nat)
    requires Taken(h) < |h|
    ensures IsMin(h, m)
  {
    var n := |h| - 1;
    assert forall i :: 0 <= i < n ==> h[..n][i] == h[i];
    SomeLeft(h[..n]);
    if Taken(h[..n]) == n then n
    else
      var m := MinOf(h[..n]);
      if h[n].id != -1 && h[n].dis <= h[m].dis then n else m
  }

  /** Position m holds the next node, which is on the level. */
  lemma NextNode(g: Graph, cum: seq<nat>, level: nat, p: Params, dist: seq<real>, s: State, m: nat)
    requires Shaped(g, cum, level, p, dist, s) && IsMin(s.cand.entries, m)
    ensures 0 <= s.cand.entries[m].id < g.Count() && level < g.levels[s.cand.entries[m].id]
    ensures OnLevel(g, level, Links(g, cum, s.cand.entries[m].id, level))
  {
    assert s.cand.entries[m] in s.cand.entries;
    assert Placed(g, level, s.cand.entries[m]);
    assert StaysOn(g, cum, s.cand.entries[m].id, level);
  }

  /** One iteration of the loop. */
  ghost function Next(g: Graph, cum: seq<nat>, level: nat, p: Params, dist: seq<real>, s: State): (r: State)
    requires Shaped(g, cum, level, p, dist, s) && !Halted(s)
    ensures Shaped(g, cum, level, p, dist, r)
  {
    var m := MinOf(s.cand.entries);
    NextNode(g, cum, level, p, dist, s, m);
    var links := Links(g, cum, s.cand.entries[m].id, level);
    SteppedShaped(g, cum, level, p, dist, s, m, links);
    Stepped(p, dist, s, m, links)
  }

  lemma NextSound(g: Graph, cum: seq<nat>, level: nat, p: Params, dist: seq<real>, limit: real, s: State)
    requires Sound(g, cum, level, p, dist, limit, s) && !Halted(s)
    ensures Sound(g, cum, level, p, dist, limit, Next(g, cum, level, p, dist, s))
  {
    var m := MinOf(s.cand.entries);
    NextNode(g, cum, level, p, dist, s, m);
    SteppedGood(g, level, p, dist, limit, s, m, Links(g, cum, s.cand.entries[m].id, level));
  }

  ghost function Repeat(next: State -> State, n: nat, s: State): State {
    if n == 0 then s else Repeat(next, n - 1, next(s))
  }

  lemma {:induction false} RepeatInStep(next: State -> State, other: State -> State, related: (State, State) -> bool,
                                        n: nat, s: State, t: State)
    requires related(s, t) && forall a, b :: related(a, b) ==> related(next(a), other(b))
    ensures related(Repeat(next, n, s), Repeat(other, n, t))
    decreases n
  {
    if n > 0 {
      RepeatInStep(next, other, related, n - 1, next(s), other(t));
    }
  }

  /** One iteration, or none once the loop has ended. */
  ghost function NextOrSame(g: Graph, cum: seq<nat>, level: nat, p: Params, dist: seq<real>): State -> State {
    s => if Shaped(g, cum, level, p, dist, s) && !Halted(s) then Next(g, cum, level, p, dist, s) else s
  }

  /** The state after n iterations, or after all of them if there are fewer. */
  ghost function Run(g: Graph, cum: seq<nat>, level: nat, p: Params, dist: seq<real>, s: State, n: nat): State {
    Repeat(NextOrSame(g, cum, level, p, dist), n, s)
  }

  // The renumbered side is sound as well.

  lemma InjectiveRenamed(dist: seq<real>, newToOld: seq<nat>, inv: seq<nat>)
    requires Inverse(newToOld, inv) && |dist| == |inv| && Injective(dist)
    ensures Injective(Gather(dist, newToOld))
  {
    forall i, j | 0 <= i < j < |newToOld| ensures Gather(dist, newToOld)[i] != Gather(dist, newToOld)[j] {
      assert inv[newToOld[i]] == i && inv[newToOld[j]] == j;
    }
  }

  lemma CandidateRenamed(g: Graph, h: Graph, cum: seq<nat>, newToOld: seq<nat>, inv: seq<nat>, level: nat,
                         dist: seq<real>, used: seq<bool>, x: Entry)
    requires Renumbered(g, h, cum, newToOld, inv) && |used| == |dist| == g.Count()
    requires GoodCandidate(g, level, dist, used, x) && -1 <= x.id < |inv|
    ensures GoodCandidate(h, level, Gather(dist, newToOld), Gather(used, newToOld), Renamed(inv, x))
  {
    var w: nat :| w < |dist| && used[w] && dist[w] == x.dis;
    assert Gather(used, newToOld)[inv[w]] && Gather(dist, newToOld)[inv[w]] == x.dis;
    if x.id != -1 {
      assert h.levels[inv[x.id]] == g.levels[newToOld[inv[x.id]]];
    }
  }

  lemma HeapsRenamed(g: Graph, h: Graph, cum: seq<nat>, newToOld: seq<nat>, inv: seq<nat>, level: nat, dist: seq<real>,
                     limit: real, s: State)
    requires Renumbered(g, h, cum, newToOld, inv) && |s.seen| == g.Count()
    requires GoodHeaps(g, level, dist, limit, s, s.seen)
    requires Renameable(newToOld, inv, s) && RenamedCandidates(inv, s.cand).Valid()
    ensures GoodHeaps(h, level, Gather(dist, newToOld), limit, RenamedState(newToOld, inv, s), Gather(s.seen, newToOld))
  {
    RenamedNoTies(inv, s.cand.entries);
    CandidatesRenamed(g, h, cum, newToOld, inv, level, dist, s.seen, s.cand.entries);
    ResultsRenamed(newToOld, inv, dist, limit, s.res);
  }

  lemma CandidatesRenamed(g: Graph, h: Graph, cum: seq<nat>, newToOld: seq<nat>, inv: seq<nat>, level: nat,
                          dist: seq<real>, used: seq<bool>, entries: seq<Entry>)
    requires Renumbered(g, h, cum, newToOld, inv) && |used| == |dist| == g.Count() && InRange(entries, |inv|)
    requires forall x :: x in entries ==> GoodCandidate(g, level, dist, used, x)
    ensures forall x :: x in RenamedAll(inv, entries) ==>
              GoodCandidate(h, level, Gather(dist, newToOld), Gather(used, newToOld), x)
  {
    var r := RenamedAll(inv, entries);
    forall x | x in r ensures GoodCandidate(h, level, Gather(dist, newToOld), Gather(used, newToOld), x) {
      var i :| 0 <= i < |r| && r[i] == x;
      assert entries[i] in entries;
      CandidateRenamed(g, h, cum, newToOld, inv, level, dist, used, entries[i]);
    }
  }

  lemma ResultsRenamed(newToOld: seq<nat>, inv: seq<nat>, dist: seq<real>, limit: real, res: seq<Entry>)
    requires Inverse(newToOld, inv) && |dist| == |inv| && InRange(res, |inv|)
    requires forall x :: x in res ==> GoodResult(dist, limit, x)
    ensures forall x :: x in RenamedAll(inv, res) ==> GoodResult(Gather(dist, newToOld), limit, x)
  {
    var r := RenamedAll(inv, res);
    forall x | x in r ensures GoodResult(Gather(dist, newToOld), limit, x) {
      var i :| 0 <= i < |r| && r[i] == x;
      assert res[i] in res;
      assert GoodResult(dist, limit, res[i]);
    }
  }

  lemma SoundRenamed(g: Graph, h: Graph, cum: seq<nat>, newToOld: seq<nat>, inv: seq<nat>, level: nat, p: Params,
                     dist: seq<real>, limit: real, s: State)
    requires Renumbered(g, h, cum, newToOld, inv) && Sound(g, cum, level, p, dist, limit, s)
    ensures Renameable(newToOld, inv, s) && RenamedCandidates(inv, s.cand).Valid()
    ensures Sound(h, cum, level, RenamedParams(newToOld, p), Gather(dist, newToOld), limit,
                  RenamedState(newToOld, inv, s))
  {
    GoodIsRenameable(g, level, dist, limit, s, s.seen, newToOld, inv);
    HeapsRenamed(g, h, cum, newToOld, inv, level, dist, limit, s);
    InjectiveRenamed(dist, newToOld, inv);
    RenumberedLevelled(g, h, cum, newToOld, inv);
    GoodIsShaped(h, cum, level, RenamedParams(newToOld, p), Gather(dist, newToOld), limit,
                 RenamedState(newToOld, inv, s));
  }

  lemma GoodIsShaped(g: Graph, cum: seq<nat>, level: nat, p: Params, dist: seq<real>, limit: real, s: State)
    requires Valid(g, cum) && Levelled(g, cum) && |dist| == |p.sel| == |s.seen| == g.Count()
    requires GoodHeaps(g, level, dist, limit, s, s.seen)
    ensures Shaped(g, cum, level, p, dist, s)
  {
    forall x | x in s.cand.entries ensures Placed(g, level, x) {
      assert GoodCandidate(g, level, dist, s.seen, x);
    }
  }

  /** One iteration on the renumbered graph. */
  lemma NextCommutes(g: Graph, h: Graph, cum: seq<nat>, newToOld: seq<nat>, inv: seq<nat>, level: nat, p: Params,
                     dist: seq<real>, limit: real, s: State)
    requires Renumbered(g, h, cum, newToOld, inv) && Sound(g, cum, level, p, dist, limit, s) && !Halted(s)
    requires Renameable(newToOld, inv, s) && Renameable(newToOld, inv, Next(g, cum, level, p, dist, s))
    requires Shaped(h, cum, level, RenamedParams(newToOld, p), Gather(dist, newToOld), RenamedState(newToOld, inv, s))
    ensures Next(h, cum, level, RenamedParams(newToOld, p), Gather(dist, newToOld), RenamedState(newToOld, inv, s))
         == RenamedState(newToOld, inv, Next(g, cum, level, p, dist, s))
  {
    var m, entries := MinOf(s.cand.entries), s.cand.entries;
    MinRenamed(inv, entries, m);
    OneMin(RenamedAll(inv, entries), m, MinOf(RenamedAll(inv, entries)));
    NextNode(g, cum, level, p, dist, s, m);
    RenumberedLinks(g, h, cum, newToOld, inv, inv[entries[m].id], level);
    SteppedCommutes(g, level, p, dist, limit, s, newToOld, inv, m, Links(g, cum, entries[m].id, level));
  }

  /** The state under the new names. */
  ghost function Translated(newToOld: seq<nat>, inv: seq<nat>, s: State): State {
    if Renameable(newToOld, inv, s) then RenamedState(newToOld, inv, s) else s
  }

  lemma NextTranslated(g: Graph, h: Graph, cum: seq<nat>, newToOld: seq<nat>, inv: seq<nat>, level: nat, p: Params,
                       dist: seq<real>, limit: real, s: State)
    requires Renumbered(g, h, cum, newToOld, inv) && Sound(g, cum, level, p, dist, limit, s)
    ensures
      var t := NextOrSame(g, cum, level, p, dist)(s);
      Sound(g, cum, level, p, dist, limit, t) &&
      NextOrSame(h, cum, level, RenamedParams(newToOld, p), Gather(dist, newToOld))(Translated(newToOld, inv, s))
      == Translated(newToOld, inv, t)
  {
    SoundRenamed(g, h, cum, newToOld, inv, level, p, dist, limit, s);
    if !Halted(s) {
      NextSound(g, cum, level, p, dist, limit, s);
      SoundRenamed(g, h, cum, newToOld, inv, level, p, dist, limit, Next(g, cum, level, p, dist, s));
      NextCommutes(g, h, cum, newToOld, inv, level, p, dist, limit, s);
    }
  }

  /** However long it runs, the search on the renumbered graph has the same entries in the same
      places of both heaps, under the new names. */
  lemma SearchCommutes(g: Graph, h: Graph, cum: seq<nat>, newToOld: seq<nat>, inv: seq<nat>, level: nat,
                       p: Params, dist: seq<real>, limit: real, s: State, n: nat)
    requires Renumbered(g, h, cum, newToOld, inv) && Sound(g, cum, level, p, dist, limit, s)
    ensures Sound(g, cum, level, p, dist, limit, Run(g, cum, level, p, dist, s, n))
    ensures Run(h, cum, level, RenamedParams(newToOld, p), Gather(dist, newToOld), Translated(newToOld, inv, s), n)
         == Translated(newToOld, inv, Run(g, cum, level, p, dist, s, n))
  {
    var next := NextOrSame(g, cum, level, p, dist);
    var other := NextOrSame(h, cum, level, RenamedParams(newToOld, p), Gather(dist, newToOld));
    var related := (a: State, b: State) => Sound(g, cum, level, p, dist, limit, a) && b == Translated(newToOld, inv, a);
    forall a, b | related(a, b) ensures related(next(a), other(b)) {
      NextTranslated(g, h, cum, newToOld, inv, level, p, dist, limit, a);
    }
    RepeatInStep(next, other, related, n, s, Translated(newToOld, inv, s));
  }

  // ---------------------------------------------------------------------------
  // The loops
  // ---------------------------------------------------------------------------

  method AddNode(p: Params, dist: seq<real>, s: State, v: nat) returns (r: State)
    requires s.cand.Valid() && |s.res| > 0 && v < |dist| == |p.sel|
    ensures r == Added(p, dist, s, v)
  {
    var e, res, nres := Entry(dist[v], v), s.res, s.nres;
    if p.sel[v] && e.dis < res[0].dis {
      res := HeapSink(res, e);
      nres := nres + 1;
    }
    var cand := Push(s.cand, e);
    r := s.(cand := cand, res := res, nres := nres);
  }

  ghost predicate Within(nodes: seq<nat>, n: nat) {
    forall k :: 0 <= k < |nodes| ==> nodes[k] < n
  }

  lemma AddedNext(p: Params, dist: seq<real>, s: State, nodes: seq<nat>, v: nat)
    requires s.cand.Valid() && |s.res| > 0 && |dist| == |p.sel| && Within(nodes, |dist|) && v < |dist|
    ensures Within(nodes + [v], |dist|)
    ensures AddedAll(p, dist, s, nodes + [v]) == Added(p, dist, AddedAll(p, dist, s, nodes), v)
  {
    assert (nodes + [v])[..|nodes|] == nodes;
  }

  method Flush(p: Params, dist: seq<real>, ghost s0: State, s: State, ghost earlier: seq<nat>, buffer: seq<nat>)
    returns (r: State)
    requires s0.cand.Valid() && |s0.res| > 0 && |dist| == |p.sel| && Within(earlier, |dist|) && Within(buffer, |dist|)
    requires s == AddedAll(p, dist, s0, earlier)
    ensures Within(earlier + buffer, |dist|) && r == AddedAll(p, dist, s0, earlier + buffer)
  {
    ghost var nodes := earlier;
    r := s;
    for k := 0 to |buffer|
      invariant nodes == earlier + buffer[..k] && Within(nodes, |dist|) && r == AddedAll(p, dist, s0, nodes)
    {
      AddedNext(p, dist, s0, nodes, buffer[k]);
      r := AddNode(p, dist, r, buffer[k]);
      nodes := nodes + [buffer[k]];
      assert earlier + buffer[..k + 1] == nodes;
    }
    assert buffer[..|buffer|] == buffer;
  }

  /** What the loop over the links keeps: `earlier` has been added, `buffer` only marked. */
  ghost predicate Visiting(p: Params, dist: seq<real>, s: State, links: seq<int>, j: nat, seen: seq<bool>,
                           earlier: seq<nat>, buffer: seq<nat>, r: State)
    requires s.cand.Valid() && |s.res| > 0 && |dist| == |p.sel| == |s.seen| && Listed(links, |dist|) && j <= |links|
  {
    && earlier + buffer == Fresh(s.seen, links[..j]) && seen == Marked(s.seen, earlier + buffer)
    && Within(earlier, |dist|) && Within(buffer, |dist|) && r == AddedAll(p, dist, s, earlier)
  }

  /** The loop over the links of one node: unvisited ones are marked at once and added in fours. */
  method VisitLinks(p: Params, dist: seq<real>, s: State, links: seq<int>) returns (r: State)
    requires s.cand.Valid() && |s.res| > 0 && |dist| == |p.sel| == |s.seen| && Listed(links, |dist|)
    ensures r == Visited(p, dist, s, links)
  {
    var seen, buffer: seq<nat> := s.seen, [];
    ghost var earlier: seq<nat> := [];
    r := s;
    assert Marked(s.seen, []) == s.seen;
    for j := 0 to |links|
      invariant |buffer| < 4 && Visiting(p, dist, s, links, j, seen, earlier, buffer, r)
    {
      var v := links[j];
      LinkVisited(p, dist, s, links, j, seen, earlier, buffer, r);
      if !seen[v] {
        seen, buffer := seen[v := true], buffer + [v];
        if |buffer| == 4 {
          r := Flush(p, dist, s, r, earlier, buffer);
          earlier, buffer := earlier + buffer, [];
          assert earlier + buffer == earlier;
        }
      }
    }
    assert links[..|links|] == links;
    r := Flush(p, dist, s, r, earlier, buffer);
    SeenApart(p, dist, s, earlier + buffer, seen);
    r := r.(seen := seen);
  }

  lemma LinkVisited(p: Params, dist: seq<real>, s: State, links: seq<int>, j: nat, seen: seq<bool>,
                    earlier: seq<nat>, buffer: seq<nat>, r: State)
    requires s.cand.Valid() && |s.res| > 0 && |dist| == |p.sel| == |s.seen| && Listed(links, |dist|) && j < |links|
    requires Visiting(p, dist, s, links, j, seen, earlier, buffer, r)
    ensures
      var v := links[j];
      if seen[v] then Visiting(p, dist, s, links, j + 1, seen, earlier, buffer, r)
      else Visiting(p, dist, s, links, j + 1, seen[v := true], earlier, buffer + [v], r)
  {
    var v := links[j];
    NextLink(s.seen, links, j);
    assert earlier + (buffer + [v]) == (earlier + buffer) + [v];
    if !seen[v] {
      assert seen[v := true] == Marked(s.seen, earlier + (buffer + [v]));
    }
  }

  lemma NextLink(seen: seq<bool>, links: seq<int>, j: nat)
    requires Listed(links, |seen|) && j < |links|
    ensures
      var f, v := Fresh(seen, links[..j]), links[j];
      Fresh(seen, links[..j + 1]) == if seen[v] || v in f then f else f + [v]
  {
    assert links[..j + 1][..j] == links[..j];
  }

  lemma {:induction false} SeenApart(p: Params, dist: seq<real>, s: State, nodes: seq<nat>, seen: seq<bool>)
    requires s.cand.Valid() && |s.res| > 0 && |dist| == |p.sel| && forall k :: 0 <= k < |nodes| ==> nodes[k] < |dist|
    ensures AddedAll(p, dist, s.(seen := seen), nodes) == AddedAll(p, dist, s, nodes).(seen := seen)
  {
    if |nodes| > 0 {
      SeenApart(p, dist, s, nodes[..|nodes| - 1], seen);
    }
  }

  function Unseen(seen: seq<bool>): nat {
    if |seen| == 0 then 0 else Unseen(seen[..|seen| - 1]) + if seen[|seen| - 1] then 0 else 1
  }

  lemma {:induction false} UnseenUpdate(seen: seq<bool>, v: nat)
    requires v < |seen| && !seen[v]
    ensures Unseen(seen[v := true]) + 1 == Unseen(seen)
  {
    var n := |seen| - 1;
    if v < n {
      UnseenUpdate(seen[..n], v);
      assert seen[v := true][..n] == seen[..n][v := true];
    } else {
      assert seen[v := true][..n] == seen[..n];
    }
  }

  lemma {:induction false} UnseenMarked(seen: seq<bool>, f: seq<nat>)
    requires (forall k :: 0 <= k < |f| ==> f[k] < |seen| && !seen[f[k]])
    requires forall j, k :: 0 <= j < k < |f| ==> f[j] != f[k]
    ensures Unseen(Marked(seen, f)) + |f| == Unseen(seen)
  {
    if |f| == 0 {
      assert Marked(seen, f) == seen;
    } else {
      var n := |f| - 1;
      UnseenMarked(seen, f[..n]);
      MarkedNext(seen, f);
      UnseenUpdate(Marked(seen, f[..n]), f[n]);
    }
  }

  lemma StepShrinks(p: Params, dist: seq<real>, s: State, m: nat, links: seq<int>)
    requires s.cand.Valid() && |s.res| > 0 && |dist| == |p.sel| == |s.seen| && Listed(links, |dist|)
    requires m < |s.cand.entries| && s.cand.entries[m].id != -1
    ensures
      var r := Stepped(p, dist, s, m, links);
      Unseen(r.seen) + r.cand.valid < Unseen(s.seen) + s.cand.valid
  {
    UnseenMarked(s.seen, Fresh(s.seen, links));
  }

  method StepOnce(g: Graph, cum: seq<nat>, level: nat, p: Params, dist: seq<real>, s: State) returns (r: State)
    requires Shaped(g, cum, level, p, dist, s) && !Halted(s)
    ensures r == Next(g, cum, level, p, dist, s)
    ensures Unseen(r.seen) + r.cand.valid < Unseen(s.seen) + s.cand.valid
  {
    var m := FindMin(s.cand);
    OneMin(s.cand.entries, m, MinOf(s.cand.entries));
    NextNode(g, cum, level, p, dist, s, m);
    var d0, v0 := s.cand.entries[m].dis, s.cand.entries[m].id;
    StepShrinks(p, dist, s, m, Links(g, cum, v0, level));
    r := s.(cand := TakenOut(s.cand, m));
    if p.check {
      var below := CountCloser(r.cand.entries, d0);
      if below >= p.ef {
        r := r.(done := true);
        return;
      }
    }
    var slots := NeighborRange(g, cum, v0, level);
    r := VisitLinks(p, dist, r, UntilNegative(slots));
    r := Counted(p, r);
  }

  /** search_from_candidates, from the first pop on. */
  method SearchFromCandidates(g: Graph, cum: seq<nat>, level: nat, p: Params, dist: seq<real>, s0: State)
    returns (s: State, ghost n: nat)
    requires Shaped(g, cum, level, p, dist, s0)
    ensures s == Run(g, cum, level, p, dist, s0, n) && Halted(s) && Shaped(g, cum, level, p, dist, s)
  {
    s, n := s0, 0;
    while !s.done && s.cand.valid > 0
      invariant Shaped(g, cum, level, p, dist, s) && s == Run(g, cum, level, p, dist, s0, n)
      decreases Unseen(s.seen) + s.cand.valid
    {
      RepeatLast(NextOrSame(g, cum, level, p, dist), n, s0);
      s := StepOnce(g, cum, level, p, dist, s);
      n := n + 1;
    }
  }

  lemma {:induction false} RepeatLast(next: State -> State, n: nat, s: State)
    ensures Repeat(next, n + 1, s) == next(Repeat(next, n, s))
    decreases n
  {
    if n > 0 {
      RepeatLast(next, n - 1, next(s));
    }
  }

  // ---------------------------------------------------------------------------
  // A whole query
  // ---------------------------------------------------------------------------

  /** HNSW::search at the first pop: one candidate, offered to a result heap of k empty places. */
  function Started(capacity: nat, k: nat, p: Params, dist: seq<real>, limit: real, e: nat): State
    requires k > 0 && e < |dist| == |p.sel|
  {
    var x, empty := Entry(dist[e], e), seq(k, _ => Entry(limit, -1));
    State(Candidates(capacity, [x], 1), seq(|dist|, w => w == e),
          if p.sel[e] && x.dis < limit then Sink(empty, 0, x) else empty, 0, 0, false)
  }

  lemma StartedShaped(g: Graph, cum: seq<nat>, level: nat, capacity: nat, k: nat, p: Params, dist: seq<real>,
                      limit: real, e: nat)
    requires Ready(g, cum, dist, level, e) && |p.sel| == |dist| && capacity > 0 && k > 0
    ensures Shaped(g, cum, level, p, dist, Started(capacity, k, p, dist, limit, e))
  {
    assert Taken([Entry(dist[e], e)]) == 0;
  }

  lemma StartedSound(g: Graph, cum: seq<nat>, level: nat, capacity: nat, k: nat, p: Params, dist: seq<real>,
                     limit: real, e: nat)
    requires Ready(g, cum, dist, level, e) && Injective(dist) && |p.sel| == |dist| && capacity > 0 && k > 0
    ensures Sound(g, cum, level, p, dist, limit, Started(capacity, k, p, dist, limit, e))
  {
    var s, x, empty := Started(capacity, k, p, dist, limit, e), Entry(dist[e], e), seq(k, _ => Entry(limit, -1));
    assert s.seen[e];
    NoTiesByPosition([x]);
    SinkPermutes(empty, 0, x);
    forall y | y in s.res ensures GoodResult(dist, limit, y) {
      if p.sel[e] && x.dis < limit {
        assert y in multiset(s.res);
        assert y in empty[0 := x];
      }
    }
  }

  lemma StartedTranslated(g: Graph, cum: seq<nat>, level: nat, capacity: nat, k: nat, p: Params, dist: seq<real>,
                          limit: real, e: nat, newToOld: seq<nat>, inv: seq<nat>)
    requires Ready(g, cum, dist, level, e) && Injective(dist) && |p.sel| == |dist| == |inv| && capacity > 0 && k > 0
    requires Inverse(newToOld, inv)
    ensures Translated(newToOld, inv, Started(capacity, k, p, dist, limit, e))
         == Started(capacity, k, RenamedParams(newToOld, p), Gather(dist, newToOld), limit, inv[e])
  {
    var s, s' := Started(capacity, k, p, dist, limit, e),
                 Started(capacity, k, RenamedParams(newToOld, p), Gather(dist, newToOld), limit, inv[e]);
    var x, empty := Entry(dist[e], e), seq(k, _ => Entry(limit, -1));
    StartedSound(g, cum, level, capacity, k, p, dist, limit, e);
    GoodIsRenameable(g, level, dist, limit, s, s.seen, newToOld, inv);
    if x.dis < limit {
      SinkRenamed(inv, empty, 0, x);
    }
    assert RenamedAll(inv, empty) == empty && RenamedAll(inv, [x]) == s'.cand.entries;
    OnlySeen(s.seen, s'.seen, e, newToOld, inv);
  }

  lemma OnlySeen(seen: seq<bool>, seen': seq<bool>, e: nat, newToOld: seq<nat>, inv: seq<nat>)
    requires Inverse(newToOld, inv) && e < |seen| == |seen'| == |inv|
    requires forall w :: 0 <= w < |inv| ==> (seen[w] <==> w == e) && (seen'[w] <==> w == inv[e])
    ensures Gather(seen, newToOld) == seen'
  {
    forall i | 0 <= i < |inv| ensures Gather(seen, newToOld)[i] == seen'[i] {
      assert inv[newToOld[i]] == i && newToOld[inv[e]] == e;
    }
  }

  /** Place i of two result heaps holds the same node under its old and its new name. */
  ghost predicate SameResult(newToOld: seq<nat>, was: Entry, now: Entry) {
    now.dis == was.dis && if was.id == -1 then now.id == -1 else 0 <= now.id < |newToOld| && newToOld[now.id] == was.id
  }

  /** A query on the renumbered graph, from the entry point down and through level 0, returns in
      every place the node it returned before, provided no two nodes are equally far. */
  lemma QueryCommutes(g: Graph, h: Graph, cum: seq<nat>, newToOld: seq<nat>, inv: seq<nat>, maxLevel: nat,
                      capacity: nat, k: nat, p: Params, dist: seq<real>, limit: real, n: nat)
    requires Renumbered(g, h, cum, newToOld, inv) && g.entryPoint >= 0 && Ready(g, cum, dist, maxLevel, g.entryPoint)
    requires Injective(dist) && |p.sel| == |dist| && capacity > 0 && k > 0
    ensures h.entryPoint >= 0 && Descend(g, cum, dist, maxLevel, g.entryPoint) < |dist|
    ensures Descend(h, cum, Gather(dist, newToOld), maxLevel, h.entryPoint) < |dist|
    ensures
      var p', dist' := RenamedParams(newToOld, p), Gather(dist, newToOld);
      var first := Started(capacity, k, p, dist, limit, Descend(g, cum, dist, maxLevel, g.entryPoint));
      var first' := Started(capacity, k, p', dist', limit, Descend(h, cum, dist', maxLevel, h.entryPoint));
      var end, end' := Run(g, cum, 0, p, dist, first, n), Run(h, cum, 0, p', dist', first', n);
      && (Halted(end') <==> Halted(end)) && end'.nres == end.nres && |end'.res| == |end.res|
      && forall i :: 0 <= i < |end.res| ==> SameResult(newToOld, end.res[i], end'.res[i])
  {
    var e := Descend(g, cum, dist, maxLevel, g.entryPoint);
    DescendCommutes(g, h, cum, newToOld, inv, dist, maxLevel, g.entryPoint);
    DescendImproves(g, cum, dist, maxLevel, g.entryPoint);
    StartedSound(g, cum, 0, capacity, k, p, dist, limit, e);
    StartedTranslated(g, cum, 0, capacity, k, p, dist, limit, e, newToOld, inv);
    SearchCommutes(g, h, cum, newToOld, inv, 0, p, dist, limit, Started(capacity, k, p, dist, limit, e), n);
    TranslatedResults(g, cum, p, dist, limit,
                      Run(g, cum, 0, p, dist, Started(capacity, k, p, dist, limit, e), n), newToOld, inv);
  }

  lemma TranslatedResults(g: Graph, cum: seq<nat>, p: Params, dist: seq<real>, limit: real, s: State,
                          newToOld: seq<nat>, inv: seq<nat>)
    requires Sound(g, cum, 0, p, dist, limit, s) && Inverse(newToOld, inv) && |inv| == g.Count()
    ensures
      var t := Translated(newToOld, inv, s);
      && (Halted(t) <==> Halted(s)) && t.nres == s.nres && |t.res| == |s.res|
      && forall i :: 0 <= i < |s.res| ==> SameResult(newToOld, s.res[i], t.res[i])
  {
    GoodIsRenameable(g, 0, dist, limit, s, s.seen, newToOld, inv);
  }
}
