/** What the result heap of a search holds after any number of steps: the nearest of the nodes
    visited so far, ties or no ties. And why the order in which links are met does not matter when
    no two nodes are equally far.
 */
module HnswResults {
  import opened HeapResults
  import opened HnswGreedy
  import opened HnswLayout
  import opened HnswSearch
  import opened MinimaxHeaps

  // ---------------------------------------------------------------------------
  // The results are the nearest nodes visited
  // ---------------------------------------------------------------------------

  ghost predicate Eligible(p: Params, dist: seq<real>, limit: real, used: seq<bool>, w: nat) {
    w < |dist| == |p.sel| == |used| && used[w] && p.sel[w] && dist[w] < limit
  }

  /** k empty places, and an entry for each of the first n nodes that is used, selected and below
      the limit. */
  ghost function Pool(p: Params, dist: seq<real>, limit: real, k: nat, used: seq<bool>, n: nat): multiset<Entry>
    requires n <= |dist|
  {
    if n == 0 then multiset(seq(k, _ => Entry(limit, -1)))
    else
      var before := Pool(p, dist, limit, k, used, n - 1);
      if Eligible(p, dist, limit, used, n - 1) then before + multiset{Entry(dist[n - 1], n - 1)} else before
  }

  lemma {:induction false} PoolMembers(p: Params, dist: seq<real>, limit: real, k: nat, used: seq<bool>, n: nat,
                                       x: Entry)
    requires n <= |dist|
    ensures Pool(p, dist, limit, k, used, n)[x]
         == if x == Entry(limit, -1) then k
            else if 0 <= x.id < n && x.dis == dist[x.id] && Eligible(p, dist, limit, used, x.id) then 1 else 0
  {
    if n == 0 {
      EmptyPlaces(limit, k, x);
    } else {
      PoolMembers(p, dist, limit, k, used, n - 1, x);
    }
  }

  lemma {:induction false} EmptyPlaces(limit: real, k: nat, x: Entry)
    ensures multiset(seq(k, _ => Entry(limit, -1)))[x] == if x == Entry(limit, -1) then k else 0
  {
    if k > 0 {
      EmptyPlaces(limit, k - 1, x);
      assert seq(k, _ => Entry(limit, -1)) == seq(k - 1, _ => Entry(limit, -1)) + [Entry(limit, -1)];
    }
  }

  /** One more node visited, one more entry to choose from. */
  lemma PoolGrows(p: Params, dist: seq<real>, limit: real, k: nat, used: seq<bool>, v: nat)
    requires v < |dist| == |p.sel| == |used| && !used[v]
    ensures
      var pool, used' := Pool(p, dist, limit, k, used, |dist|), used[v := true];
      Pool(p, dist, limit, k, used', |dist|)
      == if Eligible(p, dist, limit, used', v) then pool + multiset{Entry(dist[v], v)} else pool
  {
    var pool, used' := Pool(p, dist, limit, k, used, |dist|), used[v := true];
    var pool' := Pool(p, dist, limit, k, used', |dist|);
    forall x
      ensures pool'[x] == (if Eligible(p, dist, limit, used', v) then pool + multiset{Entry(dist[v], v)} else pool)[x]
    {
      PoolMembers(p, dist, limit, k, used, |dist|, x);
      PoolMembers(p, dist, limit, k, used', |dist|, x);
    }
  }

  /** The heap is ordered and holds the nearest entries of the pool. */
  ghost predicate Best(p: Params, dist: seq<real>, limit: real, used: seq<bool>, res: seq<Entry>) {
    && |dist| == |p.sel| == |used| && |res| > 0 && Heaped(ByPair, res)
    && Nearest(Pool(p, dist, limit, |res|, used, |dist|), multiset(res), |res|)
  }

  lemma WithinLimit(p: Params, dist: seq<real>, limit: real, used: seq<bool>, res: seq<Entry>)
    requires Best(p, dist, limit, used, res)
    ensures res[0].dis <= limit
  {
    assert res[0] in multiset(res);
    assert res[0] in Pool(p, dist, limit, |res|, used, |dist|);
    PoolMembers(p, dist, limit, |res|, used, |dist|, res[0]);
  }

  lemma AddedBest(p: Params, dist: seq<real>, limit: real, s: State, used: seq<bool>, v: nat)
    requires s.cand.Valid() && v < |dist| && Best(p, dist, limit, used, s.res) && !used[v]
    ensures Best(p, dist, limit, used[v := true], Added(p, dist, s, v).res)
  {
    WithinLimit(p, dist, limit, used, s.res);
    PoolGrows(p, dist, limit, |s.res|, used, v);
    if Eligible(p, dist, limit, used[v := true], v) {
      OfferKeepsNearest(Pool(p, dist, limit, |s.res|, used, |dist|), s.res, Entry(dist[v], v));
    }
  }

  lemma {:induction false} AddedAllBest(p: Params, dist: seq<real>, limit: real, s: State, used: seq<bool>,
                                        nodes: seq<nat>, r: State, used': seq<bool>)
    requires s.cand.Valid() && Best(p, dist, limit, used, s.res)
    requires forall k :: 0 <= k < |nodes| ==> nodes[k] < |dist| && !used[nodes[k]]
    requires forall j, k :: 0 <= j < k < |nodes| ==> nodes[j] != nodes[k]
    requires r == AddedAll(p, dist, s, nodes) && used' == Marked(used, nodes)
    ensures Best(p, dist, limit, used', r.res)
  {
    if |nodes| == 0 {
      assert used' == used;
    } else {
      var n := |nodes| - 1;
      var t, used1 := AddedAll(p, dist, s, nodes[..n]), Marked(used, nodes[..n]);
      AddedAllBest(p, dist, limit, s, used, nodes[..n], t, used1);
      MarkedNext(used, nodes);
      AddedBest(p, dist, limit, t, used1, nodes[n]);
    }
  }

  lemma SteppedBest(p: Params, dist: seq<real>, limit: real, s: State, m: nat, links: seq<int>)
    requires s.cand.Valid() && |dist| == |p.sel| == |s.seen| && Listed(links, |dist|)
    requires m < |s.cand.entries| && s.cand.entries[m].id != -1 && Best(p, dist, limit, s.seen, s.res)
    ensures
      var r := Stepped(p, dist, s, m, links);
      Best(p, dist, limit, r.seen, r.res)
  {
    var t, f := s.(cand := TakenOut(s.cand, m)), Fresh(s.seen, links);
    var t' := t.(seen := Marked(s.seen, f));
    AddedAllBest(p, dist, limit, t', s.seen, f, AddedAll(p, dist, t', f), Marked(s.seen, f));
  }

  lemma NextBest(g: Graph, cum: seq<nat>, level: nat, p: Params, dist: seq<real>, limit: real, s: State)
    requires Shaped(g, cum, level, p, dist, s) && !Halted(s) && Best(p, dist, limit, s.seen, s.res)
    ensures
      var r := Next(g, cum, level, p, dist, s);
      Best(p, dist, limit, r.seen, r.res)
  {
    var m := MinOf(s.cand.entries);
    NextNode(g, cum, level, p, dist, s, m);
    SteppedBest(p, dist, limit, s, m, Links(g, cum, s.cand.entries[m].id, level));
  }

  lemma RunBest(g: Graph, cum: seq<nat>, level: nat, p: Params, dist: seq<real>, limit: real, s: State, n: nat)
    requires Shaped(g, cum, level, p, dist, s) && Best(p, dist, limit, s.seen, s.res)
    ensures
      var r := Run(g, cum, level, p, dist, s, n);
      Shaped(g, cum, level, p, dist, r) && Best(p, dist, limit, r.seen, r.res) && |r.res| == |s.res|
  {
    var next := NextOrSame(g, cum, level, p, dist);
    var good := (a: State, b: State) =>
      Shaped(g, cum, level, p, dist, a) && Best(p, dist, limit, a.seen, a.res) && |a.res| == |s.res|;
    forall a, b | good(a, b) ensures good(next(a), next(b)) {
      if !Halted(a) {
        NextBest(g, cum, level, p, dist, limit, a);
      }
    }
    RepeatInStep(next, next, good, n, s, s);
  }

  /** A result is an empty place or a selected visited node with its distance, once. */
  ghost predicate FromVisited(p: Params, dist: seq<real>, limit: real, s: State, x: Entry) {
    || x == Entry(limit, -1)
    || (0 <= x.id < |dist| && x.dis == dist[x.id] && Eligible(p, dist, limit, s.seen, x.id) && multiset(s.res)[x] == 1)
  }

  /** A node that was visited and could be a result is one, unless no result is farther. */
  ghost predicate NotMissed(p: Params, dist: seq<real>, limit: real, s: State, w: nat) {
    Eligible(p, dist, limit, s.seen, w) ==>
      Entry(dist[w], w) in s.res || forall x :: x in s.res ==> x.dis <= dist[w]
  }

  /** The same, node by node. */
  lemma BestMeans(p: Params, dist: seq<real>, limit: real, s: State)
    requires Best(p, dist, limit, s.seen, s.res)
    ensures forall x :: x in s.res ==> FromVisited(p, dist, limit, s, x)
    ensures forall w: nat :: NotMissed(p, dist, limit, s, w)
  {
    var pool := Pool(p, dist, limit, |s.res|, s.seen, |dist|);
    forall x | x in s.res ensures FromVisited(p, dist, limit, s, x) {
      assert 0 < multiset(s.res)[x] <= pool[x];
      PoolMembers(p, dist, limit, |s.res|, s.seen, |dist|, x);
    }
    forall w: nat ensures NotMissed(p, dist, limit, s, w) {
      if Eligible(p, dist, limit, s.seen, w) && Entry(dist[w], w) !in s.res {
        PoolMembers(p, dist, limit, |s.res|, s.seen, |dist|, Entry(dist[w], w));
        assert Entry(dist[w], w) in pool - multiset(s.res);
        forall x | x in s.res ensures x.dis <= dist[w] {
          assert x in multiset(s.res);
        }
      }
    }
  }

  /** However long a search runs, its results are the nearest of the nodes it has visited. */
  lemma ResultsAreNearest(g: Graph, cum: seq<nat>, level: nat, p: Params, dist: seq<real>, limit: real, s: State,
                          n: nat)
    requires Shaped(g, cum, level, p, dist, s) && Best(p, dist, limit, s.seen, s.res)
    ensures
      var r := Run(g, cum, level, p, dist, s, n);
      && |r.res| == |s.res| && (forall x :: x in r.res ==> FromVisited(p, dist, limit, r, x))
      && (forall w: nat :: NotMissed(p, dist, limit, r, w))
  {
    RunBest(g, cum, level, p, dist, limit, s, n);
    BestMeans(p, dist, limit, Run(g, cum, level, p, dist, s, n));
  }

  lemma EmptyBest(k: nat, p: Params, dist: seq<real>, limit: real, none: seq<bool>, empty: seq<Entry>)
    requires k > 0 && |dist| == |p.sel| == |none| && forall w :: 0 <= w < |none| ==> !none[w]
    requires empty == seq(k, _ => Entry(limit, -1))
    ensures Best(p, dist, limit, none, empty)
  {
    var pool := Pool(p, dist, limit, k, none, |dist|);
    forall x ensures pool[x] == multiset(empty)[x] {
      PoolMembers(p, dist, limit, k, none, |dist|, x);
      EmptyPlaces(limit, k, x);
    }
    assert pool == multiset(empty) && |multiset(empty)| == k;
    forall i | 0 < i < k ensures AtMost(ByPair, empty[i], empty[Father(i)]) {
    }
  }

  /** So it is from the start of a query. */
  lemma StartedBest(capacity: nat, k: nat, p: Params, dist: seq<real>, limit: real, e: nat)
    requires k > 0 && e < |dist| == |p.sel|
    ensures Best(p, dist, limit, Started(capacity, k, p, dist, limit, e).seen,
                 Started(capacity, k, p, dist, limit, e).res)
  {
    var none, empty := seq(|dist|, _ => false), seq(k, _ => Entry(limit, -1));
    EmptyBest(k, p, dist, limit, none, empty);
    AddedBest(p, dist, limit, State(Candidates(1, [], 0), none, empty, 0, 0, false), none, e);
    assert none[e := true] == Started(capacity, k, p, dist, limit, e).seen;
  }

  // ---------------------------------------------------------------------------
  // How many results
  // ---------------------------------------------------------------------------

  /** Every place holds something below the limit, but for those left when n of k are taken. */
  ghost predicate Filled(limit: real, res: seq<Entry>, n: int) {
    && |res| > 0 && Heaped(ByPair, res) && (forall x :: x in res ==> x == Entry(limit, -1) || x.dis < limit)
    && multiset(res)[Entry(limit, -1)] == if n < |res| then |res| - n else 0
  }

  lemma OfferedFills(limit: real, res: seq<Entry>, n: nat, e: Entry)
    requires Filled(limit, res, n) && e.dis < res[0].dis
    ensures e.dis < limit && Filled(limit, Offered(res, e), n + 1)
  {
    var empty, r := Entry(limit, -1), Offered(res, e);
    SinkHeaped(ByPair, res, 0, e);
    OfferedContents(res, e);
    assert res[0] in res;
    if empty in res {
      var i :| 0 <= i < |res| && res[i] == empty;
      TopIsFarthest(ByPair, res, i);
    }
    forall x | x in r ensures x == empty || x.dis < limit {
      assert x in multiset(r);
      assert x == e || x in multiset(res);
    }
  }

  lemma {:induction false} AddedAllFill(p: Params, dist: seq<real>, limit: real, s: State, nodes: seq<nat>, first: nat)
    requires s.cand.Valid() && |dist| == |p.sel| && forall k :: 0 <= k < |nodes| ==> nodes[k] < |dist|
    requires Filled(limit, s.res, first + s.nres)
    ensures
      var r := AddedAll(p, dist, s, nodes);
      Filled(limit, r.res, first + r.nres)
  {
    if |nodes| > 0 {
      var n := |nodes| - 1;
      var t := AddedAll(p, dist, s, nodes[..n]);
      AddedAllFill(p, dist, limit, s, nodes[..n], first);
      var e := Entry(dist[nodes[n]], nodes[n]);
      if p.sel[nodes[n]] && e.dis < t.res[0].dis {
        OfferedFills(limit, t.res, first + t.nres, e);
      }
    }
  }

  lemma NextFills(g: Graph, cum: seq<nat>, level: nat, p: Params, dist: seq<real>, limit: real, s: State, first: nat)
    requires Shaped(g, cum, level, p, dist, s) && !Halted(s) && Filled(limit, s.res, first + s.nres)
    ensures
      var r := Next(g, cum, level, p, dist, s);
      Filled(limit, r.res, first + r.nres)
  {
    var m := MinOf(s.cand.entries);
    NextNode(g, cum, level, p, dist, s, m);
    var f := Fresh(s.seen, Links(g, cum, s.cand.entries[m].id, level));
    AddedAllFill(p, dist, limit, s.(cand := TakenOut(s.cand, m), seen := Marked(s.seen, f)), f, first);
  }

  ghost predicate Filling(g: Graph, cum: seq<nat>, level: nat, p: Params, dist: seq<real>, limit: real, first: nat,
                          s: State) {
    Shaped(g, cum, level, p, dist, s) && Filled(limit, s.res, first + s.nres)
  }

  lemma NextOrSameFills(g: Graph, cum: seq<nat>, level: nat, p: Params, dist: seq<real>, limit: real, first: nat,
                        s: State)
    requires Filling(g, cum, level, p, dist, limit, first, s)
    ensures Filling(g, cum, level, p, dist, limit, first, NextOrSame(g, cum, level, p, dist)(s))
  {
    if !Halted(s) {
      NextFills(g, cum, level, p, dist, limit, s, first);
    }
  }

  lemma RunFills(g: Graph, cum: seq<nat>, level: nat, p: Params, dist: seq<real>, limit: real, s: State, n: nat,
                 first: nat)
    requires Filling(g, cum, level, p, dist, limit, first, s)
    ensures Filling(g, cum, level, p, dist, limit, first, Run(g, cum, level, p, dist, s, n))
  {
    var next := NextOrSame(g, cum, level, p, dist);
    var good := (a: State, b: State) => Filling(g, cum, level, p, dist, limit, first, a);
    forall a, b | good(a, b) ensures good(next(a), next(b)) {
      NextOrSameFills(g, cum, level, p, dist, limit, first, a);
    }
    RepeatInStep(next, next, good, n, s, s);
  }

  /** The count a search returns is the number of results besides the entry, up to the places there
      are. */
  lemma CountIsFilled(g: Graph, cum: seq<nat>, level: nat, capacity: nat, k: nat, p: Params, dist: seq<real>,
                      limit: real, e: nat, n: nat)
    requires Ready(g, cum, dist, level, e) && |p.sel| == |dist| && capacity > 0 && k > 0
    ensures
      var r := Run(g, cum, level, p, dist, Started(capacity, k, p, dist, limit, e), n);
      Filled(limit, r.res, (if p.sel[e] && dist[e] < limit then 1 else 0) + r.nres)
  {
    var empty, x := seq(k, _ => Entry(limit, -1)), Entry(dist[e], e);
    forall i | 0 < i < k ensures AtMost(ByPair, empty[i], empty[Father(i)]) {
    }
    EmptyPlaces(limit, k, Entry(limit, -1));
    if p.sel[e] && x.dis < limit {
      OfferedFills(limit, empty, 0, x);
    }
    StartedShaped(g, cum, level, capacity, k, p, dist, limit, e);
    RunFills(g, cum, level, p, dist, limit, Started(capacity, k, p, dist, limit, e), n,
             if p.sel[e] && dist[e] < limit then 1 else 0);
  }

  // ---------------------------------------------------------------------------
  // The order of the links
  // ---------------------------------------------------------------------------

  function Entries(dist: seq<real>, nodes: seq<nat>): (r: seq<Entry>)
    requires forall k :: 0 <= k < |nodes| ==> nodes[k] < |dist|
    ensures |r| == |nodes| && forall k :: 0 <= k < |nodes| ==> r[k] == Entry(dist[nodes[k]], nodes[k])
  {
    seq(|nodes|, k requires 0 <= k < |nodes| => Entry(dist[nodes[k]], nodes[k]))
  }

  /** The candidates are the nearest of the old ones and the nodes added. */
  lemma {:induction false} AddedAllNearest(p: Params, dist: seq<real>, s: State, nodes: seq<nat>, r: Candidates)
    requires s.cand.Valid() && |s.res| > 0 && |dist| == |p.sel| && Within(nodes, |dist|)
    requires Heaped(ByDistance, s.cand.entries) && r == AddedAll(p, dist, s, nodes).cand
    ensures Heaped(ByDistance, r.entries) && r.capacity == s.cand.capacity
    ensures Nearest(multiset(s.cand.entries) + multiset(Entries(dist, nodes)), multiset(r.entries), r.capacity)
  {
    if |nodes| == 0 {
      NothingAdded(s.cand, Entries(dist, nodes));
    } else {
      var n, v := |nodes| - 1, nodes[|nodes| - 1];
      var c, e := AddedAll(p, dist, s, nodes[..n]).cand, Entry(dist[v], v);
      LastAdded(p, dist, s, nodes);
      LastEntry(dist, nodes);
      AddedAllNearest(p, dist, s, nodes[..n], c);
      OneMoreNearest(multiset(s.cand.entries), Entries(dist, nodes[..n]), Entries(dist, nodes), c, e);
    }
  }

  lemma LastAdded(p: Params, dist: seq<real>, s: State, nodes: seq<nat>)
    requires s.cand.Valid() && |s.res| > 0 && |dist| == |p.sel| && Within(nodes, |dist|) && |nodes| > 0
    ensures
      var n, v := |nodes| - 1, nodes[|nodes| - 1];
      AddedAll(p, dist, s, nodes).cand == Pushed(AddedAll(p, dist, s, nodes[..n]).cand, Entry(dist[v], v))
  {
  }

  lemma LastEntry(dist: seq<real>, nodes: seq<nat>)
    requires Within(nodes, |dist|) && |nodes| > 0
    ensures
      var n, v := |nodes| - 1, nodes[|nodes| - 1];
      Entries(dist, nodes) == Entries(dist, nodes[..n]) + [Entry(dist[v], v)]
  {
  }

  lemma NothingAdded(c: Candidates, none: seq<Entry>)
    requires c.Valid() && |none| == 0
    ensures Nearest(multiset(c.entries) + multiset(none), multiset(c.entries), c.capacity)
  {
    assert multiset(c.entries) + multiset(none) == multiset(c.entries);
    assert |multiset(c.entries)| == |c.entries|;
  }

  lemma OneMoreNearest(first: multiset<Entry>, some: seq<Entry>, more: seq<Entry>, c: Candidates, e: Entry)
    requires c.Valid() && e.id != -1 && Heaped(ByDistance, c.entries) && |more| == |some| + 1 && more == some + [e]
    requires Nearest(first + multiset(some), multiset(c.entries), c.capacity)
    ensures Heaped(ByDistance, Pushed(c, e).entries)
    ensures Nearest(first + multiset(more), multiset(Pushed(c, e).entries), c.capacity)
  {
    PushedContents(c, e);
    PushKeepsNearest(first + multiset(some), c, e);
    assert first + multiset(more) == first + multiset(some) + multiset{e};
  }

  /** The same nodes, whatever their order. */
  lemma SameNodes(a: seq<nat>, b: seq<nat>)
    requires forall v: nat :: v in a <==> v in b
    requires (forall j, k :: 0 <= j < k < |a| ==> a[j] != a[k]) && forall j, k :: 0 <= j < k < |b| ==> b[j] != b[k]
    ensures multiset(a) == multiset(b)
  {
    forall v: nat ensures multiset(a)[v] == multiset(b)[v] {
      OnceAtMost(a, v);
      OnceAtMost(b, v);
    }
  }

  lemma {:induction false} OnceAtMost(a: seq<nat>, v: nat)
    requires forall j, k :: 0 <= j < k < |a| ==> a[j] != a[k]
    ensures multiset(a)[v] == if v in a then 1 else 0
  {
    if |a| > 0 {
      var n := |a| - 1;
      assert a == a[..n] + [a[n]];
      OnceAtMost(a[..n], v);
    }
  }

  lemma {:induction false} EntriesPermuted(dist: seq<real>, a: seq<nat>, b: seq<nat>)
    requires Within(a, |dist|) && Within(b, |dist|) && multiset(a) == multiset(b)
    ensures multiset(Entries(dist, a)) == multiset(Entries(dist, b))
  {
    forall x ensures multiset(Entries(dist, a))[x] == multiset(Entries(dist, b))[x] {
      EntryCount(dist, a, x);
      EntryCount(dist, b, x);
    }
  }

  lemma {:induction false} EntryCount(dist: seq<real>, a: seq<nat>, x: Entry)
    requires Within(a, |dist|)
    ensures multiset(Entries(dist, a))[x] == if 0 <= x.id < |dist| && x.dis == dist[x.id] then multiset(a)[x.id] else 0
  {
    if |a| > 0 {
      var n := |a| - 1;
      EntryCount(dist, a[..n], x);
      assert a == a[..n] + [a[n]];
      assert Entries(dist, a) == Entries(dist, a[..n]) + [Entry(dist[a[n]], a[n])];
    }
  }

  lemma {:induction false} FreshMembers(seen: seq<bool>, list: seq<int>, v: nat)
    requires Listed(list, |seen|)
    ensures v in Fresh(seen, list) <==> v in list && !seen[v]
  {
    if |list| > 0 {
      var n := |list| - 1;
      FreshMembers(seen, list[..n], v);
      assert list == list[..n] + [list[n]];
    }
  }

  lemma FreshPermuted(seen: seq<bool>, a: seq<int>, b: seq<int>)
    requires Listed(a, |seen|) && Listed(b, |seen|) && multiset(a) == multiset(b)
    ensures multiset(Fresh(seen, a)) == multiset(Fresh(seen, b))
    ensures Marked(seen, Fresh(seen, a)) == Marked(seen, Fresh(seen, b))
  {
    forall v: nat ensures v in Fresh(seen, a) <==> v in Fresh(seen, b) {
      FreshMembers(seen, a, v);
      FreshMembers(seen, b, v);
      assert v in a <==> v in multiset(a);
      assert v in b <==> v in multiset(b);
    }
    SameNodes(Fresh(seen, a), Fresh(seen, b));
  }

  /** New nodes do not tie with the candidates or with each other. */
  lemma FreshUntied(g: Graph, level: nat, dist: seq<real>, limit: real, s: State, used: seq<bool>, nodes: seq<nat>)
    requires GoodHeaps(g, level, dist, limit, s, used) && Injective(dist) && Unused(g, level, used, nodes)
    ensures Untied(multiset(s.cand.entries) + multiset(Entries(dist, nodes)))
  {
    var h, added := s.cand.entries, Entries(dist, nodes);
    var all := multiset(h) + multiset(added);
    forall x: Entry, y: Entry | x in all && y in all && x.dis == y.dis
      ensures x == y
    {
      if x in h && y in h {
      } else if x in h {
        OldAndNew(g, level, dist, limit, s, used, nodes, x, y);
      } else if y in h {
        OldAndNew(g, level, dist, limit, s, used, nodes, y, x);
      } else {
        var i :| 0 <= i < |added| && added[i] == x;
        var j :| 0 <= j < |added| && added[j] == y;
      }
    }
  }

  lemma OldAndNew(g: Graph, level: nat, dist: seq<real>, limit: real, s: State, used: seq<bool>, nodes: seq<nat>,
                  x: Entry, y: Entry)
    requires GoodHeaps(g, level, dist, limit, s, used) && Injective(dist) && Unused(g, level, used, nodes)
    requires x in s.cand.entries && y in Entries(dist, nodes)
    ensures x.dis != y.dis
  {
    assert GoodCandidate(g, level, dist, used, x);
    var w: nat :| w < |dist| && used[w] && dist[w] == x.dis;
    var j :| 0 <= j < |nodes| && Entries(dist, nodes)[j] == y;
    assert w != nodes[j];
  }

  /** The same search state but for the places in the heaps and the results. */
  ghost predicate Alike(s: State, t: State) {
    && s.seen == t.seen && s.steps == t.steps && s.done == t.done && s.cand.capacity == t.cand.capacity
    && s.cand.valid == t.cand.valid && multiset(s.cand.entries) == multiset(t.cand.entries)
  }

  ghost predicate InOrder(s: State) {
    Heaped(ByDistance, s.cand.entries)
  }

  lemma {:induction false} CloserPermuted(a: seq<Entry>, b: seq<Entry>, d: real)
    requires multiset(a) == multiset(b)
    ensures Closer(a, d) == Closer(b, d)
    decreases |a|
  {
    assert |multiset(a)| == |a| && |multiset(b)| == |b|;
    if |a| > 0 {
      var n, x := |a| - 1, a[|a| - 1];
      assert x in multiset(b);
      var j :| 0 <= j < |b| && b[j] == x;
      var rest := b[..j] + b[j + 1..];
      assert b == b[..j] + [x] + b[j + 1..];
      CloserSplit(b[..j] + [x], b[j + 1..], d);
      CloserSplit(b[..j], [x], d);
      CloserSplit(b[..j], b[j + 1..], d);
      assert a == a[..n] + [x];
      Cancel(multiset(a[..n]), multiset(rest), x);
      CloserPermuted(a[..n], rest, d);
    }
  }

  lemma {:induction false} CloserSplit(a: seq<Entry>, b: seq<Entry>, d: real)
    ensures Closer(a + b, d) == Closer(a, d) + Closer(b, d)
  {
    if |b| == 0 {
      assert a + b == a;
    } else {
      assert (a + b)[..|a + b| - 1] == a + b[..|b| - 1];
      CloserSplit(a, b[..|b| - 1], d);
    }
  }

  /** Visiting the same links in another order. */
  lemma VisitedAlike(g: Graph, level: nat, p: Params, dist: seq<real>, limit: real, s: State, t: State,
                     a: seq<int>, b: seq<int>)
    requires GoodHeaps(g, level, dist, limit, s, s.seen) && Fits(g, p, dist, s) && OnLevel(g, level, a)
    requires t.cand.Valid() && |t.res| > 0 && Alike(s, t) && InOrder(s) && InOrder(t)
    requires Listed(b, |dist|) && multiset(a) == multiset(b)
    ensures Alike(Visited(p, dist, s, a), Visited(p, dist, t, b))
    ensures InOrder(Visited(p, dist, s, a)) && InOrder(Visited(p, dist, t, b))
  {
    var f, f' := Fresh(s.seen, a), Fresh(s.seen, b);
    FreshPermuted(s.seen, a, b);
    FreshUnused(g, level, s.seen, a);
    FreshUntied(g, level, dist, limit, s, s.seen, f);
    EntriesPermuted(dist, f, f');
    AddedAllAlike(p, dist, s.(seen := Marked(s.seen, f)), t.(seen := Marked(s.seen, f)), f, f');
  }

  lemma AddedAllAlike(p: Params, dist: seq<real>, s: State, t: State, f: seq<nat>, f': seq<nat>)
    requires |dist| == |p.sel| && Within(f, |dist|) && Within(f', |dist|)
    requires s.cand.Valid() && t.cand.Valid() && |s.res| > 0 && |t.res| > 0 && Alike(s, t) && InOrder(s) && InOrder(t)
    requires multiset(Entries(dist, f)) == multiset(Entries(dist, f'))
    requires Untied(multiset(s.cand.entries) + multiset(Entries(dist, f)))
    ensures Alike(AddedAll(p, dist, s, f), AddedAll(p, dist, t, f'))
    ensures InOrder(AddedAll(p, dist, s, f)) && InOrder(AddedAll(p, dist, t, f'))
  {
    var r, r' := AddedAll(p, dist, s, f).cand, AddedAll(p, dist, t, f').cand;
    AddedAllNearest(p, dist, s, f, r);
    AddedAllNearest(p, dist, t, f', r');
    NearestUnique(multiset(s.cand.entries) + multiset(Entries(dist, f)), multiset(r.entries), multiset(r'.entries),
                  r.capacity);
    TakenPermuted(r.entries, r'.entries);
  }

  lemma MinAlike(a: seq<Entry>, b: seq<Entry>, m: nat, n: nat)
    requires IsMin(a, m) && IsMin(b, n) && multiset(a) == multiset(b) && NoTies(a)
    ensures a[m] == b[n]
  {
    assert a[m] in multiset(b) && b[n] in multiset(a);
    var i :| 0 <= i < |b| && b[i] == a[m];
    var j :| 0 <= j < |a| && a[j] == b[n];
    assert a[m] in a && a[j] in a;
  }

  lemma TakenOutAlike(s: State, t: State, m: nat, n: nat)
    requires s.cand.Valid() && t.cand.Valid() && Alike(s, t) && InOrder(s) && InOrder(t)
    requires m < |s.cand.entries| && n < |t.cand.entries| && s.cand.entries[m] == t.cand.entries[n]
    requires s.cand.entries[m].id != -1
    ensures
      var s', t' := s.(cand := TakenOut(s.cand, m)), t.(cand := TakenOut(t.cand, n));
      Alike(s', t') && InOrder(s') && InOrder(t')
  {
    TakenOutOrder(s.cand, m);
    TakenOutOrder(t.cand, n);
  }

  lemma TakenOutOrder(c: Candidates, m: nat)
    requires c.Valid() && m < |c.entries| && c.entries[m].id != -1 && Heaped(ByDistance, c.entries)
    ensures Heaped(ByDistance, TakenOut(c, m).entries)
    ensures multiset(TakenOut(c, m).entries)
         == multiset(c.entries) - multiset{c.entries[m]} + multiset{Entry(c.entries[m].dis, -1)}
  {
  }

  /** One iteration, with the same links in another order. */
  lemma SteppedAlike(g: Graph, level: nat, p: Params, dist: seq<real>, limit: real, s: State, t: State,
                     m: nat, n: nat, a: seq<int>, b: seq<int>)
    requires GoodHeaps(g, level, dist, limit, s, s.seen) && Fits(g, p, dist, s) && OnLevel(g, level, a)
    requires t.cand.Valid() && |t.res| > 0 && Alike(s, t) && InOrder(s) && InOrder(t)
    requires m < |s.cand.entries| && n < |t.cand.entries| && s.cand.entries[m] == t.cand.entries[n]
    requires s.cand.entries[m].id != -1 && Listed(b, |dist|) && multiset(a) == multiset(b)
    ensures Alike(Stepped(p, dist, s, m, a), Stepped(p, dist, t, n, b))
    ensures InOrder(Stepped(p, dist, s, m, a)) && InOrder(Stepped(p, dist, t, n, b))
  {
    TakenOutAlike(s, t, m, n);
    TakenOutGood(g, level, dist, limit, s, m);
    var s', t' := s.(cand := TakenOut(s.cand, m)), t.(cand := TakenOut(t.cand, n));
    CloserPermuted(s'.cand.entries, t'.cand.entries, s.cand.entries[m].dis);
    VisitedAlike(g, level, p, dist, limit, s', t', a, b);
  }

  /** Two sets of results over the same visited nodes are the same. */
  lemma SameResults(p: Params, dist: seq<real>, limit: real, used: seq<bool>, a: seq<Entry>, b: seq<Entry>)
    requires Best(p, dist, limit, used, a) && Best(p, dist, limit, used, b) && |a| == |b| && Injective(dist)
    ensures multiset(a) == multiset(b)
  {
    var pool := Pool(p, dist, limit, |a|, used, |dist|);
    forall x, y | x in pool && y in pool && x.dis == y.dis ensures x == y {
      PoolMembers(p, dist, limit, |a|, used, |dist|, x);
      PoolMembers(p, dist, limit, |a|, used, |dist|, y);
    }
    NearestUnique(pool, multiset(a), multiset(b), |a|);
  }
}
