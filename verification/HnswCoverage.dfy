/** When a search stops and what it has visited by then: every link of every node it took out, unless
    enough entries were nearer than the last one. On a level with few enough reachable nodes it
    therefore visits all of them, and the answer is exact.
 */
module HnswCoverage {
  import opened HeapResults
  import opened HnswAnswers
  import opened HnswGreedy
  import opened HnswLayout
  import opened HnswResults
  import opened HnswSearch
  import opened MinimaxHeaps
  import opened Permutation

  // ---------------------------------------------------------------------------
  // Counting nearer entries
  // ---------------------------------------------------------------------------

  /** The places that hold an entry nearer than d, taken out or not. */
  ghost function NearerPlaces(h: seq<Entry>, d: real): set<nat> {
    set k: nat | k < |h| && h[k].dis < d
  }

  lemma {:induction false} CloserCounts(h: seq<Entry>, d: real)
    ensures Closer(h, d) == |NearerPlaces(h, d)|
  {
    if |h| > 0 {
      var n := |h| - 1;
      CloserCounts(h[..n], d);
      var before := NearerPlaces(h[..n], d);
      if h[n].dis < d {
        assert NearerPlaces(h, d) == before + {n};
      } else {
        assert NearerPlaces(h, d) == before;
      }
    }
  }

  // ---------------------------------------------------------------------------
  // One step
  // ---------------------------------------------------------------------------

  ghost predicate AllSeen(links: seq<int>, seen: seq<bool>) {
    forall k :: 0 <= k < |links| ==> 0 <= links[k] < |seen| && seen[links[k]]
  }

  /** Nothing is ever unvisited again. */
  ghost predicate SeenBy(a: seq<bool>, b: seq<bool>) {
    |a| == |b| && forall w :: 0 <= w < |a| && a[w] ==> b[w]
  }

  /** With the distance check, a step ends the search exactly if at least ef places hold something
      nearer than the node taken out, and then visits nothing; without it, if more than ef steps
      were made. Otherwise it visits every link of that node. */
  ghost predicate StepsRightly(p: Params, s: State, m: nat, links: seq<int>, r: State) {
    && m < |s.cand.entries| && SeenBy(s.seen, r.seen) &&
    var d := s.cand.entries[m].dis;
    var enough := p.check && |NearerPlaces(s.cand.entries[m := Entry(d, -1)], d)| >= p.ef;
    && (r.done <==> enough || (!p.check && r.steps > p.ef))
    && (if enough then r.seen == s.seen && r.cand.entries == s.cand.entries[m := Entry(d, -1)]
        else AllSeen(links, r.seen) && r.steps == s.steps + 1)
  }

  lemma VisitedSeen(seen: seq<bool>, links: seq<int>)
    requires Listed(links, |seen|)
    ensures SeenBy(seen, Marked(seen, Fresh(seen, links))) && AllSeen(links, Marked(seen, Fresh(seen, links)))
  {
    forall k | 0 <= k < |links| ensures Marked(seen, Fresh(seen, links))[links[k]] {
      FreshMembers(seen, links, links[k]);
      assert links[k] in links;
    }
  }

  lemma SteppedRightly(p: Params, dist: seq<real>, s: State, m: nat, links: seq<int>)
    requires s.cand.Valid() && |s.res| > 0 && |dist| == |p.sel| == |s.seen| && Listed(links, |dist|)
    requires m < |s.cand.entries| && s.cand.entries[m].id != -1 && !s.done
    ensures StepsRightly(p, s, m, links, Stepped(p, dist, s, m, links))
  {
    var d := s.cand.entries[m].dis;
    CloserCounts(s.cand.entries[m := Entry(d, -1)], d);
    VisitedSeen(s.seen, links);
  }

  /** Every iteration does so for the nearest candidate. */
  lemma NextRightly(g: Graph, cum: seq<nat>, level: nat, p: Params, dist: seq<real>, s: State, m: nat)
    requires Shaped(g, cum, level, p, dist, s) && !Halted(s) && IsMin(s.cand.entries, m)
    ensures 0 <= s.cand.entries[m].id < g.Count() && level < g.levels[s.cand.entries[m].id]
    ensures StepsRightly(p, s, m, Links(g, cum, s.cand.entries[m].id, level), Next(g, cum, level, p, dist, s))
  {
    OneMin(s.cand.entries, m, MinOf(s.cand.entries));
    NextNode(g, cum, level, p, dist, s, m);
    SteppedRightly(p, dist, s, m, Links(g, cum, s.cand.entries[m].id, level));
  }

  // ---------------------------------------------------------------------------
  // A whole run
  // ---------------------------------------------------------------------------

  lemma SeenByAll(a: seq<bool>, b: seq<bool>, c: seq<bool>)
    requires SeenBy(a, b) && SeenBy(b, c)
    ensures SeenBy(a, c)
  {
  }

  lemma {:induction false} RunSplits(next: State -> State, a: nat, b: nat, s: State)
    ensures Repeat(next, a + b, s) == Repeat(next, b, Repeat(next, a, s))
    decreases a
  {
    if a > 0 {
      RunSplits(next, a - 1, b, next(s));
    }
  }

  /** A step that keeps the invariant and every visited node, and does nothing once halted. */
  ghost predicate Grows(next: State -> State, kept: State -> bool) {
    forall a :: GrowsFrom(next, kept, a)
  }

  ghost predicate GrowsFrom(next: State -> State, kept: State -> bool, a: State) {
    kept(a) ==> kept(next(a)) && SeenBy(a.seen, next(a).seen) && (Halted(a) ==> next(a) == a)
  }

  lemma {:induction false} RepeatGrows(next: State -> State, kept: State -> bool, n: nat, s: State)
    requires Grows(next, kept) && kept(s)
    ensures
      var r := Repeat(next, n, s);
      kept(r) && SeenBy(s.seen, r.seen) && (Halted(s) ==> r == s)
    decreases n
  {
    if n > 0 {
      assert GrowsFrom(next, kept, s);
      RepeatGrows(next, kept, n - 1, next(s));
      SeenByAll(s.seen, next(s).seen, Repeat(next, n, s).seen);
    }
  }

  ghost function ShapedAs(g: Graph, cum: seq<nat>, level: nat, p: Params, dist: seq<real>): State -> bool {
    s => Shaped(g, cum, level, p, dist, s)
  }

  lemma NextGrows(g: Graph, cum: seq<nat>, level: nat, p: Params, dist: seq<real>)
    ensures Grows(NextOrSame(g, cum, level, p, dist), ShapedAs(g, cum, level, p, dist))
  {
    var next := NextOrSame(g, cum, level, p, dist);
    forall a ensures GrowsFrom(next, ShapedAs(g, cum, level, p, dist), a) {
      if Shaped(g, cum, level, p, dist, a) && !Halted(a) {
        NextRightly(g, cum, level, p, dist, a, MinOf(a.cand.entries));
      }
    }
  }

  lemma RunGrows(g: Graph, cum: seq<nat>, level: nat, p: Params, dist: seq<real>, s: State, n: nat)
    requires Shaped(g, cum, level, p, dist, s)
    ensures
      var r := Run(g, cum, level, p, dist, s, n);
      Shaped(g, cum, level, p, dist, r) && SeenBy(s.seen, r.seen) && (Halted(s) ==> r == s)
  {
    NextGrows(g, cum, level, p, dist);
    RepeatGrows(NextOrSame(g, cum, level, p, dist), ShapedAs(g, cum, level, p, dist), n, s);
  }

  /** Whatever is taken out in iteration i of a run, all its links are visited in the end, unless that
      iteration was the last one and at least ef places hold something nearer. */
  lemma TakenOutIsVisited(g: Graph, cum: seq<nat>, level: nat, p: Params, dist: seq<real>, s: State, i: nat, n: nat,
                          m: nat, t: State, r: State)
    requires Shaped(g, cum, level, p, dist, s) && i < n
    requires t == Run(g, cum, level, p, dist, s, i) && r == Run(g, cum, level, p, dist, s, n)
    requires !Halted(t) && IsMin(t.cand.entries, m)
    ensures 0 <= t.cand.entries[m].id < g.Count() && level < g.levels[t.cand.entries[m].id]
    ensures AllSeen(Links(g, cum, t.cand.entries[m].id, level), r.seen)
         || (p.check && r == Run(g, cum, level, p, dist, s, i + 1) && r.done
             && |NearerPlaces(r.cand.entries, t.cand.entries[m].dis)| >= p.ef)
  {
    RunGrows(g, cum, level, p, dist, s, i);
    NextRightly(g, cum, level, p, dist, t, m);
    var t' := AfterOne(g, cum, level, p, dist, s, i, n, t, r);
    VisitedLater(p, t, m, Links(g, cum, t.cand.entries[m].id, level), t', r);
  }

  lemma AfterOne(g: Graph, cum: seq<nat>, level: nat, p: Params, dist: seq<real>, s: State, i: nat, n: nat, t: State,
                 r: State)
    returns (t': State)
    requires Shaped(g, cum, level, p, dist, s) && Shaped(g, cum, level, p, dist, t) && i < n && !Halted(t)
    requires t == Run(g, cum, level, p, dist, s, i) && r == Run(g, cum, level, p, dist, s, n)
    ensures t' == Next(g, cum, level, p, dist, t) && t' == Run(g, cum, level, p, dist, s, i + 1)
    ensures SeenBy(t'.seen, r.seen) && (t'.done ==> r == t')
  {
    NextGrows(g, cum, level, p, dist);
    t' := RepeatAfter(NextOrSame(g, cum, level, p, dist), ShapedAs(g, cum, level, p, dist), i, n, s, t, r);
  }

  lemma RepeatAfter(next: State -> State, kept: State -> bool, i: nat, n: nat, s: State, t: State, r: State)
    returns (t': State)
    requires Grows(next, kept) && kept(t) && i < n && t == Repeat(next, i, s) && r == Repeat(next, n, s)
    ensures t' == next(t) && t' == Repeat(next, i + 1, s)
    ensures SeenBy(t'.seen, r.seen) && (Halted(t') ==> r == t')
  {
    t' := next(t);
    assert GrowsFrom(next, kept, t);
    RepeatMiddle(next, i, n, s, t, t');
    RepeatGrows(next, kept, n - i - 1, t');
  }

  lemma RepeatMiddle(next: State -> State, i: nat, n: nat, s: State, t: State, t': State)
    requires i < n && t == Repeat(next, i, s) && t' == next(t)
    ensures t' == Repeat(next, i + 1, s) && Repeat(next, n, s) == Repeat(next, n - i - 1, t')
  {
    RepeatLast(next, i, s);
    RunSplits(next, i + 1, n - i - 1, s);
    assert i + 1 + (n - i - 1) == n;
  }

  lemma VisitedLater(p: Params, t: State, m: nat, links: seq<int>, t': State, r: State)
    requires StepsRightly(p, t, m, links, t') && SeenBy(t'.seen, r.seen) && (t'.done ==> r == t')
    ensures AllSeen(links, r.seen)
         || (p.check && r == t' && r.done && |NearerPlaces(r.cand.entries, t.cand.entries[m].dis)| >= p.ef)
  {
  }

  // ---------------------------------------------------------------------------
  // Few reachable nodes
  // ---------------------------------------------------------------------------

  ghost predicate Closed(links: nat -> seq<int>, nodes: seq<bool>) {
    forall w: nat :: w < |nodes| && nodes[w] ==> AllSeen(links(w), nodes)
  }

  /** The nodes that can be reached from e. */
  ghost predicate IsReach(links: nat -> seq<int>, e: nat, reach: seq<bool>) {
    && e < |reach| && reach[e] && Closed(links, reach)
    && forall other: seq<bool> :: |other| == |reach| && other[e] && Closed(links, other) ==> SeenBy(reach, other)
  }

  ghost function Members(nodes: seq<bool>): (n: nat)
    ensures n <= |nodes|
  {
    UnseenAtMost(nodes);
    |nodes| - Unseen(nodes)
  }

  lemma {:induction false} UnseenAtMost(nodes: seq<bool>)
    ensures Unseen(nodes) <= |nodes|
  {
    if |nodes| > 0 {
      UnseenAtMost(nodes[..|nodes| - 1]);
    }
  }

  lemma {:induction false} FewerMembers(a: seq<bool>, b: seq<bool>)
    requires SeenBy(a, b)
    ensures Members(a) <= Members(b)
  {
    if |a| > 0 {
      var n := |a| - 1;
      assert forall w :: 0 <= w < n ==> a[..n][w] == a[w] && b[..n][w] == b[w];
      FewerMembers(a[..n], b[..n]);
    }
  }

  /** The node is still to be taken out. */
  ghost predicate Open(s: State, w: nat) {
    exists i :: 0 <= i < |s.cand.entries| && s.cand.entries[i].id == w
  }

  /** Between two iterations: no candidate was ever dropped, and every visited node is open or has all
      its links visited. */
  ghost predicate Covering(links: nat -> seq<int>, reach: seq<bool>, s: State) {
    && s.cand.Valid() && |s.res| > 0 && !s.done && SeenBy(s.seen, reach)
    && Members(s.seen) == |s.cand.entries| == s.steps + s.cand.valid
    && (forall x :: x in s.cand.entries && x.id != -1 ==> 0 <= x.id < |s.seen| && s.seen[x.id])
    && (forall w: nat :: w < |s.seen| && s.seen[w] ==> Open(s, w) || AllSeen(links(w), s.seen))
  }

  lemma {:induction false} SomeNotCloser(h: seq<Entry>, d: real, m: nat)
    requires m < |h| && h[m].dis >= d
    ensures Closer(h, d) < |h|
  {
    var n := |h| - 1;
    CloserAtMost(h[..n], d);
    if m < n {
      SomeNotCloser(h[..n], d, m);
    }
  }

  lemma {:induction false} CloserAtMost(h: seq<Entry>, d: real)
    ensures Closer(h, d) <= |h|
  {
    if |h| > 0 {
      CloserAtMost(h[..|h| - 1], d);
    }
  }

  /** With room for all of them, every node added is a candidate afterwards. */
  lemma {:induction false} AddedAllFit(p: Params, dist: seq<real>, s: State, nodes: seq<nat>, r: Candidates)
    requires s.cand.Valid() && |s.res| > 0 && |dist| == |p.sel| && Within(nodes, |dist|)
    requires |s.cand.entries| + |nodes| <= s.cand.capacity && r == AddedAll(p, dist, s, nodes).cand
    ensures r.capacity == s.cand.capacity && r.valid == s.cand.valid + |nodes|
    ensures |r.entries| == |s.cand.entries| + |nodes|
    ensures multiset(r.entries) == multiset(s.cand.entries) + multiset(Entries(dist, nodes))
  {
    if |nodes| == 0 {
      assert Entries(dist, nodes) == [];
    } else {
      var n, v := |nodes| - 1, nodes[|nodes| - 1];
      var c, e := AddedAll(p, dist, s, nodes[..n]).cand, Entry(dist[v], v);
      LastAdded(p, dist, s, nodes);
      LastEntry(dist, nodes);
      AddedAllFit(p, dist, s, nodes[..n], c);
      OneMoreFits(c, e, multiset(s.cand.entries), Entries(dist, nodes[..n]), Entries(dist, nodes));
    }
  }

  lemma OneMoreFits(c: Candidates, e: Entry, before: multiset<Entry>, some: seq<Entry>, more: seq<Entry>)
    requires c.Valid() && e.id != -1 && |c.entries| < c.capacity && more == some + [e]
    requires multiset(c.entries) == before + multiset(some)
    ensures
      var r := Pushed(c, e);
      && r.capacity == c.capacity && r.valid == c.valid + 1 && |r.entries| == |c.entries| + 1
      && multiset(r.entries) == before + multiset(more)
  {
    PushedContents(c, e);
  }

  /** One node taken out, its new links added. */
  lemma CoveringStep(links: nat -> seq<int>, reach: seq<bool>, p: Params, dist: seq<real>, s: State, m: nat,
                     list: seq<int>, r: State)
    requires Covering(links, reach, s) && Closed(links, reach) && |dist| == |p.sel| == |s.seen| == |reach|
    requires Members(reach) <= p.ef && Members(reach) <= s.cand.capacity
    requires m < |s.cand.entries| && s.cand.entries[m].id != -1 && list == links(s.cand.entries[m].id)
    requires Listed(list, |dist|) && r == Stepped(p, dist, s, m, list)
    ensures Covering(links, reach, r) && r.cand.capacity == s.cand.capacity
  {
    var v, d := s.cand.entries[m].id, s.cand.entries[m].dis;
    var t, f := s.(cand := TakenOut(s.cand, m)), Fresh(s.seen, list);
    assert s.cand.entries[m] in s.cand.entries;
    FewerMembers(s.seen, reach);
    SomeNotCloser(t.cand.entries, d, m);
    FreshInReach(links, reach, s.seen, v, list);
    UnseenMarked(s.seen, f);
    FewerMembers(Marked(s.seen, f), reach);
    var t' := t.(seen := Marked(s.seen, f));
    AddedAllFit(p, dist, t', f, r.cand);
    VisitedSeen(s.seen, list);
    CandidatesSeen(s, m, dist, f, r);
    StillOpen(links, s, m, dist, f, r, list);
  }

  lemma FreshInReach(links: nat -> seq<int>, reach: seq<bool>, seen: seq<bool>, v: nat, list: seq<int>)
    requires SeenBy(seen, reach) && Closed(links, reach) && v < |seen| && seen[v] && list == links(v)
    requires Listed(list, |seen|)
    ensures SeenBy(Marked(seen, Fresh(seen, list)), reach)
  {
    var f := Fresh(seen, list);
    forall w | 0 <= w < |seen| && Marked(seen, f)[w] ensures reach[w] {
      if w in f {
        var k :| 0 <= k < |list| && list[k] == w;
      }
    }
  }

  /** The candidates after a step are visited nodes. */
  lemma CandidatesSeen(s: State, m: nat, dist: seq<real>, f: seq<nat>, r: State)
    requires m < |s.cand.entries| && Within(f, |dist|) && |dist| == |s.seen| && r.seen == Marked(s.seen, f)
    requires forall x :: x in s.cand.entries && x.id != -1 ==> 0 <= x.id < |s.seen| && s.seen[x.id]
    requires multiset(r.cand.entries)
          == multiset(s.cand.entries[m := Entry(s.cand.entries[m].dis, -1)]) + multiset(Entries(dist, f))
    ensures forall x :: x in r.cand.entries && x.id != -1 ==> 0 <= x.id < |r.seen| && r.seen[x.id]
  {
    var rest := s.cand.entries[m := Entry(s.cand.entries[m].dis, -1)];
    forall x | x in r.cand.entries && x.id != -1 ensures 0 <= x.id < |r.seen| && r.seen[x.id] {
      assert x in multiset(r.cand.entries);
      if x in rest {
        var i :| 0 <= i < |rest| && rest[i] == x;
        assert s.cand.entries[i] in s.cand.entries;
      } else {
        assert x in Entries(dist, f);
        var k :| 0 <= k < |f| && Entries(dist, f)[k] == x;
        assert f[k] in f;
      }
    }
  }

  /** Every visited node is open or expanded again. */
  lemma StillOpen(links: nat -> seq<int>, s: State, m: nat, dist: seq<real>, f: seq<nat>, r: State, list: seq<int>)
    requires m < |s.cand.entries| && s.cand.entries[m].id >= 0 && list == links(s.cand.entries[m].id)
    requires Within(f, |dist|) && |dist| == |s.seen| && r.seen == Marked(s.seen, f) && AllSeen(list, r.seen)
    requires forall w: nat :: w < |s.seen| && s.seen[w] ==> Open(s, w) || AllSeen(links(w), s.seen)
    requires multiset(r.cand.entries)
          == multiset(s.cand.entries[m := Entry(s.cand.entries[m].dis, -1)]) + multiset(Entries(dist, f))
    ensures forall w: nat :: w < |r.seen| && r.seen[w] ==> Open(r, w) || AllSeen(links(w), r.seen)
  {
    var rest := s.cand.entries[m := Entry(s.cand.entries[m].dis, -1)];
    forall w: nat | w < |r.seen| && r.seen[w] ensures Open(r, w) || AllSeen(links(w), r.seen) {
      if w in f {
        var k :| 0 <= k < |f| && f[k] == w;
        assert Entries(dist, f)[k] in multiset(Entries(dist, f));
        IsOpen(r, Entries(dist, f)[k]);
      } else if w == s.cand.entries[m].id {
      } else if Open(s, w) {
        var i :| 0 <= i < |s.cand.entries| && s.cand.entries[i].id == w;
        assert rest[i] in multiset(rest);
        IsOpen(r, rest[i]);
      } else {
        assert AllSeen(links(w), s.seen);
      }
    }
  }

  lemma IsOpen(r: State, x: Entry)
    requires x in multiset(r.cand.entries) && x.id >= 0
    ensures Open(r, x.id)
  {
    assert x in r.cand.entries;
  }

  ghost predicate SmallEnough(p: Params, capacity: nat, reach: seq<bool>) {
    Members(reach) <= p.ef && Members(reach) <= capacity
  }

  lemma NextCovering(g: Graph, cum: seq<nat>, p: Params, dist: seq<real>, reach: seq<bool>, s: State)
    requires Shaped(g, cum, 0, p, dist, s) && !Halted(s) && |reach| == |dist|
    requires Covering(LinksOn(g, cum, 0), reach, s) && Closed(LinksOn(g, cum, 0), reach)
    requires SmallEnough(p, s.cand.capacity, reach)
    ensures Covering(LinksOn(g, cum, 0), reach, Next(g, cum, 0, p, dist, s))
    ensures Next(g, cum, 0, p, dist, s).cand.capacity == s.cand.capacity
  {
    var m := MinOf(s.cand.entries);
    NextNode(g, cum, 0, p, dist, s, m);
    CoveringStep(LinksOn(g, cum, 0), reach, p, dist, s, m, Links(g, cum, s.cand.entries[m].id, 0),
                 Next(g, cum, 0, p, dist, s));
  }

  lemma RunCovering(g: Graph, cum: seq<nat>, p: Params, dist: seq<real>, reach: seq<bool>, s: State, n: nat)
    requires Shaped(g, cum, 0, p, dist, s) && |reach| == |dist|
    requires Covering(LinksOn(g, cum, 0), reach, s) && Closed(LinksOn(g, cum, 0), reach)
    requires SmallEnough(p, s.cand.capacity, reach)
    ensures Covering(LinksOn(g, cum, 0), reach, Run(g, cum, 0, p, dist, s, n))
  {
    var next, links := NextOrSame(g, cum, 0, p, dist), LinksOn(g, cum, 0);
    var covering := (a: State, b: State) =>
      Shaped(g, cum, 0, p, dist, a) && Covering(links, reach, a) && a.cand.capacity == s.cand.capacity;
    forall a, b | covering(a, b) ensures covering(next(a), next(b)) {
      if !Halted(a) {
        NextCovering(g, cum, p, dist, reach, a);
      }
    }
    RepeatInStep(next, next, covering, n, s, s);
  }

  lemma {:induction false} OneMember(nodes: seq<bool>, e: nat)
    requires e < |nodes| && forall w :: 0 <= w < |nodes| ==> (nodes[w] <==> w == e)
    ensures Members(nodes) == 1
  {
    var n := |nodes| - 1;
    if e < n {
      OneMember(nodes[..n], e);
    } else {
      NoMember(nodes[..n]);
    }
  }

  lemma {:induction false} NoMember(nodes: seq<bool>)
    requires forall w :: 0 <= w < |nodes| ==> !nodes[w]
    ensures Members(nodes) == 0
  {
    if |nodes| > 0 {
      NoMember(nodes[..|nodes| - 1]);
    }
  }

  lemma StartCovers(links: nat -> seq<int>, reach: seq<bool>, capacity: nat, k: nat, p: Params, dist: seq<real>,
                    limit: real, e: nat)
    requires k > 0 && capacity > 0 && e < |dist| == |p.sel| == |reach| && reach[e]
    ensures Covering(links, reach, Started(capacity, k, p, dist, limit, e))
  {
    var s := Started(capacity, k, p, dist, limit, e);
    OneMember(s.seen, e);
    assert Taken(s.cand.entries) == 0;
    assert s.cand.entries[0].id == e;
    assert Open(s, e);
  }

  /** A covering search that has ended has visited exactly what can be reached. */
  lemma EndCovers(links: nat -> seq<int>, reach: seq<bool>, e: nat, s: State)
    requires Covering(links, reach, s) && Halted(s) && IsReach(links, e, reach) && e < |s.seen| && s.seen[e]
    ensures s.seen == reach
  {
    SomeLeft(s.cand.entries);
    forall w: nat | w < |s.seen| && s.seen[w] ensures AllSeen(links(w), s.seen) {
      assert !Open(s, w);
    }
    assert Closed(links, s.seen);
    assert SeenBy(reach, s.seen);
  }

  // ---------------------------------------------------------------------------
  // The answer
  // ---------------------------------------------------------------------------

  /** A place of an answer: empty, or a selected node among `nodes` below the limit, once. */
  ghost predicate PlaceOf(p: Params, dist: seq<real>, limit: real, nodes: seq<bool>, answer: seq<Entry>, x: Entry) {
    || x == Entry(limit, -1)
    || (0 <= x.id && Eligible(p, dist, limit, nodes, x.id) && x.dis == dist[x.id] && multiset(answer)[x] == 1)
  }

  /** The answer lists, by distance, k of the nearest selected nodes among `nodes` below the limit, each
      once, then empty places. */
  ghost predicate Lists(p: Params, dist: seq<real>, limit: real, nodes: seq<bool>, k: nat, answer: seq<Entry>) {
    && |answer| == k && (forall i, j :: 0 <= i < j < k ==> answer[i].dis <= answer[j].dis)
    && (forall x :: x in answer ==> PlaceOf(p, dist, limit, nodes, answer, x))
    && (forall w: nat :: Eligible(p, dist, limit, nodes, w) ==>
        Entry(dist[w], w) in answer || forall x :: x in answer ==> x.dis <= dist[w])
  }

  lemma PaddingCounts(ranked: seq<Entry>, n: nat, limit: real, x: Entry)
    requires x.id != -1
    ensures multiset(ranked + seq(n, _ => Entry(limit, -1)))[x] == multiset(ranked)[x]
  {
    EmptyPlaces(limit, n, x);
  }

  /** Sorting the results keeps them. */
  lemma ReturnedMembers(res: seq<Entry>, limit: real, x: Entry)
    requires forall y :: y in res && y.id == -1 ==> y == Entry(limit, -1)
    ensures x in Returned(res, limit) <==> x in res
    ensures x.id != -1 ==> multiset(Returned(res, limit))[x] == multiset(res)[x]
  {
    RankedSorts(res);
    var ranked := Ranked(res);
    if x.id != -1 {
      PaddingCounts(ranked, |res| - |ranked|, limit, x);
      assert multiset(ranked)[x] == Live(res, x);
      assert x in Returned(res, limit) <==> x in multiset(Returned(res, limit));
      assert x in res <==> x in multiset(res);
    } else {
      assert x in ranked ==> x in multiset(ranked);
      assert multiset(ranked)[x] == Live(res, x);
      EmptyIfTaken(res, limit, x);
    }
  }

  lemma EmptyIfTaken(res: seq<Entry>, limit: real, x: Entry)
    requires (forall y :: y in res && y.id == -1 ==> y == Entry(limit, -1)) && x.id == -1 && x !in Ranked(res)
    ensures x in Returned(res, limit) <==> x in res
  {
    SomeTaken(res);
    var padding := seq(|res| - |Ranked(res)|, _ => Entry(limit, -1));
    assert Returned(res, limit) == Ranked(res) + padding;
    if x in res {
      assert |padding| > 0;
      assert padding[0] == x;
      assert x in padding;
    }
    if x in padding {
      var i :| 0 <= i < |res| && res[i].id == -1;
      assert res[i] in res;
    }
  }

  lemma {:induction false} SomeTaken(h: seq<Entry>)
    ensures Taken(h) > 0 <==> exists i :: 0 <= i < |h| && h[i].id == -1
  {
    if |h| > 0 {
      SomeTaken(h[..|h| - 1]);
      assert forall i :: 0 <= i < |h| - 1 ==> h[..|h| - 1][i] == h[i];
    }
  }

  lemma ReturnedByDistance(res: seq<Entry>, limit: real, i: nat, j: nat)
    requires i < j < |res| && forall x :: x in res ==> x.dis <= limit
    ensures Returned(res, limit)[i].dis <= Returned(res, limit)[j].dis
  {
    RankedSorts(res);
    var ranked := Ranked(res);
    if j < |ranked| {
      assert !Above(ranked[i], ranked[j]);
    } else if i < |ranked| {
      assert ranked[i] in multiset(ranked);
      assert multiset(ranked)[ranked[i]] == Live(res, ranked[i]);
      assert ranked[i] in res;
    }
  }

  /** The best results, sorted, are such a list. */
  lemma BestIsListed(p: Params, dist: seq<real>, limit: real, s: State)
    requires Best(p, dist, limit, s.seen, s.res)
    ensures Lists(p, dist, limit, s.seen, |s.res|, Returned(s.res, limit))
  {
    BestMeans(p, dist, limit, s);
    var answer := Returned(s.res, limit);
    forall y | y in s.res ensures y.dis <= limit && (y.id == -1 ==> y == Entry(limit, -1)) {
      assert FromVisited(p, dist, limit, s, y);
    }
    forall x ensures x in answer <==> x in s.res ensures x.id != -1 ==> multiset(answer)[x] == multiset(s.res)[x] {
      ReturnedMembers(s.res, limit, x);
    }
    forall i, j | 0 <= i < j < |answer| ensures answer[i].dis <= answer[j].dis {
      ReturnedByDistance(s.res, limit, i, j);
    }
    forall x | x in answer ensures PlaceOf(p, dist, limit, s.seen, answer, x) {
      assert FromVisited(p, dist, limit, s, x);
    }
    forall w: nat | Eligible(p, dist, limit, s.seen, w)
      ensures Entry(dist[w], w) in answer || forall x :: x in answer ==> x.dis <= dist[w]
    {
      assert NotMissed(p, dist, limit, s, w);
    }
  }

  /** After any number of steps the answer lists the nearest of the nodes visited. */
  lemma AnswerIsListed(g: Graph, cum: seq<nat>, dist: seq<real>, q: Query, limit: real)
    requires Askable(g, cum, dist, q)
    ensures Lists(q.p, dist, limit, End(g, cum, dist, q, limit).seen, q.k, Answer(g, cum, dist, q, limit))
  {
    StartedBest(q.capacity, q.k, q.p, dist, limit, Entrance(g, cum, dist, q));
    RunBest(g, cum, 0, q.p, dist, limit, Start(g, cum, dist, q, limit), q.n);
    BestIsListed(q.p, dist, limit, End(g, cum, dist, q, limit));
  }

  /** If no more nodes can be reached than ef and the candidate heap allow, a finished query lists the
      nearest selected nodes of all that can be reached. */
  lemma SmallLevelsAreExact(g: Graph, cum: seq<nat>, dist: seq<real>, q: Query, limit: real, reach: seq<bool>)
    requires Askable(g, cum, dist, q) && |reach| == |dist| && Halted(End(g, cum, dist, q, limit))
    requires IsReach(LinksOn(g, cum, 0), Entrance(g, cum, dist, q), reach) && SmallEnough(q.p, q.capacity, reach)
    ensures End(g, cum, dist, q, limit).seen == reach
    ensures Lists(q.p, dist, limit, reach, q.k, Answer(g, cum, dist, q, limit))
  {
    var links, e, s := LinksOn(g, cum, 0), Entrance(g, cum, dist, q), Start(g, cum, dist, q, limit);
    StartCovers(links, reach, q.capacity, q.k, q.p, dist, limit, e);
    RunCovering(g, cum, q.p, dist, reach, s, q.n);
    RunGrows(g, cum, 0, q.p, dist, s, q.n);
    EndCovers(links, reach, e, End(g, cum, dist, q, limit));
    AnswerIsListed(g, cum, dist, q, limit);
  }
}
