/** A whole query, and what the layouts do to its answer: after GOrder and after ROrder it is the
    same list under the new names exactly when no two nodes are equally far from the query.
 */
module HnswAnswers {
  import opened HeapResults
  import opened HnswGreedy
  import opened HnswLayout
  import opened HnswResults
  import opened HnswROrder
  import opened HnswSearch
  import opened MinimaxHeaps
  import opened Permutation

  /** The levels to descend, the size of the candidate heap, the number of results, the parameters
      of the level-0 search and a number of iterations to look at it after. */
  datatype Query = Query(maxLevel: nat, capacity: nat, k: nat, p: Params, n: nat)

  ghost predicate Askable(g: Graph, cum: seq<nat>, dist: seq<real>, q: Query) {
    && g.entryPoint >= 0 && Ready(g, cum, dist, q.maxLevel, g.entryPoint)
    && |q.p.sel| == |dist| && q.capacity > 0 && q.k > 0
  }

  /** The entry into level 0. */
  ghost function Entrance(g: Graph, cum: seq<nat>, dist: seq<real>, q: Query): (e: nat)
    requires Askable(g, cum, dist, q)
    ensures Ready(g, cum, dist, 0, e)
  {
    DescendImproves(g, cum, dist, q.maxLevel, g.entryPoint);
    Descend(g, cum, dist, q.maxLevel, g.entryPoint)
  }

  ghost function Start(g: Graph, cum: seq<nat>, dist: seq<real>, q: Query, limit: real): (s: State)
    requires Askable(g, cum, dist, q)
    ensures Shaped(g, cum, 0, q.p, dist, s)
  {
    StartedShaped(g, cum, 0, q.capacity, q.k, q.p, dist, limit, Entrance(g, cum, dist, q));
    Started(q.capacity, q.k, q.p, dist, limit, Entrance(g, cum, dist, q))
  }

  ghost function End(g: Graph, cum: seq<nat>, dist: seq<real>, q: Query, limit: real): State
    requires Askable(g, cum, dist, q)
  {
    Run(g, cum, 0, q.p, dist, Start(g, cum, dist, q, limit), q.n)
  }

  ghost function Answer(g: Graph, cum: seq<nat>, dist: seq<real>, q: Query, limit: real): seq<Entry>
    requires Askable(g, cum, dist, q)
  {
    Returned(End(g, cum, dist, q, limit).res, limit)
  }

  /** HNSW::search with a bounded queue, on a heap of k empty places. */
  method Search(g: Graph, cum: seq<nat>, dist: seq<real>, maxLevel: nat, capacity: nat, k: nat, p: Params, limit: real)
    returns (answer: seq<Entry>, ghost q: Query)
    requires Askable(g, cum, dist, Query(maxLevel, capacity, k, p, 0))
    ensures q == Query(maxLevel, capacity, k, p, q.n) && Halted(End(g, cum, dist, q, limit))
    ensures answer == Answer(g, cum, dist, q, limit)
  {
    q := Query(maxLevel, capacity, k, p, 0);
    var e, stops := UpperLevels(g, cum, dist, maxLevel, g.entryPoint);
    ghost var first := Start(g, cum, dist, q, limit);
    var s, n := SearchFromCandidates(g, cum, 0, p, dist, Started(capacity, k, p, dist, limit, e));
    StartedBest(capacity, k, p, dist, limit, e);
    RunBest(g, cum, 0, p, dist, limit, first, n);
    q := q.(n := n);
    var nel;
    answer, nel := HeapReorder(s.res, limit);
  }

  // ---------------------------------------------------------------------------
  // Sorting the level-0 lists
  // ---------------------------------------------------------------------------

  /** Both searches have visited the same nodes and have the same candidates, in other places. */
  ghost predicate Parallel(g: Graph, h: Graph, cum: seq<nat>, p: Params, dist: seq<real>, limit: real, s: State,
                           t: State) {
    && Sound(g, cum, 0, p, dist, limit, s) && Shaped(h, cum, 0, p, dist, t) && InOrder(s) && InOrder(t) && Alike(s, t)
  }

  lemma NextParallel(g: Graph, h: Graph, cum: seq<nat>, p: Params, dist: seq<real>, limit: real, s: State, t: State)
    requires SortedLevel0(g, h, cum) && Parallel(g, h, cum, p, dist, limit, s, t) && !Halted(s)
    ensures Parallel(g, h, cum, p, dist, limit, Next(g, cum, 0, p, dist, s), Next(h, cum, 0, p, dist, t))
  {
    var m, n := MinOf(s.cand.entries), MinOf(t.cand.entries);
    MinAlike(s.cand.entries, t.cand.entries, m, n);
    NextNode(g, cum, 0, p, dist, s, m);
    NextNode(h, cum, 0, p, dist, t, n);
    NextSound(g, cum, 0, p, dist, limit, s);
    var v := s.cand.entries[m].id;
    SortedLinks(g, h, cum, v, 0);
    SteppedAlike(g, 0, p, dist, limit, s, t, m, n, Links(g, cum, v, 0), Links(h, cum, v, 0));
  }

  lemma RunParallel(g: Graph, h: Graph, cum: seq<nat>, p: Params, dist: seq<real>, limit: real, s: State, t: State,
                    n: nat)
    requires SortedLevel0(g, h, cum) && Parallel(g, h, cum, p, dist, limit, s, t)
    ensures Parallel(g, h, cum, p, dist, limit, Run(g, cum, 0, p, dist, s, n), Run(h, cum, 0, p, dist, t, n))
  {
    var next, other := NextOrSame(g, cum, 0, p, dist), NextOrSame(h, cum, 0, p, dist);
    var parallel := (a: State, b: State) => Parallel(g, h, cum, p, dist, limit, a, b);
    forall a, b | parallel(a, b) ensures parallel(next(a), other(b)) {
      if !Halted(a) {
        NextParallel(g, h, cum, p, dist, limit, a, b);
      }
    }
    RepeatInStep(next, other, parallel, n, s, t);
  }

  /** Two parallel searches end with the same results. */
  lemma ParallelResults(g: Graph, h: Graph, cum: seq<nat>, p: Params, dist: seq<real>, limit: real, s: State, n: nat)
    requires SortedLevel0(g, h, cum) && Parallel(g, h, cum, p, dist, limit, s, s) && Best(p, dist, limit, s.seen, s.res)
    ensures
      var end, end' := Run(g, cum, 0, p, dist, s, n), Run(h, cum, 0, p, dist, s, n);
      (Halted(end') <==> Halted(end)) && Returned(end'.res, limit) == Returned(end.res, limit)
  {
    RunParallel(g, h, cum, p, dist, limit, s, s, n);
    RunBest(g, cum, 0, p, dist, limit, s, n);
    RunBest(h, cum, 0, p, dist, limit, s, n);
    var end, end' := Run(g, cum, 0, p, dist, s, n), Run(h, cum, 0, p, dist, s, n);
    SameResults(p, dist, limit, end.seen, end.res, end'.res);
    RankedPermuted(end.res, end'.res);
  }

  lemma SameEntrance(g: Graph, h: Graph, cum: seq<nat>, dist: seq<real>, q: Query)
    requires SortedLevel0(g, h, cum) && Askable(g, cum, dist, q)
    ensures Askable(h, cum, dist, q) && Entrance(h, cum, dist, q) == Entrance(g, cum, dist, q)
  {
    DescendAboveLevel0(g, h, cum, dist, q.maxLevel, g.entryPoint);
  }

  lemma StartParallel(g: Graph, h: Graph, cum: seq<nat>, dist: seq<real>, q: Query, limit: real)
    requires SortedLevel0(g, h, cum) && Askable(g, cum, dist, q) && Askable(h, cum, dist, q) && Injective(dist)
    requires Entrance(h, cum, dist, q) == Entrance(g, cum, dist, q)
    ensures Start(h, cum, dist, q, limit) == Start(g, cum, dist, q, limit)
    ensures Parallel(g, h, cum, q.p, dist, limit, Start(g, cum, dist, q, limit), Start(g, cum, dist, q, limit))
    ensures Best(q.p, dist, limit, Start(g, cum, dist, q, limit).seen, Start(g, cum, dist, q, limit).res)
  {
    StartedSound(g, cum, 0, q.capacity, q.k, q.p, dist, limit, Entrance(g, cum, dist, q));
    StartedBest(q.capacity, q.k, q.p, dist, limit, Entrance(g, cum, dist, q));
  }

  /** Sorting the level-0 lists changes no answer if no two nodes are equally far. */
  lemma SortingKeepsAnswer(g: Graph, h: Graph, cum: seq<nat>, dist: seq<real>, q: Query, limit: real)
    requires SortedLevel0(g, h, cum) && Askable(g, cum, dist, q) && Injective(dist)
    ensures Askable(h, cum, dist, q) && Answer(h, cum, dist, q, limit) == Answer(g, cum, dist, q, limit)
    ensures Halted(End(h, cum, dist, q, limit)) <==> Halted(End(g, cum, dist, q, limit))
  {
    SameEntrance(g, h, cum, dist, q);
    StartParallel(g, h, cum, dist, q, limit);
    ParallelResults(g, h, cum, q.p, dist, limit, Start(g, cum, dist, q, limit), q.n);
  }

  // ---------------------------------------------------------------------------
  // Renumbering
  // ---------------------------------------------------------------------------

  /** The same query after the renumbering. */
  function RenamedQuery(newToOld: seq<nat>, q: Query): Query
    requires forall i :: 0 <= i < |newToOld| ==> newToOld[i] < |q.p.sel|
  {
    q.(p := RenamedParams(newToOld, q.p))
  }

  ghost predicate SameAnswer(g: Graph, h: Graph, cum: seq<nat>, newToOld: seq<nat>, inv: seq<nat>, dist: seq<real>,
                             q: Query, limit: real)
    requires Inverse(newToOld, inv) && |inv| == |dist| && Askable(g, cum, dist, q)
  {
    var dist', q', a := Gather(dist, newToOld), RenamedQuery(newToOld, q), Answer(g, cum, dist, q, limit);
    && Askable(h, cum, dist', q') && InRange(a, |inv|)
    && Answer(h, cum, dist', q', limit) == RenamedAll(inv, a)
    && (Halted(End(h, cum, dist', q', limit)) <==> Halted(End(g, cum, dist, q, limit)))
  }

  lemma StartRenamed(g: Graph, h: Graph, cum: seq<nat>, newToOld: seq<nat>, inv: seq<nat>, dist: seq<real>,
                     q: Query, limit: real)
    requires Renumbered(g, h, cum, newToOld, inv) && Askable(g, cum, dist, q) && Injective(dist)
    ensures Askable(h, cum, Gather(dist, newToOld), RenamedQuery(newToOld, q))
    ensures Sound(g, cum, 0, q.p, dist, limit, Start(g, cum, dist, q, limit))
    ensures Start(h, cum, Gather(dist, newToOld), RenamedQuery(newToOld, q), limit)
         == Translated(newToOld, inv, Start(g, cum, dist, q, limit))
  {
    DescendCommutes(g, h, cum, newToOld, inv, dist, q.maxLevel, g.entryPoint);
    StartedSound(g, cum, 0, q.capacity, q.k, q.p, dist, limit, Entrance(g, cum, dist, q));
    StartedTranslated(g, cum, 0, q.capacity, q.k, q.p, dist, limit, Entrance(g, cum, dist, q), newToOld, inv);
  }

  lemma RenumberingKeepsAnswer(g: Graph, h: Graph, cum: seq<nat>, newToOld: seq<nat>, inv: seq<nat>, dist: seq<real>,
                               q: Query, limit: real)
    requires Renumbered(g, h, cum, newToOld, inv) && Askable(g, cum, dist, q) && Injective(dist)
    ensures SameAnswer(g, h, cum, newToOld, inv, dist, q, limit)
  {
    StartRenamed(g, h, cum, newToOld, inv, dist, q, limit);
    SearchCommutes(g, h, cum, newToOld, inv, 0, q.p, dist, limit, Start(g, cum, dist, q, limit), q.n);
    TranslatedAnswer(g, cum, q.p, dist, limit, End(g, cum, dist, q, limit), newToOld, inv);
  }

  lemma TranslatedAnswer(g: Graph, cum: seq<nat>, p: Params, dist: seq<real>, limit: real, s: State,
                         newToOld: seq<nat>, inv: seq<nat>)
    requires Sound(g, cum, 0, p, dist, limit, s) && Inverse(newToOld, inv) && |inv| == g.Count()
    ensures
      var t := Translated(newToOld, inv, s);
      && (Halted(t) <==> Halted(s)) && InRange(Returned(s.res, limit), |inv|)
      && Returned(t.res, limit) == RenamedAll(inv, Returned(s.res, limit))
  {
    GoodIsRenameable(g, 0, dist, limit, s, s.seen, newToOld, inv);
    forall i, j | 0 <= i < |s.res| && 0 <= j < |s.res| ensures Agree(s.res[i], s.res[j]) {
      assert GoodResult(dist, limit, s.res[i]) && GoodResult(dist, limit, s.res[j]);
    }
    ReturnedRenamed(inv, s.res, limit);
  }

  /** What GOrder, or ROrder if `sorted`, makes of a graph. */
  ghost predicate Laid(g: Graph, plain: Graph, h: Graph, cum: seq<nat>, newToOld: seq<nat>, inv: seq<nat>,
                       sorted: bool) {
    Renumbered(g, plain, cum, newToOld, inv) && if sorted then SortedLevel0(plain, h, cum) else h == plain
  }

  /** If no two nodes are equally far, either layout keeps the answer of every query. */
  lemma LayoutKeepsAnswer(g: Graph, plain: Graph, h: Graph, cum: seq<nat>, newToOld: seq<nat>, inv: seq<nat>,
                          sorted: bool, dist: seq<real>, q: Query, limit: real)
    requires Laid(g, plain, h, cum, newToOld, inv, sorted) && Askable(g, cum, dist, q) && Injective(dist)
    ensures SameAnswer(g, h, cum, newToOld, inv, dist, q, limit)
  {
    RenumberingKeepsAnswer(g, plain, cum, newToOld, inv, dist, q, limit);
    if sorted {
      InjectiveRenamed(dist, newToOld, inv);
      SortingKeepsAnswer(plain, h, cum, Gather(dist, newToOld), RenamedQuery(newToOld, q), limit);
    }
  }
}
