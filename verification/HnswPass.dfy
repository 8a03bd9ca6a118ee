/** The post-build layout pass as a whole: GOrder's permutation, the renumbering, ROrder's
    sorting, and the label tables that give every search result its original id back. */
module HnswPass {
  import opened HnswAnswers
  import opened HnswGreedy
  import opened HnswLayout
  import opened HnswROrder
  import opened HnswSearch
  import opened MinimaxHeaps
  import opened Permutation
  import Gorder
  import UnitHeaps

  /** What the method name selects. */
  datatype Layout = GOrder | ROrder | Unknown

  datatype Outcome = Refused | Done

  ghost predicate Level0Lists(g: Graph, cum: seq<nat>, lists: seq<seq<nat>>) {
    EveryNodeOnLevel0(g, cum) && |lists| == g.Count() && forall i :: 0 <= i < |lists| ==>
      lists[i] == Links(g, cum, i, 0)
  }

  /** Reads every node's level-0 links. */
  method CollectLevel0(g: Graph, cum: seq<nat>) returns (lists: seq<seq<nat>>)
    requires EveryNodeOnLevel0(g, cum)
    ensures Level0Lists(g, cum, lists)
  {
    lists := [];
    for i := 0 to g.Count()
      invariant |lists| == i && forall k :: 0 <= k < i ==> lists[k] == Links(g, cum, k, 0)
    {
      var slots := NeighborRange(g, cum, i, 0);
      var list := UntilNegative(slots);
      lists := lists + [list];
    }
  }

  /** What GOrder asks for: an order by in-degree, and scores that stay below the mark of removed
      nodes. */
  ghost predicate Orderable(lists: seq<seq<nat>>, huge: nat, byDegree: seq<nat>) {
    && UnitHeaps.ByKey(byDegree, Gorder.Indegrees(lists))
    && forall w: nat :: w < |lists| ==> Gorder.Limit(lists, huge, w) < Gorder.GONE
  }

  /** reorder_graph_after_build for its two GOrder-based methods. `applied` is the permutation of
      an earlier pass, empty if there was none; `plain` is the graph before any list is sorted. A
      pass over a graph with an entry point leaves a permutation that makes the next one fail. */
  method ReorderAfterBuild(g: Graph, cum: seq<nat>, applied: seq<nat>, level: int, layout: Layout, huge: nat,
                           byDegree: seq<nat>, ghost lists: seq<seq<nat>>)
    returns (outcome: Outcome, h: Graph, perm: seq<nat>, ghost plain: Graph, ghost inv: seq<nat>)
    requires EveryNodeOnLevel0(g, cum) && Level0Lists(g, cum, lists) && Orderable(lists, huge, byDegree)
    ensures outcome == Refused <==>
              applied != [] || (g.Count() > 0 && g.entryPoint != -1 && (level != 0 || layout == Unknown))
    ensures outcome == Refused || g.Count() == 0 || g.entryPoint == -1 ==> h == g && perm == applied
    ensures outcome == Done && g.Count() > 0 && g.entryPoint != -1 ==>
              && Renumbered(g, plain, cum, perm, inv) && IsPermutation(perm) && perm != []
              && if layout == ROrder then SortedLevel0(plain, h, cum) else h == plain
  {
    outcome, h, perm, plain, inv := Done, g, applied, g, [];
    if applied != [] {
      return Refused, g, applied, g, [];
    }
    if g.Count() == 0 || g.entryPoint == -1 {
      return;
    }
    if level != 0 || layout == Unknown {
      return Refused, g, applied, g, [];
    }
    var links := CollectLevel0(g, cum);
    assert links == lists;
    assert Gorder.AllWithin(links);
    perm := Gorder.GeneratePermutation(links, huge, byDegree);
    var p, inverse := Permute(g, cum, perm);
    h, plain, inv := p, p, inverse;
    if layout == ROrder {
      RenumberedLevel0(g, p, cum, perm, inv);
      h := OptimizeNeighborsById(p, cum);
    }
  }

  lemma RenumberedLevel0(g: Graph, h: Graph, cum: seq<nat>, newToOld: seq<nat>, inv: seq<nat>)
    requires EveryNodeOnLevel0(g, cum) && Renumbered(g, h, cum, newToOld, inv)
    ensures EveryNodeOnLevel0(h, cum)
  {
  }

  // ---------------------------------------------------------------------------
  // Labels
  // ---------------------------------------------------------------------------

  datatype Labels = Invalid | Labels(newToOriginal: seq<nat>, originalToNew: seq<nat>)

  ghost predicate Bijective(perm: seq<int>, count: nat) {
    && |perm| == count && (forall i :: 0 <= i < |perm| ==> 0 <= perm[i] < count)
    && (forall i, j :: 0 <= i < j < |perm| ==> perm[i] != perm[j])
  }

  /** ApplyGraphLayout's table building: it accepts exactly the bijections and inverts them. */
  method BuildLabels(perm: seq<int>, count: nat) returns (labels: Labels)
    ensures labels.Labels? <==> Bijective(perm, count) && count <= 0xffff_ffff
    ensures labels.Labels? ==> labels.newToOriginal == perm && Inverse(labels.newToOriginal, labels.originalToNew)
  {
    if |perm| != count || count > 0xffff_ffff {
      return Invalid;
    }
    var newToOriginal: seq<nat> := [];
    var originalToNew: seq<nat> := seq(count, _ => 0);
    var seen := seq(count, _ => false);
    for newId := 0 to count
      invariant |newToOriginal| == newId && |originalToNew| == |seen| == count && newToOriginal == perm[..newId]
      invariant forall v: nat :: v < count ==> (seen[v] <==> v in newToOriginal)
      invariant forall v: nat :: v < count && seen[v] ==>
                originalToNew[v] < newId && newToOriginal[originalToNew[v]] == v
      invariant forall i :: 0 <= i < newId ==> newToOriginal[i] < count && seen[newToOriginal[i]]
      invariant forall i, j :: 0 <= i < j < newId ==> newToOriginal[i] != newToOriginal[j]
    {
      var original := perm[newId];
      if original < 0 || original >= count || seen[original] {
        assert perm[newId] == original;
        return Invalid;
      }
      seen := seen[original := true];
      newToOriginal := newToOriginal + [original];
      originalToNew := originalToNew[original := newId];
    }
    assert perm[..count] == perm;
    AllSeen(newToOriginal, seen);
    labels := Labels(newToOriginal, originalToNew);
  }

  lemma AllSeen(p: seq<nat>, seen: seq<bool>)
    requires IsPermutation(p) && |seen| == |p| && forall v: nat :: v < |p| ==> (seen[v] <==> v in p)
    ensures forall v: nat :: v < |p| ==> seen[v]
  {
    forall v: nat | v < |p| ensures seen[v] {
      Onto(p, v);
    }
  }

  /** After either layout a query that enters level 0 does so at the node with the same public id. */
  lemma PublicEntryKept(g: Graph, plain: Graph, h: Graph, cum: seq<nat>, newToOld: seq<nat>, inv: seq<nat>,
                        dist: seq<real>, level: nat, layout: Layout)
    requires Renumbered(g, plain, cum, newToOld, inv)
    requires if layout == ROrder then SortedLevel0(plain, h, cum) else h == plain
    requires g.entryPoint >= 0 && Ready(g, cum, dist, level, g.entryPoint)
    ensures h.entryPoint >= 0 && Ready(h, cum, Gather(dist, newToOld), level, h.entryPoint)
    ensures Descend(h, cum, Gather(dist, newToOld), level, h.entryPoint) < |newToOld|
    ensures newToOld[Descend(h, cum, Gather(dist, newToOld), level, h.entryPoint)]
         == Descend(g, cum, dist, level, g.entryPoint)
  {
    if layout == ROrder {
      ROrderKeepsEntry(g, plain, h, cum, newToOld, inv, dist, level, g.entryPoint);
    } else {
      DescendCommutes(g, plain, cum, newToOld, inv, dist, level, g.entryPoint);
    }
  }

  lemma RenamedBack(newToOld: seq<nat>, inv: seq<nat>, h: seq<Entry>)
    requires Inverse(newToOld, inv) && InRange(h, |inv|)
    ensures InRange(RenamedAll(inv, h), |newToOld|) && RenamedAll(newToOld, RenamedAll(inv, h)) == h
  {
  }

  /** If no two nodes are equally far from the query, it returns the same public ids in the same
      order after either layout. */
  lemma PublicAnswerKept(g: Graph, plain: Graph, h: Graph, cum: seq<nat>, newToOld: seq<nat>, inv: seq<nat>,
                         dist: seq<real>, q: Query, limit: real, layout: Layout)
    requires Renumbered(g, plain, cum, newToOld, inv)
    requires if layout == ROrder then SortedLevel0(plain, h, cum) else h == plain
    requires Askable(g, cum, dist, q) && Injective(dist)
    ensures Askable(h, cum, Gather(dist, newToOld), RenamedQuery(newToOld, q))
    ensures
      var answer := Answer(h, cum, Gather(dist, newToOld), RenamedQuery(newToOld, q), limit);
      InRange(answer, |newToOld|) && RenamedAll(newToOld, answer) == Answer(g, cum, dist, q, limit)
  {
    LayoutKeepsAnswer(g, plain, h, cum, newToOld, inv, layout == ROrder, dist, q, limit);
    RenamedBack(newToOld, inv, Answer(g, cum, dist, q, limit));
  }
}
