/** GOrder: the node order the post-build layout derives from the level-0 graph.

    The heap's keys lag behind the real scores; `update` holds the difference. A node that has
    left the heap gets INT_MAX / 2 there, so that the bumps it still receives never reach zero. */
module Gorder {
  import opened Permutation
  import opened UnitHeaps
  import Sorting

  const INT_MAX := 0x7fff_ffff
  const GONE := INT_MAX / 2
  const WINDOW := 5

  /** The level-0 graph, its transpose, and the degree above which a node is passed over. */
  datatype Net = Net(out: seq<seq<nat>>, inn: seq<seq<nat>>, huge: nat) {
    predicate Small(u: nat)
      requires u < |out|
    {
      |out[u]| <= huge
    }

    predicate Sharing(u: nat)
      requires u < |out|
    {
      Small(u) && |out[u]| > 1
    }
  }

  ghost predicate Within(s: seq<nat>, n: nat) {
    forall i :: 0 <= i < |s| ==> s[i] < n
  }

  ghost predicate NoRepeats(s: seq<nat>, n: nat) {
    Within(s, n) && forall i, j :: 0 <= i < j < |s| ==> s[i] != s[j]
  }

  /** How often w stands in a list. */
  ghost function Times(s: seq<nat>, w: nat): (c: nat)
    ensures c > 0 <==> w in s
  {
    multiset(s)[w]
  }

  lemma TimesNext(s: seq<nat>, j: nat, w: nat)
    requires j < |s|
    ensures Times(s[..j + 1], w) == Times(s[..j], w) + if w == s[j] then 1 else 0
  {
    assert s[..j + 1] == s[..j] + [s[j]];
  }

  lemma TimesFirst(s: seq<nat>, w: nat)
    requires |s| > 0
    ensures Times(s, w) == Times(s[1..], w) + if w == s[0] then 1 else 0
  {
    assert s == [s[0]] + s[1..];
  }

  lemma TimesParts(s: seq<nat>, j: nat, w: nat)
    requires j <= |s|
    ensures Times(s, w) == Times(s[..j], w) + Times(s[j..], w)
  {
    assert s == s[..j] + s[j..];
  }

  lemma {:induction false} TimesAtMost(s: seq<nat>, w: nat)
    ensures Times(s, w) <= |s|
  {
    if |s| > 0 {
      TimesFirst(s, w);
      TimesAtMost(s[1..], w);
    }
  }

  lemma {:induction false} OneEach(s: seq<nat>, n: nat, w: nat)
    requires NoRepeats(s, n)
    ensures Times(s, w) == if w in s then 1 else 0
  {
    if |s| > 0 {
      var k := |s| - 1;
      assert s[..|s|] == s;
      TimesNext(s, k, w);
      OneEach(s[..k], n, w);
    }
  }

  /** The number of links to w. */
  ghost function InCount(out: seq<seq<nat>>, n: nat, w: nat): (c: nat)
    requires n <= |out|
  {
    if n == 0 then 0 else InCount(out, n - 1, w) + Times(out[n - 1], w)
  }

  ghost predicate Transposed(net: Net) {
    && |net.inn| == |net.out|
    && (forall u :: 0 <= u < |net.out| ==> Within(net.out[u], |net.out|))
    && (forall v :: 0 <= v < |net.out| ==>
        Within(net.inn[v], |net.out|) && |net.inn[v]| == InCount(net.out, |net.out|, v))
    && (forall u: nat, v: nat :: u < |net.out| && v < |net.out| ==> Times(net.inn[v], u) == Times(net.out[u], v))
  }

  /** No list names a node twice. */
  ghost predicate Simple(lists: seq<seq<nat>>) {
    forall u :: 0 <= u < |lists| ==> NoRepeats(lists[u], |lists|)
  }

  // ---------------------------------------------------------------------------
  // The heap's accounts
  // ---------------------------------------------------------------------------

  /** Every node's score is its multiplicity in the bag of bumps; `paid` is the score a removed
      node had when it left. */
  ghost predicate Accounts(chain: seq<nat>, key: seq<int>, update: seq<int>, paid: seq<nat>, bag: multiset<nat>) {
    && |key| == |update| == |paid|
    && (forall w: nat :: w < |key| && w in chain ==> update[w] <= 0 && key[w] + update[w] == bag[w])
    && (forall w: nat :: w < |key| && w !in chain ==> update[w] == GONE + bag[w] - paid[w] && paid[w] < GONE)
  }

  lemma AccountsPending(chain: seq<nat>, key: seq<int>, update: seq<int>, paid: seq<nat>, bag: multiset<nat>)
    requires Accounts(chain, key, update, paid, bag) && Distinct(chain, |key|)
    ensures Pending(chain, key, update)
  {
    forall p | 0 <= p < |chain| ensures update[chain[p]] <= 0 <= Score(key, update, chain[p]) {
      assert chain[p] in chain;
    }
  }

  lemma SameChain(a: seq<nat>, b: seq<nat>)
    requires multiset(a) == multiset(b)
    ensures forall w: nat :: w in a <==> w in b
  {
    forall w: nat ensures w in a <==> w in b {
      assert w in multiset(a) <==> w in multiset(b);
    }
  }

  /** Keys grow only up to the score they stand for. */
  ghost predicate Grown(key0: seq<int>, key: seq<int>, bag: multiset<nat>) {
    |key| == |key0| && forall w: nat :: w < |key| ==> key[w] <= key0[w] || key[w] <= bag[w]
  }

  lemma GrownTwice(key0: seq<int>, key1: seq<int>, key2: seq<int>, bag1: multiset<nat>, bag2: multiset<nat>)
    requires Grown(key0, key1, bag1) && Grown(key1, key2, bag2) && bag1 <= bag2
    ensures Grown(key0, key2, bag2)
  {
  }

  /** The code's guarded increment: a node whose key is current gets a higher key, any other a
      smaller pending decrease. Removed nodes never take the first branch. */
  method Bump(heap: UnitHeap, w: nat, ghost paid: seq<nat>, ghost bag: multiset<nat>)
    requires heap.Valid() && w < |heap.key| && Accounts(heap.chain, heap.key, heap.update, paid, bag)
    modifies heap
    ensures heap.Valid() && Accounts(heap.chain, heap.key, heap.update, paid, bag + multiset{w})
    ensures multiset(heap.chain) == multiset(old(heap.chain)) && Grown(old(heap.key), heap.key, bag + multiset{w})
  {
    if heap.update[w] == 0 {
      assert w in heap.chain;
      heap.IncrementKey(w);
      SameChain(heap.chain, old(heap.chain));
    } else {
      heap.update := heap.update[w := heap.update[w] + 1];
    }
  }

  method BumpAll(heap: UnitHeap, list: seq<nat>, ghost paid: seq<nat>, ghost bag: multiset<nat>)
    requires heap.Valid() && Accounts(heap.chain, heap.key, heap.update, paid, bag)
    requires forall i :: 0 <= i < |list| ==> list[i] < |heap.key|
    modifies heap
    ensures heap.Valid() && Accounts(heap.chain, heap.key, heap.update, paid, bag + multiset(list))
    ensures multiset(heap.chain) == multiset(old(heap.chain)) && Grown(old(heap.key), heap.key, bag + multiset(list))
  {
    for i := 0 to |list|
      invariant heap.Valid() && Accounts(heap.chain, heap.key, heap.update, paid, bag + multiset(list[..i]))
      invariant multiset(heap.chain) == multiset(old(heap.chain))
      invariant Grown(old(heap.key), heap.key, bag + multiset(list[..i]))
    {
      ghost var key1 := heap.key;
      BumpNext(heap, list, i, paid, bag);
      GrownTwice(old(heap.key), key1, heap.key, bag + multiset(list[..i]), bag + multiset(list[..i + 1]));
    }
    assert list[..|list|] == list;
  }

  method BumpNext(heap: UnitHeap, list: seq<nat>, i: nat, ghost paid: seq<nat>, ghost bag: multiset<nat>)
    requires heap.Valid() && i < |list| && list[i] < |heap.key|
    requires Accounts(heap.chain, heap.key, heap.update, paid, bag + multiset(list[..i]))
    modifies heap
    ensures heap.Valid() && Accounts(heap.chain, heap.key, heap.update, paid, bag + multiset(list[..i + 1]))
    ensures multiset(heap.chain) == multiset(old(heap.chain))
    ensures Grown(old(heap.key), heap.key, bag + multiset(list[..i + 1]))
    ensures bag + multiset(list[..i]) <= bag + multiset(list[..i + 1])
  {
    TakeOne(list, i, bag);
    Bump(heap, list[i], paid, bag + multiset(list[..i]));
  }

  lemma TakeOne(list: seq<nat>, i: nat, bag: multiset<nat>)
    requires i < |list|
    ensures bag + multiset(list[..i + 1]) == bag + multiset(list[..i]) + multiset{list[i]}
  {
    assert list[..i + 1] == list[..i] + [list[i]];
  }

  /** The unguarded decrement. */
  method Unbump(heap: UnitHeap, w: nat, ghost paid: seq<nat>, ghost bag: multiset<nat>)
    requires heap.Valid() && w < |heap.key| && w in bag && Accounts(heap.chain, heap.key, heap.update, paid, bag)
    modifies heap`update
    ensures heap.Valid() && Accounts(heap.chain, heap.key, heap.update, paid, bag - multiset{w})
  {
    heap.update := heap.update[w := heap.update[w] - 1];
  }

  method UnbumpAll(heap: UnitHeap, list: seq<nat>, ghost paid: seq<nat>, ghost bag: multiset<nat>)
    requires heap.Valid() && Accounts(heap.chain, heap.key, heap.update, paid, bag)
    requires forall i :: 0 <= i < |list| ==> list[i] < |heap.key|
    requires multiset(list) <= bag
    modifies heap`update
    ensures heap.Valid() && Accounts(heap.chain, heap.key, heap.update, paid, bag - multiset(list))
  {
    for i := 0 to |list|
      invariant heap.Valid() && Accounts(heap.chain, heap.key, heap.update, paid, bag - multiset(list[..i]))
    {
      PayOne(list, i, bag);
      Unbump(heap, list[i], paid, bag - multiset(list[..i]));
    }
    assert list[..|list|] == list;
  }

  lemma PayOne(list: seq<nat>, i: nat, bag: multiset<nat>)
    requires i < |list| && multiset(list) <= bag
    ensures list[i] in bag - multiset(list[..i])
    ensures bag - multiset(list[..i + 1]) == bag - multiset(list[..i]) - multiset{list[i]}
  {
    assert list[..i + 1] == list[..i] + [list[i]];
    assert list == list[..i + 1] + list[i + 1..];
    assert multiset(list)[list[i]] >= multiset(list[..i])[list[i]] + 1;
  }

  /** Marks a node that has left the heap. */
  method Retire(heap: UnitHeap, v: nat, ghost paid: seq<nat>, ghost bag: multiset<nat>, ghost before: seq<nat>)
    returns (ghost paid': seq<nat>)
    requires heap.Valid() && v < |heap.key| && v !in heap.chain
    requires multiset(before) == multiset(heap.chain) + multiset{v}
    requires Accounts(before, heap.key, heap.update, paid, bag) && bag[v] < GONE
    modifies heap`update
    ensures heap.Valid() && Accounts(heap.chain, heap.key, heap.update, paid', bag) && paid' == paid[v := bag[v]]
    ensures heap.update == old(heap.update)[v := GONE]
  {
    heap.update := heap.update[v := GONE];
    paid' := paid[v := bag[v]];
    forall w: nat | w != v ensures w in before <==> w in heap.chain {
      assert w in multiset(before) <==> w in multiset(heap.chain);
    }
  }

  // ---------------------------------------------------------------------------
  // The ledger: which bumps the nodes of the window still have out
  // ---------------------------------------------------------------------------

  /** How often node w is bumped for being a link of z. */
  ghost function Own(net: Net, z: nat, w: nat): nat
    requires z < |net.out|
  {
    if net.Small(z) then Times(net.out[z], w) else 0
  }

  /** How often node w is bumped for being one of the `fans` that link to some node. */
  ghost function Fan(net: Net, fans: seq<nat>, w: nat): nat
    requires w < |net.out|
  {
    if net.Small(w) then Times(fans, w) else 0
  }

  ghost predicate Nodes(net: Net, window: seq<nat>) {
    forall i :: 0 <= i < |window| ==> window[i] < |net.out| == |net.inn|
  }

  /** The direct bumps of the window's nodes. */
  ghost function Direct(net: Net, window: seq<nat>, w: nat): (d: nat)
    requires Nodes(net, window) && w < |net.out|
  {
    if |window| == 0 then 0
    else
      assert forall i :: 0 <= i < |window| - 1 ==> window[1..][i] == window[i + 1];
      Direct(net, window[1..], w) + Own(net, window[0], w) + Fan(net, net.inn[window[0]], w)
  }

  lemma {:induction false} DirectPush(net: Net, window: seq<nat>, v: nat, w: nat)
    requires Nodes(net, window) && v < |net.out| == |net.inn| && w < |net.out|
    ensures Direct(net, window + [v], w) == Direct(net, window, w) + Own(net, v, w) + Fan(net, net.inn[v], w)
  {
    if |window| > 0 {
      DirectPush(net, window[1..], v, w);
      assert (window + [v])[1..] == window[1..] + [v];
    } else {
      assert window + [v] == [v];
    }
  }

  /** The bumps made through common fans: `share[u]` rounds over the links of u. */
  ghost function Shared(net: Net, share: seq<nat>, n: nat, w: nat): (d: nat)
    requires n <= |share| == |net.out|
  {
    if n == 0 then 0 else Shared(net, share, n - 1, w) + share[n - 1] * Times(net.out[n - 1], w)
  }

  lemma {:induction false} SharedMore(net: Net, share: seq<nat>, u: nat, n: nat, w: nat)
    requires n <= |share| == |net.out| && u < |share|
    ensures Shared(net, share[u := share[u] + 1], n, w)
         == Shared(net, share, n, w) + if u < n then Times(net.out[u], w) else 0
  {
    if n > 0 {
      SharedMore(net, share, u, n - 1, w);
      if u == n - 1 {
        OneRound(share[u], Times(net.out[u], w));
      }
    }
  }

  lemma OneRound(rounds: nat, times: nat)
    ensures (rounds + 1) * times == rounds * times + times
  {
  }

  lemma {:induction false} SharedAtMost(net: Net, share: seq<nat>, most: nat, n: nat, w: nat)
    requires n <= |share| == |net.out| && forall u :: 0 <= u < |share| ==> share[u] <= most
    ensures Shared(net, share, n, w) <= most * InCount(net.out, n, w)
  {
    if n > 0 {
      SharedAtMost(net, share, most, n - 1, w);
      MostRounds(share[n - 1], most, Times(net.out[n - 1], w), InCount(net.out, n - 1, w));
    }
  }

  lemma MostRounds(rounds: nat, most: nat, times: nat, before: nat)
    requires rounds <= most
    ensures most * before + rounds * times <= most * (before + times)
  {
  }

  /** How many links u has to nodes of the window. */
  ghost function Reach(net: Net, window: seq<nat>, u: nat): (c: nat)
    requires Nodes(net, window)
  {
    if |window| == 0 then 0
    else
      assert forall i :: 0 <= i < |window| - 1 ==> window[1..][i] == window[i + 1];
      Reach(net, window[1..], u) + Times(net.inn[window[0]], u)
  }

  lemma {:induction false} ReachPush(net: Net, window: seq<nat>, v: nat, u: nat)
    requires Nodes(net, window) && v < |net.out| == |net.inn|
    ensures Nodes(net, window + [v]) && Reach(net, window + [v], u) == Reach(net, window, u) + Times(net.inn[v], u)
  {
    if |window| > 0 {
      ReachPush(net, window[1..], v, u);
      assert (window + [v])[1..] == window[1..] + [v];
    } else {
      assert window + [v] == [v];
    }
  }

  /** The bag is `base` plus the bumps of `fans` plus the shared bumps. */
  ghost predicate Ledger(net: Net, bag: multiset<nat>, base: seq<nat>, fans: seq<nat>, share: seq<nat>) {
    && |base| == |share| == |net.out|
    && forall w: nat :: w < |net.out| ==> bag[w] == base[w] + Fan(net, fans, w) + Shared(net, share, |share|, w)
  }

  /** The rounds over the links of each node that a window makes. */
  ghost function Rounds(net: Net, window: seq<nat>): (share: seq<nat>)
    requires Nodes(net, window)
    ensures |share| == |net.out|
  {
    seq(|net.out|, u requires 0 <= u < |net.out| => if net.Sharing(u) then Reach(net, window, u) else 0)
  }

  /** At least the rounds of the window are out, and only for nodes that share. */
  ghost predicate Covered(net: Net, window: seq<nat>, share: seq<nat>)
    requires Nodes(net, window)
  {
    |share| == |net.out| && forall u: nat :: u < |net.out| ==>
      if net.Sharing(u) then Reach(net, window, u) <= share[u] else share[u] == 0
  }

  /** Exactly the rounds of the window are out. */
  ghost predicate Exact(net: Net, window: seq<nat>, share: seq<nat>)
    requires Nodes(net, window)
  {
    share == Rounds(net, window)
  }

  /** The bag between two steps. If no list names a node twice the rounds are those of the window. */
  ghost predicate Balanced(net: Net, bag: multiset<nat>, window: seq<nat>, share: seq<nat>) {
    && Nodes(net, window) && |share| == |net.out| == |net.inn|
    && (forall w: nat :: w < |net.out| ==> bag[w] == Direct(net, window, w) + Shared(net, share, |share|, w))
    && Covered(net, window, share) && (Simple(net.out) ==> Exact(net, window, share))
  }

  /** The score of a node, from the last nodes drawn and nothing else. */
  ghost function Scored(net: Net, window: seq<nat>, w: nat): nat
    requires Nodes(net, window) && w < |net.out|
  {
    Direct(net, window, w) + Shared(net, Rounds(net, window), |net.out|, w)
  }

  /** Paths v <- u -> w through the first n nodes, none with a single link or too many. */
  ghost function CommonFans(net: Net, v: nat, n: nat, w: nat): nat
    requires v < |net.inn| && n <= |net.out|
  {
    if n == 0 then 0
    else
      var paths := if 1 < |net.out[n - 1]| <= net.huge then Times(net.inn[v], n - 1) * Times(net.out[n - 1], w) else 0;
      CommonFans(net, v, n - 1, w) + paths
  }

  lemma {:induction false} SharedPush(net: Net, window: seq<nat>, v: nat, n: nat, w: nat)
    requires Nodes(net, window) && v < |net.out| == |net.inn| && n <= |net.out|
    ensures Nodes(net, window + [v])
    ensures Shared(net, Rounds(net, window + [v]), n, w)
         == Shared(net, Rounds(net, window), n, w) + CommonFans(net, v, n, w)
    decreases n
  {
    if n > 0 {
      SharedPush(net, window, v, n - 1, w);
      ReachPush(net, window, v, n - 1);
      MoreRounds(Reach(net, window, n - 1), Times(net.inn[v], n - 1), Times(net.out[n - 1], w));
    }
  }

  lemma MoreRounds(a: nat, b: nat, times: nat)
    ensures (a + b) * times == a * times + b * times
  {
  }

  /** What a node v of the window adds to the score of w: its links to w and w's links to it, and the
      nodes that link to both, each only where the degree is not too high. */
  lemma ScoredPush(net: Net, window: seq<nat>, v: nat, w: nat)
    requires Nodes(net, window) && v < |net.out| == |net.inn| && w < |net.out|
    ensures Nodes(net, window + [v]) && Scored(net, [], w) == 0
    ensures Scored(net, window + [v], w)
         == Scored(net, window, w) + (if |net.out[v]| <= net.huge then Times(net.out[v], w) else 0)
          + (if |net.out[w]| <= net.huge then Times(net.inn[v], w) else 0) + CommonFans(net, v, |net.out|, w)
  {
    NothingShared(net, Rounds(net, []), |net.out|);
    DirectPush(net, window, v, w);
    SharedPush(net, window, v, |net.out|, w);
  }

  lemma BagIsScore(net: Net, bag: multiset<nat>, window: seq<nat>, share: seq<nat>, w: nat)
    requires Balanced(net, bag, window, share) && Exact(net, window, share) && w < |net.out|
    ensures bag[w] == Scored(net, window, w)
  {
  }

  // ---------------------------------------------------------------------------
  // No score is too high
  // ---------------------------------------------------------------------------

  /** The highest score of node w: each of five nodes bumps it directly, and there are at most five
      rounds over each list that names it, or as many as the list is long if lists have repeats. */
  ghost function Limit(out: seq<seq<nat>>, huge: nat, w: nat): nat
    requires w < |out|
  {
    var fans := InCount(out, |out|, w);
    if Simple(out) then 2 * WINDOW + WINDOW * fans else WINDOW * (fans + |out[w]|) + huge * fans
  }

  ghost function Cap(net: Net, w: nat): nat
    requires w < |net.out|
  {
    Limit(net.out, net.huge, w)
  }

  lemma {:induction false} DirectAtMost(net: Net, window: seq<nat>, w: nat, each: nat)
    requires Transposed(net) && Nodes(net, window) && w < |net.out|
    requires forall z: nat :: z < |net.out| ==> Times(net.out[z], w) + Times(net.out[w], z) <= each
    ensures Direct(net, window, w) <= |window| * each
  {
    if |window| > 0 {
      var z := window[0];
      DirectAtMost(net, window[1..], w, each);
      assert Times(net.inn[z], w) == Times(net.out[w], z);
      OneRound(|window| - 1, each);
    }
  }

  lemma DirectSimple(net: Net, window: seq<nat>, w: nat)
    requires Transposed(net) && Simple(net.out) && Nodes(net, window) && w < |net.out| && |window| <= WINDOW
    ensures Direct(net, window, w) <= 2 * WINDOW
  {
    forall z: nat | z < |net.out| ensures Times(net.out[z], w) + Times(net.out[w], z) <= 2 {
      OneEach(net.out[z], |net.out|, w);
      OneEach(net.out[w], |net.out|, z);
    }
    DirectAtMost(net, window, w, 2);
  }

  lemma DirectBound(net: Net, window: seq<nat>, w: nat)
    requires Transposed(net) && Nodes(net, window) && w < |net.out| && |window| <= WINDOW
    ensures Direct(net, window, w) <= WINDOW * (|net.inn[w]| + |net.out[w]|)
  {
    var each := |net.inn[w]| + |net.out[w]|;
    forall z: nat | z < |net.out| ensures Times(net.out[z], w) + Times(net.out[w], z) <= each {
      assert Times(net.out[z], w) == Times(net.inn[w], z);
      TimesAtMost(net.inn[w], z);
      TimesAtMost(net.out[w], z);
    }
    DirectAtMost(net, window, w, each);
    MostRounds(|window|, WINDOW, each, 0);
  }

  lemma {:induction false} ReachSimple(net: Net, window: seq<nat>, u: nat)
    requires Transposed(net) && Simple(net.out) && Nodes(net, window) && u < |net.out|
    ensures Reach(net, window, u) <= |window|
  {
    if |window| > 0 {
      ReachSimple(net, window[1..], u);
      assert Times(net.inn[window[0]], u) == Times(net.out[u], window[0]);
      OneEach(net.out[u], |net.out|, window[0]);
    }
  }

  /** Different nodes are reached by different links. */
  lemma {:induction false} ReachAtMost(net: Net, order: seq<nat>, u: nat, links: multiset<nat>)
    requires Transposed(net) && NoRepeats(order, |net.out|) && u < |net.out| && Nodes(net, order)
    requires forall z: nat :: z in order ==> links[z] == Times(net.out[u], z)
    ensures Reach(net, order, u) <= |links|
  {
    if |order| > 0 {
      var z := order[0];
      assert links == links[z := 0] + multiset(Copies(z, links[z])) by {
        RepeatedValue(z, links[z]);
      }
      assert z !in order[1..];
      ReachAtMost(net, order[1..], u, links[z := 0]);
      assert Times(net.inn[z], u) == Times(net.out[u], z);
      RepeatedValue(z, links[z]);
    }
  }

  lemma {:induction false} RepeatedValue(z: nat, n: nat)
    ensures |multiset(Copies(z, n))| == n && forall x: nat :: multiset(Copies(z, n))[x] == if x == z then n else 0
  {
    if n > 0 {
      RepeatedValue(z, n - 1);
      assert Copies(z, n) == Copies(z, n - 1) + [z];
    }
  }

  /** A node, so many times. */
  ghost function Copies(i: nat, times: nat): (r: seq<nat>)
    ensures |r| == times && forall k :: 0 <= k < times ==> r[k] == i
  {
    seq(times, _ => i)
  }

  /** Over all nodes drawn, each link of u has started at most one round. */
  ghost predicate Started(net: Net, order: seq<nat>, share: seq<nat>) {
    && Nodes(net, order) && NoRepeats(order, |net.out|) && |share| == |net.out|
    && forall u: nat :: u < |net.out| ==> share[u] <= Reach(net, order, u)
  }

  lemma FewRounds(net: Net, window: seq<nat>, order: seq<nat>, share: seq<nat>, u: nat)
    requires Transposed(net) && Nodes(net, window) && Covered(net, window, share) && Started(net, order, share)
    requires u < |net.out|
    ensures share[u] <= net.huge
  {
    if net.Sharing(u) {
      ReachAtMost(net, order, u, multiset(net.out[u]));
      assert |multiset(net.out[u])| == |net.out[u]|;
    }
  }

  /** A score never exceeds the limit. */
  lemma ScoreBound(net: Net, bag: multiset<nat>, window: seq<nat>, order: seq<nat>, share: seq<nat>, w: nat)
    requires Transposed(net) && Balanced(net, bag, window, share) && |window| <= WINDOW && w < |net.out|
    requires Started(net, order, share)
    ensures bag[w] <= Cap(net, w)
  {
    if Simple(net.out) {
      forall u: nat | u < |share| ensures share[u] <= WINDOW {
        ReachSimple(net, window, u);
      }
      SharedAtMost(net, share, WINDOW, |share|, w);
      DirectSimple(net, window, w);
    } else {
      forall u: nat | u < |share| ensures share[u] <= net.huge {
        FewRounds(net, window, order, share, u);
      }
      SharedAtMost(net, share, net.huge, |share|, w);
      DirectBound(net, window, w);
    }
  }

  /** No key is above the highest score its node can have. */
  ghost predicate Capped(net: Net, key: seq<int>) {
    |key| == |net.out| && forall w: nat :: w < |key| ==> key[w] <= Cap(net, w)
  }

  lemma StaysCapped(net: Net, key0: seq<int>, key: seq<int>, bag: multiset<nat>, window: seq<nat>, order: seq<nat>,
                    share: seq<nat>)
    requires Transposed(net) && Balanced(net, bag, window, share) && |window| <= WINDOW && Started(net, order, share)
    requires Capped(net, key0) && Grown(key0, key, bag)
    ensures Capped(net, key)
  {
    forall w: nat | w < |key| ensures key[w] <= Cap(net, w) {
      ScoreBound(net, bag, window, order, share, w);
    }
  }

  // ---------------------------------------------------------------------------
  // A node leaves the window
  // ---------------------------------------------------------------------------

  /** Removing the bumps of one fan. */
  lemma FanLeaves(net: Net, bag: multiset<nat>, base: seq<nat>, fans: seq<nat>, share: seq<nat>)
    requires |net.inn| == |net.out| && |fans| > 0 && Within(fans, |net.out|) && Ledger(net, bag, base, fans, share)
    ensures net.Small(fans[0]) ==> fans[0] in bag && Ledger(net, bag - multiset{fans[0]}, base, fans[1..], share)
    ensures !net.Small(fans[0]) ==> Ledger(net, bag, base, fans[1..], share)
  {
    forall w: nat ensures Times(fans, w) == Times(fans[1..], w) + if w == fans[0] then 1 else 0 {
      TimesFirst(fans, w);
    }
    assert bag[fans[0]] >= Fan(net, fans, fans[0]);
  }

  /** Removing one shared round over the links of u. */
  lemma ShareLeaves(net: Net, bag: multiset<nat>, base: seq<nat>, fans: seq<nat>, share: seq<nat>, u: nat)
    requires u < |net.out| && Within(net.out[u], |net.out|) && Ledger(net, bag, base, fans, share) && share[u] > 0
    ensures multiset(net.out[u]) <= bag && Ledger(net, bag - multiset(net.out[u]), base, fans, share[u := share[u] - 1])
  {
    var share' := share[u := share[u] - 1];
    assert share'[u := share'[u] + 1] == share;
    forall w: nat | w < |net.out|
      ensures Shared(net, share, |share|, w) == Shared(net, share', |share'|, w) + Times(net.out[u], w)
    {
      SharedMore(net, share', u, |share|, w);
    }
    forall w: nat ensures multiset(net.out[u])[w] <= bag[w] {
      assert multiset(net.out[u])[w] == Times(net.out[u], w);
      assert Times(net.out[u], w) > 0 ==> w < |net.out|;
    }
    forall w: nat | w < |net.out|
      ensures (bag - multiset(net.out[u]))[w] == base[w] + Fan(net, fans, w) + Shared(net, share', |share'|, w)
    {
      assert multiset(net.out[u])[w] == Times(net.out[u], w) <= bag[w];
    }
  }

  /** Adding one shared round. */
  lemma ShareJoins(net: Net, bag: multiset<nat>, base: seq<nat>, fans: seq<nat>, share: seq<nat>, u: nat)
    requires u < |net.out| && Ledger(net, bag, base, fans, share)
    ensures Ledger(net, bag + multiset(net.out[u]), base, fans, share[u := share[u] + 1])
  {
    var share' := share[u := share[u] + 1];
    forall w: nat | w < |net.out|
      ensures (bag + multiset(net.out[u]))[w] == base[w] + Fan(net, fans, w) + Shared(net, share', |share'|, w)
    {
      assert multiset(net.out[u])[w] == Times(net.out[u], w);
      SharedMore(net, share, u, |share|, w);
    }
  }

  lemma FanJoins(net: Net, bag: multiset<nat>, base: seq<nat>, fans: seq<nat>, share: seq<nat>, j: nat)
    requires |net.inn| == |net.out| && j < |fans| && Within(fans, |net.out|)
    requires Ledger(net, bag, base, fans[..j], share)
    ensures Ledger(net, if net.Small(fans[j]) then bag + multiset{fans[j]} else bag, base, fans[..j + 1], share)
  {
    forall w: nat ensures Times(fans[..j + 1], w) == Times(fans[..j], w) + if w == fans[j] then 1 else 0 {
      TimesNext(fans, j, w);
    }
  }

  /** The heap's accounts over a net of its size. */
  ghost predicate Booked(heap: UnitHeap, net: Net, paid: seq<nat>, bag: multiset<nat>)
    reads heap
  {
    heap.Valid() && |heap.key| == |net.out| && Accounts(heap.chain, heap.key, heap.update, paid, bag)
  }

  /** One fan u of the node that leaves, with v the node that enters. */
  method FanOut(heap: UnitHeap, net: Net, u: nat, v: nat, marked: seq<bool>, ghost fans: seq<nat>,
                ghost paid: seq<nat>, ghost bag: multiset<nat>, ghost base: seq<nat>, ghost share: seq<nat>)
    returns (marked': seq<bool>, ghost bag': multiset<nat>, ghost share': seq<nat>)
    requires Transposed(net) && Booked(heap, net, paid, bag) && |marked| == |net.out|
    requires |fans| > 0 && Within(fans, |net.out|) && fans[0] == u && Ledger(net, bag, base, fans, share)
    requires net.Sharing(u) && v !in net.out[u] ==> share[u] > 0
    modifies heap`update
    ensures Booked(heap, net, paid, bag') && Ledger(net, bag', base, fans[1..], share')
    ensures share' == if net.Sharing(u) && v !in net.out[u] then share[u := share[u] - 1] else share
    ensures marked' == if net.Sharing(u) && v in net.out[u] then marked[u := true] else marked
  {
    marked', bag', share' := marked, bag, share;
    FanLeaves(net, bag, base, fans, share);
    if net.Small(u) {
      Unbump(heap, u, paid, bag);
      bag' := bag - multiset{u};
      if |net.out[u]| > 1 {
        if v !in net.out[u] {
          ShareLeaves(net, bag', base, fans[1..], share, u);
          UnbumpAll(heap, net.out[u], paid, bag');
          bag', share' := bag' - multiset(net.out[u]), share[u := share[u] - 1];
        } else {
          marked' := marked[u := true];
        }
      }
    }
  }

  /** What the first j fans of a leaving node have changed. */
  ghost predicate FansOut(net: Net, fans: seq<nat>, j: nat, v: nat, share0: seq<nat>, share: seq<nat>,
                          marked: seq<bool>) {
    && j <= |fans| && |share0| == |share| == |marked| == |net.out|
    && (forall u: nat :: u < |net.out| ==>
        share[u] + (if net.Sharing(u) && v !in net.out[u] then Times(fans[..j], u) else 0) == share0[u])
    && (forall u: nat :: u < |net.out| ==> (marked[u] <==> u in fans[..j] && net.Sharing(u) && v in net.out[u]))
  }

  lemma FansOutNext(net: Net, fans: seq<nat>, j: nat, v: nat, share0: seq<nat>, share: seq<nat>, marked: seq<bool>)
    requires j < |fans| && Within(fans, |net.out|) && FansOut(net, fans, j, v, share0, share, marked)
    requires net.Sharing(fans[j]) && v !in net.out[fans[j]] ==> share[fans[j]] > 0
    ensures
      var u := fans[j];
      var share' := if net.Sharing(u) && v !in net.out[u] then share[u := share[u] - 1] else share;
      var marked' := if net.Sharing(u) && v in net.out[u] then marked[u := true] else marked;
      FansOut(net, fans, j + 1, v, share0, share', marked')
  {
    assert fans[..j + 1] == fans[..j] + [fans[j]];
    forall w: nat ensures Times(fans[..j + 1], w) == Times(fans[..j], w) + if w == fans[j] then 1 else 0 {
      TimesNext(fans, j, w);
    }
  }

  method AllFansOut(heap: UnitHeap, net: Net, p: nat, v: nat, unmarked: seq<bool>,
                    ghost paid: seq<nat>, ghost bag0: multiset<nat>, ghost base: seq<nat>, ghost share0: seq<nat>)
    returns (marked: seq<bool>, ghost bag: multiset<nat>, ghost share: seq<nat>)
    requires Transposed(net) && Booked(heap, net, paid, bag0) && p < |net.out|
    requires |unmarked| == |net.out| && forall u :: 0 <= u < |unmarked| ==> !unmarked[u]
    requires Ledger(net, bag0, base, net.inn[p], share0)
    requires forall u: nat :: u < |net.out| && net.Sharing(u) ==> Times(net.inn[p], u) <= share0[u]
    modifies heap`update
    ensures Booked(heap, net, paid, bag) && Ledger(net, bag, base, [], share)
    ensures FansOut(net, net.inn[p], |net.inn[p]|, v, share0, share, marked)
  {
    var fans := net.inn[p];
    marked, bag, share := unmarked, bag0, share0;
    assert fans[0..] == fans;
    for j := 0 to |fans|
      invariant Booked(heap, net, paid, bag) && Ledger(net, bag, base, fans[j..], share)
      invariant FansOut(net, fans, j, v, share0, share, marked)
    {
      FanNotYet(net, fans, j, v, share0, share, marked);
      FansOutNext(net, fans, j, v, share0, share, marked);
      assert fans[j..][1..] == fans[j + 1..];
      marked, bag, share := FanOut(heap, net, fans[j], v, marked, fans[j..], paid, bag, base, share);
    }
  }

  /** A round is left for every fan still to come. */
  lemma FanNotYet(net: Net, fans: seq<nat>, j: nat, v: nat, share0: seq<nat>, share: seq<nat>, marked: seq<bool>)
    requires j < |fans| && Within(fans, |net.out|) && FansOut(net, fans, j, v, share0, share, marked)
    requires forall u: nat :: u < |net.out| && net.Sharing(u) ==> Times(fans, u) <= share0[u]
    ensures net.Sharing(fans[j]) && v !in net.out[fans[j]] ==> share[fans[j]] > 0
    ensures Within(fans[j..], |net.out|)
  {
    TimesParts(fans, j, fans[j]);
    assert fans[j..][0] == fans[j];
  }

  lemma OwnLeaves(net: Net, bag: multiset<nat>, base: seq<nat>, with: seq<nat>, p: nat, share: seq<nat>)
    requires Transposed(net) && p < |net.out| && |base| == |with| == |net.out|
    requires Ledger(net, bag, with, net.inn[p], share)
    requires forall w: nat :: w < |net.out| ==> with[w] == base[w] + Own(net, p, w)
    ensures net.Small(p) ==>
              multiset(net.out[p]) <= bag && Ledger(net, bag - multiset(net.out[p]), base, net.inn[p], share)
    ensures !net.Small(p) ==> Ledger(net, bag, base, net.inn[p], share)
  {
    forall w: nat
      ensures multiset(net.out[p])[w] == Times(net.out[p], w) && (Times(net.out[p], w) > 0 ==> w < |net.out|)
    {
    }
  }

  /** Takes node p out of the window while v is about to enter it. */
  method LeaveWindow(heap: UnitHeap, net: Net, p: nat, v: nat, unmarked: seq<bool>, ghost window: seq<nat>,
                     ghost paid: seq<nat>, ghost bag0: multiset<nat>, ghost base: seq<nat>, ghost share0: seq<nat>)
    returns (marked: seq<bool>, ghost bag: multiset<nat>, ghost share: seq<nat>)
    requires Transposed(net) && Booked(heap, net, paid, bag0) && Balanced(net, bag0, window, share0)
    requires |window| > 0 && window[0] == p && |base| == |net.out|
    requires forall w: nat :: w < |net.out| ==> base[w] == Direct(net, window[1..], w)
    requires |unmarked| == |net.out| && forall u :: 0 <= u < |unmarked| ==> !unmarked[u]
    modifies heap`update
    ensures Booked(heap, net, paid, bag) && Ledger(net, bag, base, [], share)
    ensures FansOut(net, net.inn[p], |net.inn[p]|, v, share0, share, marked)
  {
    ghost var with := seq(|net.out|, w requires 0 <= w < |net.out| => base[w] + Own(net, p, w));
    assert Ledger(net, bag0, with, net.inn[p], share0);
    OwnLeaves(net, bag0, base, with, p, share0);
    bag := bag0;
    if net.Small(p) {
      UnbumpAll(heap, net.out[p], paid, bag0);
      bag := bag0 - multiset(net.out[p]);
    }
    marked, bag, share := AllFansOut(heap, net, p, v, unmarked, paid, bag, base, share0);
  }

  // ---------------------------------------------------------------------------
  // A node enters the window
  // ---------------------------------------------------------------------------

  lemma OwnJoins(net: Net, bag: multiset<nat>, base: seq<nat>, with: seq<nat>, v: nat, fans: seq<nat>, share: seq<nat>)
    requires Transposed(net) && v < |net.out| && |base| == |with| == |net.out| && Ledger(net, bag, base, fans, share)
    requires forall w: nat :: w < |net.out| ==> with[w] == base[w] + Own(net, v, w)
    ensures Ledger(net, if net.Small(v) then bag + multiset(net.out[v]) else bag, with, fans, share)
  {
    forall w: nat ensures multiset(net.out[v])[w] == Times(net.out[v], w) {
    }
  }

  /** One fan u of the node that enters. A mark means the round over its links was left standing. */
  method FanIn(heap: UnitHeap, net: Net, fans: seq<nat>, j: nat, marked: seq<bool>,
               ghost paid: seq<nat>, ghost bag: multiset<nat>, ghost base: seq<nat>, ghost share: seq<nat>)
    returns (marked': seq<bool>, ghost bag': multiset<nat>, ghost share': seq<nat>)
    requires Transposed(net) && Booked(heap, net, paid, bag) && |marked| == |net.out|
    requires j < |fans| && Within(fans, |net.out|) && Ledger(net, bag, base, fans[..j], share)
    modifies heap
    ensures Booked(heap, net, paid, bag') && Ledger(net, bag', base, fans[..j + 1], share')
    ensures multiset(heap.chain) == multiset(old(heap.chain)) && Grown(old(heap.key), heap.key, bag') && bag <= bag'
    ensures share' == if net.Sharing(fans[j]) && !marked[fans[j]] then share[fans[j] := share[fans[j]] + 1] else share
    ensures marked' == if net.Small(fans[j]) then marked[fans[j] := false] else marked
  {
    var u := fans[j];
    FanJoins(net, bag, base, fans, share, j);
    if !net.Small(u) {
      return marked, bag, share;
    }
    marked' := marked;
    if marked[u] {
      marked' := marked[u := false];
    }
    assert marked' == marked[u := false];
    bag', share' := SmallFanIn(heap, net, u, marked[u], paid, bag, base, fans[..j + 1], share);
  }

  /** The bumps of one fan of low degree. */
  method SmallFanIn(heap: UnitHeap, net: Net, u: nat, mark: bool, ghost paid: seq<nat>, ghost bag: multiset<nat>,
                    ghost base: seq<nat>, ghost fans: seq<nat>, ghost share: seq<nat>)
    returns (ghost bag': multiset<nat>, ghost share': seq<nat>)
    requires Booked(heap, net, paid, bag) && u < |net.out| && Within(net.out[u], |net.out|) && net.Small(u)
    requires Ledger(net, bag + multiset{u}, base, fans, share)
    modifies heap
    ensures Booked(heap, net, paid, bag') && Ledger(net, bag', base, fans, share')
    ensures multiset(heap.chain) == multiset(old(heap.chain)) && Grown(old(heap.key), heap.key, bag') && bag <= bag'
    ensures share' == if net.Sharing(u) && !mark then share[u := share[u] + 1] else share
  {
    Bump(heap, u, paid, bag);
    bag', share' := bag + multiset{u}, share;
    if !mark {
      ghost var key1, bag1 := heap.key, bag';
      bag', share' := ShareIn(heap, net, u, paid, bag', base, fans, share);
      GrownTwice(old(heap.key), key1, heap.key, bag1, bag');
    }
  }

  /** A round over the links of u, if it has more than one. */
  method ShareIn(heap: UnitHeap, net: Net, u: nat, ghost paid: seq<nat>, ghost bag: multiset<nat>, ghost base: seq<nat>,
                 ghost fans: seq<nat>, ghost share: seq<nat>)
    returns (ghost bag': multiset<nat>, ghost share': seq<nat>)
    requires Booked(heap, net, paid, bag) && u < |net.out| && Within(net.out[u], |net.out|) && net.Small(u)
    requires Ledger(net, bag, base, fans, share)
    modifies heap
    ensures Booked(heap, net, paid, bag') && Ledger(net, bag', base, fans, share')
    ensures multiset(heap.chain) == multiset(old(heap.chain)) && Grown(old(heap.key), heap.key, bag') && bag <= bag'
    ensures share' == if net.Sharing(u) then share[u := share[u] + 1] else share
  {
    bag', share' := bag, share;
    if |net.out[u]| > 1 {
      ShareJoins(net, bag, base, fans, share, u);
      BumpAll(heap, net.out[u], paid, bag);
      bag', share' := bag + multiset(net.out[u]), share[u := share[u] + 1];
    }
  }

  /** The rounds that `times` occurrences of a fan start: a mark stands for the first of them. */
  function NewRounds(sharing: bool, mark: bool, times: nat): nat {
    if !sharing || times == 0 then 0 else if mark then times - 1 else times
  }

  /** What the first j fans of an entering node have changed. */
  ghost predicate FansIn(net: Net, fans: seq<nat>, j: nat, marked0: seq<bool>, share0: seq<nat>, share: seq<nat>,
                         marked: seq<bool>) {
    && j <= |fans| && |share0| == |share| == |marked| == |marked0| == |net.out|
    && (forall u: nat :: u < |net.out| ==>
        share[u] == share0[u] + NewRounds(net.Sharing(u), marked0[u], Times(fans[..j], u)))
    && (forall u: nat :: u < |net.out| ==> (marked[u] <==> marked0[u] && !(u in fans[..j] && net.Small(u))))
  }

  lemma FansInNext(net: Net, fans: seq<nat>, j: nat, marked0: seq<bool>, share0: seq<nat>, share: seq<nat>,
                   marked: seq<bool>)
    requires j < |fans| && Within(fans, |net.out|) && FansIn(net, fans, j, marked0, share0, share, marked)
    ensures
      var u := fans[j];
      var share' := if net.Sharing(u) && !marked[u] then share[u := share[u] + 1] else share;
      var marked' := if net.Small(u) then marked[u := false] else marked;
      FansIn(net, fans, j + 1, marked0, share0, share', marked')
  {
    assert fans[..j + 1] == fans[..j] + [fans[j]];
    forall w: nat ensures Times(fans[..j + 1], w) == Times(fans[..j], w) + if w == fans[j] then 1 else 0 {
      TimesNext(fans, j, w);
    }
  }

  method AllFansIn(heap: UnitHeap, net: Net, v: nat, marked0: seq<bool>,
                   ghost paid: seq<nat>, ghost bag0: multiset<nat>, ghost base: seq<nat>, ghost share0: seq<nat>)
    returns (marked: seq<bool>, ghost bag: multiset<nat>, ghost share: seq<nat>)
    requires Transposed(net) && Booked(heap, net, paid, bag0) && v < |net.out| && |marked0| == |net.out|
    requires Ledger(net, bag0, base, [], share0)
    modifies heap
    ensures Booked(heap, net, paid, bag) && Ledger(net, bag, base, net.inn[v], share)
    ensures multiset(heap.chain) == multiset(old(heap.chain)) && Grown(old(heap.key), heap.key, bag) && bag0 <= bag
    ensures FansIn(net, net.inn[v], |net.inn[v]|, marked0, share0, share, marked)
  {
    var fans := net.inn[v];
    marked, bag, share := marked0, bag0, share0;
    assert fans[..0] == [];
    for j := 0 to |fans|
      invariant Booked(heap, net, paid, bag) && Ledger(net, bag, base, fans[..j], share)
      invariant multiset(heap.chain) == multiset(old(heap.chain)) && Grown(old(heap.key), heap.key, bag) && bag0 <= bag
      invariant FansIn(net, fans, j, marked0, share0, share, marked)
    {
      FansInNext(net, fans, j, marked0, share0, share, marked);
      ghost var key1, bag1 := heap.key, bag;
      marked, bag, share := FanIn(heap, net, fans, j, marked, paid, bag, base, share);
      GrownTwice(old(heap.key), key1, heap.key, bag1, bag);
    }
    assert fans[..|fans|] == fans;
  }

  /** Puts node v into the window. */
  method EnterWindow(heap: UnitHeap, net: Net, v: nat, marked0: seq<bool>,
                     ghost paid: seq<nat>, ghost bag0: multiset<nat>, ghost base: seq<nat>, ghost with: seq<nat>,
                     ghost share0: seq<nat>)
    returns (marked: seq<bool>, ghost bag: multiset<nat>, ghost share: seq<nat>)
    requires Transposed(net) && Booked(heap, net, paid, bag0) && v < |net.out| && |marked0| == |net.out|
    requires Ledger(net, bag0, base, [], share0) && |with| == |net.out|
    requires forall w: nat :: w < |net.out| ==> with[w] == base[w] + Own(net, v, w)
    modifies heap
    ensures Booked(heap, net, paid, bag) && Ledger(net, bag, with, net.inn[v], share)
    ensures multiset(heap.chain) == multiset(old(heap.chain)) && Grown(old(heap.key), heap.key, bag)
    ensures FansIn(net, net.inn[v], |net.inn[v]|, marked0, share0, share, marked)
  {
    OwnJoins(net, bag0, base, with, v, [], share0);
    bag := bag0;
    if net.Small(v) {
      BumpAll(heap, net.out[v], paid, bag0);
      bag := bag0 + multiset(net.out[v]);
    }
    ghost var key1, bag1 := heap.key, bag;
    marked, bag, share := AllFansIn(heap, net, v, marked0, paid, bag, with, share0);
    GrownTwice(old(heap.key), key1, heap.key, bag1, bag);
  }

  // ---------------------------------------------------------------------------
  // One step
  // ---------------------------------------------------------------------------

  ghost predicate Unmarked(net: Net, marked: seq<bool>) {
    |marked| == |net.out| && forall u :: 0 <= u < |marked| ==> !marked[u]
  }

  /** v entered a window nobody had to leave. */
  lemma Entered(net: Net, window: seq<nat>, v: nat, marked0: seq<bool>, share0: seq<nat>, bag: multiset<nat>,
                with: seq<nat>, share: seq<nat>, marked: seq<bool>)
    requires Transposed(net) && v < |net.out| && Nodes(net, window) && Unmarked(net, marked0) && |with| == |net.out|
    requires Covered(net, window, share0) && (Simple(net.out) ==> Exact(net, window, share0))
    requires forall w: nat :: w < |net.out| ==> with[w] == Direct(net, window, w) + Own(net, v, w)
    requires Ledger(net, bag, with, net.inn[v], share)
    requires FansIn(net, net.inn[v], |net.inn[v]|, marked0, share0, share, marked)
    ensures Balanced(net, bag, window + [v], share) && Unmarked(net, marked)
    ensures Exact(net, window + [v], share) <==> Exact(net, window, share0)
    ensures forall u: nat :: u < |net.out| ==> share[u] <= share0[u] + Times(net.inn[v], u)
  {
    var fans := net.inn[v];
    assert fans[..|fans|] == fans;
    forall w: nat | w < |net.out| ensures bag[w] == Direct(net, window + [v], w) + Shared(net, share, |share|, w) {
      DirectPush(net, window, v, w);
    }
    forall u: nat | u < |net.out|
      ensures if net.Sharing(u) then share[u] + Reach(net, window, u) == share0[u] + Reach(net, window + [v], u)
              else share[u] == share0[u]
    {
      ReachPush(net, window, v, u);
    }
    SameExcess(net, window, window + [v], share0, share, seq(|net.out|, _ => 0));
  }

  /** How the rounds in excess of a window's own change tells whether they are exact. */
  lemma SameExcess(net: Net, window: seq<nat>, window': seq<nat>, share0: seq<nat>, share: seq<nat>, extra: seq<nat>)
    requires Nodes(net, window) && Nodes(net, window') && Covered(net, window, share0)
    requires |share| == |extra| == |net.out|
    requires forall u: nat :: u < |net.out| ==>
               if net.Sharing(u) then share[u] + Reach(net, window, u) == share0[u] + Reach(net, window', u) + extra[u]
               else share[u] == share0[u] && extra[u] == 0
    ensures Covered(net, window', share)
    ensures Exact(net, window', share) <==>
            Exact(net, window, share0) && forall u: nat :: u < |net.out| ==> extra[u] == 0
  {
    forall u: nat | u < |net.out|
      ensures share[u] == Rounds(net, window')[u] <==> share0[u] == Rounds(net, window)[u] && extra[u] == 0
    {
    }
    if Exact(net, window', share) {
      assert forall u: nat :: u < |net.out| ==> share0[u] == Rounds(net, window)[u];
    }
  }

  /** The rounds that stay out although the window does not account for them: when a fan of both the
      node that leaves and the node that enters has the former several times in its list. */
  ghost function Surplus(net: Net, p: nat, v: nat, u: nat): nat
    requires u < |net.out|
  {
    if net.Sharing(u) && v in net.out[u] && Times(net.out[u], p) > 0 then Times(net.out[u], p) - 1 else 0
  }

  /** The list of some fan names v and, at least twice, p. */
  ghost predicate Doubled(net: Net, p: nat, v: nat) {
    exists u: nat :: u < |net.out| && net.Sharing(u) && v in net.out[u] && Times(net.out[u], p) >= 2
  }

  lemma SimpleNotDoubled(net: Net, p: nat, v: nat)
    requires Simple(net.out)
    ensures !Doubled(net, p, v)
  {
    forall u: nat | u < |net.out| ensures Times(net.out[u], p) <= 1 {
      OneEach(net.out[u], |net.out|, p);
    }
  }

  /** v entered as p left: a fan of both keeps its round, which is all the mark is for. The rounds
      stay exact if and only if they were and no such fan names p twice. */
  lemma Exchanged(net: Net, window: seq<nat>, v: nat, share0: seq<nat>, share1: seq<nat>, marked1: seq<bool>,
                  bag: multiset<nat>, with: seq<nat>, share: seq<nat>, marked: seq<bool>)
    requires Transposed(net) && v < |net.out| && |window| > 0 && Nodes(net, window) && |with| == |net.out|
    requires Covered(net, window, share0) && (Simple(net.out) ==> Exact(net, window, share0))
    requires FansOut(net, net.inn[window[0]], |net.inn[window[0]]|, v, share0, share1, marked1)
    requires forall w: nat :: w < |net.out| ==> with[w] == Direct(net, window[1..], w) + Own(net, v, w)
    requires Ledger(net, bag, with, net.inn[v], share)
    requires FansIn(net, net.inn[v], |net.inn[v]|, marked1, share1, share, marked)
    ensures Balanced(net, bag, window[1..] + [v], share) && Unmarked(net, marked)
    ensures Exact(net, window[1..] + [v], share) <==> Exact(net, window, share0) && !Doubled(net, window[0], v)
    ensures forall u: nat :: u < |net.out| ==> share[u] <= share0[u] + Times(net.inn[v], u)
  {
    var rest, p := window[1..], window[0];
    assert Nodes(net, rest) && Nodes(net, rest + [v]);
    forall w: nat | w < |net.out| ensures bag[w] == Direct(net, rest + [v], w) + Shared(net, share, |share|, w) {
      DirectPush(net, rest, v, w);
    }
    var extra := seq(|net.out|, u requires 0 <= u < |net.out| => Surplus(net, p, v, u));
    forall u: nat | u < |net.out|
      ensures !marked[u] && share[u] <= share0[u] + Times(net.inn[v], u)
      ensures if net.Sharing(u)
              then share[u] + Reach(net, window, u) == share0[u] + Reach(net, rest + [v], u) + extra[u]
              else share[u] == share0[u] && extra[u] == 0
    {
      ExchangedShare(net, window, v, share0, share1, marked1, share, marked, u);
    }
    SameExcess(net, window, rest + [v], share0, share, extra);
    assert (forall u: nat :: u < |net.out| ==> extra[u] == 0) <==> !Doubled(net, p, v);
    if Simple(net.out) {
      SimpleNotDoubled(net, p, v);
    }
  }

  lemma ExchangedShare(net: Net, window: seq<nat>, v: nat, share0: seq<nat>, share1: seq<nat>, marked1: seq<bool>,
                       share: seq<nat>, marked: seq<bool>, u: nat)
    requires Transposed(net) && v < |net.out| && |window| > 0 && Nodes(net, window) && u < |net.out|
    requires Covered(net, window, share0)
    requires FansOut(net, net.inn[window[0]], |net.inn[window[0]]|, v, share0, share1, marked1)
    requires FansIn(net, net.inn[v], |net.inn[v]|, marked1, share1, share, marked)
    ensures Nodes(net, window[1..] + [v]) && !marked[u] && share[u] <= share0[u] + Times(net.inn[v], u)
    ensures if net.Sharing(u)
            then share[u] + Reach(net, window, u)
              == share0[u] + Reach(net, window[1..] + [v], u) + Surplus(net, window[0], v, u)
            else share[u] == share0[u]
  {
    var out, inn := net.inn[window[0]], net.inn[v];
    assert out[..|out|] == out && inn[..|inn|] == inn;
    assert Times(inn, u) == Times(net.out[u], v) && Times(out, u) == Times(net.out[u], window[0]);
    ReachPush(net, window[1..], v, u);
  }

  lemma AfterExtract(chain0: seq<nat>, key0: seq<int>, update0: seq<int>, chain: seq<nat>, key: seq<int>,
                     update: seq<int>, paid: seq<nat>, bag: multiset<nat>, v: nat)
    requires Accounts(chain0, key0, update0, paid, bag) && SameScores(chain0, key0, update0, key, update)
    requires Pending(chain, key, update) && multiset(chain0) == multiset(chain) + multiset{v} && v < |key|
    requires update[v] <= 0
    ensures Accounts(chain0, key, update, paid, bag)
  {
    forall w: nat | w < |key| && w in chain0 ensures update[w] <= 0 && key[w] + update[w] == bag[w] {
      assert w in multiset(chain0);
      assert Score(key, update, w) == Score(key0, update0, w);
      if w != v {
        assert w in multiset(chain);
        var p :| 0 <= p < |chain| && chain[p] == w;
        assert update[chain[p]] <= 0;
      }
    }
  }

  /** Scores stay below the mark of a removed node. */
  ghost predicate Capacity(net: Net) {
    |net.inn| == |net.out| && forall w: nat :: w < |net.out| ==> Cap(net, w) < GONE
  }

  /** Node v is within half of its own cap of outscoring w. */
  ghost predicate NearBest(net: Net, window: seq<nat>, v: nat, w: nat) {
    && Nodes(net, window) && v < |net.out| == |net.inn| && w < |net.out|
    && 2 * Scored(net, window, w) <= Scored(net, window, v) + Cap(net, v)
  }

  ghost predicate NearBestOf(net: Net, window: seq<nat>, v: nat, chain: seq<nat>) {
    forall w: nat :: w in chain ==> NearBest(net, window, v, w)
  }

  /** What the heap guarantees about the node it gives out, said of the scores. */
  lemma DrawnIsNearBest(net: Net, chain: seq<nat>, key: seq<int>, update: seq<int>, v: nat, paid: seq<nat>,
                        bag: multiset<nat>, window: seq<nat>, share: seq<nat>, chain0: seq<nat>)
    requires Balanced(net, bag, window, share) && Exact(net, window, share)
    requires Capped(net, key) && |key| == |net.out| && v < |key|
    requires Accounts(chain0, key, update, paid, bag) && multiset(chain0) == multiset(chain) + multiset{v}
    requires Pending(chain, key, update) && Dominated(chain, key, update, v)
    ensures NearBestOf(net, window, v, chain)
  {
    assert v in multiset(chain0);
    BagIsScore(net, bag, window, share, v);
    forall w: nat | w in chain ensures NearBest(net, window, v, w) {
      assert w in multiset(chain0);
      var p :| 0 <= p < |chain| && chain[p] == w;
      BagIsScore(net, bag, window, share, w);
      assert 2 * key[chain[p]] <= 2 * key[v] + update[v];
    }
  }

  /** Extracts the next node and marks it. If the rounds are exact, it is near the best. */
  method Draw(heap: UnitHeap, net: Net, ghost window: seq<nat>, ghost order: seq<nat>, ghost paid0: seq<nat>,
              ghost bag: multiset<nat>, ghost share: seq<nat>)
    returns (v: nat, ghost paid: seq<nat>, ghost drawn: Queue)
    requires Transposed(net) && Capacity(net) && Booked(heap, net, paid0, bag) && Balanced(net, bag, window, share)
    requires |window| <= WINDOW && |heap.chain| > 0 && Capped(net, heap.key) && Started(net, order, share)
    modifies heap
    ensures v < |net.out| && Booked(heap, net, paid, bag) && Capped(net, heap.key)
    ensures multiset(old(heap.chain)) == multiset(heap.chain) + multiset{v}
    ensures DrawnFrom(old(heap.Now()), v, drawn) && v < |drawn.update|
    ensures heap.Now() == drawn.(update := drawn.update[v := GONE])
    ensures Exact(net, window, share) ==> NearBestOf(net, window, v, heap.chain)
  {
    ghost var chain0, key0, update0 := heap.chain, heap.key, heap.update;
    AccountsPending(chain0, key0, update0, paid0, bag);
    v := heap.ExtractMax();
    AfterExtract(chain0, key0, update0, heap.chain, heap.key, heap.update, paid0, bag, v);
    ScoreBound(net, bag, window, order, share, v);
    if Exact(net, window, share) {
      DrawnIsNearBest(net, heap.chain, heap.key, heap.update, v, paid0, bag, window, share, chain0);
    }
    drawn := heap.Now();
    paid := Retire(heap, v, paid0, bag, chain0);
  }

  /** The last WINDOW nodes of the order. */
  ghost predicate WindowOf(order: seq<nat>, window: seq<nat>) {
    |window| == (if |order| < WINDOW then |order| else WINDOW) && window == order[|order| - |window|..]
  }

  lemma WindowSlides(order: seq<nat>, window: seq<nat>, v: nat)
    requires WindowOf(order, window)
    ensures WindowOf(order + [v], if |order| < WINDOW then window + [v] else window[1..] + [v])
    ensures |order| >= WINDOW ==> |window| == WINDOW && window[0] == order[|order| - WINDOW]
  {
  }

  /** Whether the rounds stay exact in this step. */
  ghost predicate StaysExact(net: Net, order: seq<nat>, v: nat) {
    |order| >= WINDOW ==> !Doubled(net, order[|order| - WINDOW], v)
  }

  ghost function Slid(order: seq<nat>, window: seq<nat>, v: nat): seq<nat>
    requires WindowOf(order, window)
  {
    if |order| < WINDOW then window + [v] else window[1..] + [v]
  }

  /** The bumps of one step: the node five places back leaves the window and v enters it. */
  method Slide(heap: UnitHeap, net: Net, order: seq<nat>, v: nat, unmarked: seq<bool>, ghost window: seq<nat>,
               ghost paid: seq<nat>, ghost bag0: multiset<nat>, ghost share0: seq<nat>)
    returns (marked: seq<bool>, ghost bag: multiset<nat>, ghost share: seq<nat>)
    requires Transposed(net) && Booked(heap, net, paid, bag0) && Balanced(net, bag0, window, share0)
    requires Unmarked(net, unmarked)
    requires WindowOf(order, window) && v < |net.out|
    modifies heap
    ensures Booked(heap, net, paid, bag) && multiset(heap.chain) == multiset(old(heap.chain)) && Unmarked(net, marked)
    ensures Balanced(net, bag, Slid(order, window, v), share)
    ensures Exact(net, Slid(order, window, v), share) <==> Exact(net, window, share0) && StaysExact(net, order, v)
    ensures forall u: nat :: u < |net.out| ==> share[u] <= share0[u] + Times(net.inn[v], u)
    ensures Grown(old(heap.key), heap.key, bag)
  {
    marked, bag, share := unmarked, bag0, share0;
    ghost var rest := if |order| < WINDOW then window else window[1..];
    ghost var base, with := Bases(net, rest, v);
    if |order| >= WINDOW {
      var p := order[|order| - WINDOW];
      ghost var share1;
      marked, bag, share1 := LeaveWindow(heap, net, p, v, unmarked, window, paid, bag0, base, share0);
      ghost var marked1 := marked;
      marked, bag, share := EnterWindow(heap, net, v, marked, paid, bag, base, with, share1);
      Exchanged(net, window, v, share0, share1, marked1, bag, with, share, marked);
    } else {
      NoFans(net, bag0, window, base, share0);
      marked, bag, share := EnterWindow(heap, net, v, unmarked, paid, bag0, base, with, share0);
      Entered(net, window, v, unmarked, share0, bag, with, share, marked);
    }
  }

  lemma NoFans(net: Net, bag: multiset<nat>, window: seq<nat>, base: seq<nat>, share: seq<nat>)
    requires Balanced(net, bag, window, share) && |base| == |net.out|
    requires forall w: nat :: w < |net.out| ==> base[w] == Direct(net, window, w)
    ensures Ledger(net, bag, base, [], share)
  {
  }

  lemma Bases(net: Net, rest: seq<nat>, v: nat) returns (base: seq<nat>, with: seq<nat>)
    requires Nodes(net, rest) && v < |net.out|
    ensures |base| == |with| == |net.out|
    ensures forall w: nat :: w < |net.out| ==>
              base[w] == Direct(net, rest, w) && with[w] == Direct(net, rest, w) + Own(net, v, w)
  {
    base := seq(|net.out|, w requires 0 <= w < |net.out| => Direct(net, rest, w));
    with := seq(|net.out|, w requires 0 <= w < |net.out| => Direct(net, rest, w) + Own(net, v, w));
  }

  function Iota(n: nat): (r: seq<nat>)
    ensures |r| == n && forall i :: 0 <= i < n ==> r[i] == i
  {
    if n == 0 then [] else Iota(n - 1) + [n - 1]
  }

  /** Between two steps: every node is drawn, set aside or in the heap, and all accounts agree. */
  ghost predicate Running(heap: UnitHeap, net: Net, order: seq<nat>, zero: seq<nat>, marked: seq<bool>,
                          window: seq<nat>, paid: seq<nat>, bag: multiset<nat>, share: seq<nat>)
    reads heap
  {
    && Booked(heap, net, paid, bag) && Balanced(net, bag, window, share) && Unmarked(net, marked)
      && WindowOf(order, window)
    && multiset(order) + multiset(zero) + multiset(heap.chain) == multiset(Iota(|net.out|)) && Capped(net, heap.key)
    && Started(net, order, share)
  }

  /** The window before the k-th draw. */
  ghost function Before(order: seq<nat>, k: nat): seq<nat>
    requires k <= |order|
  {
    order[if k < WINDOW then 0 else k - WINDOW..k]
  }

  /** Each node after the first was near the best of those that came later or are still to come. */
  ghost predicate Greedy(net: Net, order: seq<nat>, rest: seq<nat>) {
    forall k: nat, w: nat {:trigger NearBest(net, Before(order, k), order[k], w)} ::
      1 <= k < |order| && w in order[k + 1..] + rest ==> NearBest(net, Before(order, k), order[k], w)
  }

  lemma GreedyNext(net: Net, order: seq<nat>, v: nat, chain0: seq<nat>, chain: seq<nat>)
    requires Greedy(net, order, chain0) && NearBestOf(net, Before(order, |order|), v, chain)
    requires multiset(chain0) == multiset(chain) + multiset{v}
    ensures Greedy(net, order + [v], chain)
  {
    var order' := order + [v];
    forall k: nat, w: nat | 1 <= k < |order'| && w in order'[k + 1..] + chain
      ensures NearBest(net, Before(order', k), order'[k], w)
    {
      assert Before(order', k) == Before(order, k);
      if k < |order| {
        assert order'[k + 1..] == order[k + 1..] + [v];
        assert v in multiset(chain0) && (w in chain ==> w in multiset(chain0));
        assert w in order[k + 1..] + chain0;
        assert NearBest(net, Before(order, k), order[k], w);
      }
    }
  }

  lemma Moves(order: seq<nat>, zero: seq<nat>, chain0: seq<nat>, chain1: seq<nat>, chain2: seq<nat>, v: nat,
              all: multiset<nat>)
    requires multiset(order) + multiset(zero) + multiset(chain0) == all
    requires multiset(chain0) == multiset(chain1) + multiset{v} && multiset(chain2) == multiset(chain1)
    ensures multiset(order + [v]) + multiset(zero) + multiset(chain2) == all
  {
  }

  lemma NearBestKept(net: Net, order: seq<nat>, window: seq<nat>, v: nat, chain1: seq<nat>, chain2: seq<nat>)
    requires WindowOf(order, window) && NearBestOf(net, window, v, chain1) && multiset(chain2) == multiset(chain1)
    ensures NearBestOf(net, Before(order, |order|), v, chain2)
  {
    SameChain(chain2, chain1);
    assert window == Before(order, |order|);
  }

  /** No node is drawn twice. */
  lemma DrawnOnce(order: seq<nat>, others: multiset<nat>, n: nat)
    requires multiset(order) + others == multiset(Iota(n))
    ensures NoRepeats(order, n)
  {
    forall i | 0 <= i < |order| ensures order[i] < n {
      assert order[i] in multiset(order) && order[i] in multiset(Iota(n));
      assert order[i] in Iota(n);
    }
    forall i, j | 0 <= i < j < |order| ensures order[i] != order[j] {
      OneEach(Iota(n), n, order[i]);
      if order[i] == order[j] {
        Repeated(order, i, j);
      }
    }
  }

  lemma OneMoreStarted(net: Net, order: seq<nat>, v: nat, share0: seq<nat>, share: seq<nat>)
    requires Started(net, order, share0) && NoRepeats(order + [v], |net.out|) && v < |net.out| == |net.inn| == |share|
    requires forall u: nat :: u < |net.out| ==> share[u] <= share0[u] + Times(net.inn[v], u)
    ensures Started(net, order + [v], share)
  {
    forall u: nat | u < |net.out| ensures share[u] <= Reach(net, order + [v], u) {
      ReachPush(net, order, v, u);
    }
  }

  method Step(heap: UnitHeap, net: Net, order: seq<nat>, ghost zero: seq<nat>, unmarked: seq<bool>,
              ghost window: seq<nat>, ghost paid: seq<nat>, ghost bag: multiset<nat>, ghost share: seq<nat>)
    returns (v: nat, marked: seq<bool>, ghost window': seq<nat>, ghost paid': seq<nat>, ghost bag': multiset<nat>,
             ghost share': seq<nat>)
    requires Transposed(net) && Capacity(net) && Running(heap, net, order, zero, unmarked, window, paid, bag, share)
    requires |heap.chain| > 0
    modifies heap
    ensures Running(heap, net, order + [v], zero, marked, window', paid', bag', share')
    ensures multiset(old(heap.chain)) == multiset(heap.chain) + multiset{v}
    ensures Exact(net, window, share) ==> NearBestOf(net, Before(order, |order|), v, heap.chain)
    ensures Exact(net, window', share') <==> Exact(net, window, share) && StaysExact(net, order, v)
  {
    ghost var chain0 := heap.chain;
    ghost var drawn;
    v, paid', drawn := Draw(heap, net, window, order, paid, bag, share);
    ghost var chain1, key1 := heap.chain, heap.key;
    WindowSlides(order, window, v);
    marked, bag', share' := Slide(heap, net, order, v, unmarked, window, paid', bag, share);
    Moves(order, zero, chain0, chain1, heap.chain, v, multiset(Iota(|net.out|)));
    window' := Slid(order, window, v);
    StepStarted(net, order, zero, heap.chain, v, share, share');
    StaysCapped(net, key1, heap.key, bag', window', order + [v], share');
    if Exact(net, window, share) {
      NearBestKept(net, order, window, v, chain1, heap.chain);
    }
  }

  lemma StepStarted(net: Net, order: seq<nat>, zero: seq<nat>, chain: seq<nat>, v: nat, share: seq<nat>,
                    share': seq<nat>)
    requires Started(net, order, share) && v < |net.out| == |net.inn| == |share'|
    requires multiset(order + [v]) + multiset(zero) + multiset(chain) == multiset(Iota(|net.out|))
    requires forall u: nat :: u < |net.out| ==> share'[u] <= share[u] + Times(net.inn[v], u)
    ensures Started(net, order + [v], share')
  {
    assert multiset(order + [v]) + (multiset(zero) + multiset(chain)) == multiset(Iota(|net.out|));
    DrawnOnce(order + [v], multiset(zero) + multiset(chain), |net.out|);
    OneMoreStarted(net, order, v, share, share');
  }

  /** No node entered the window over a fan that named the node leaving it twice: exactly then the
      rounds were those of the window at every step. */
  ghost predicate NeverDoubled(net: Net, order: seq<nat>) {
    forall k: nat :: WINDOW <= k < |order| ==> !Doubled(net, order[k - WINDOW], order[k])
  }

  lemma SimpleNeverDoubled(net: Net, order: seq<nat>)
    requires Simple(net.out)
    ensures NeverDoubled(net, order)
  {
    forall k: nat | WINDOW <= k < |order| ensures !Doubled(net, order[k - WINDOW], order[k]) {
      SimpleNotDoubled(net, order[k - WINDOW], order[k]);
    }
  }

  lemma NeverDoubledNext(net: Net, order: seq<nat>, v: nat)
    ensures NeverDoubled(net, order + [v]) <==> NeverDoubled(net, order) && StaysExact(net, order, v)
  {
    var order' := order + [v];
    if NeverDoubled(net, order') {
      forall k: nat | WINDOW <= k < |order| ensures !Doubled(net, order[k - WINDOW], order[k]) {
        assert order'[k] == order[k] && order'[k - WINDOW] == order[k - WINDOW];
      }
      if |order| >= WINDOW {
        assert order'[|order|] == v && order'[|order| - WINDOW] == order[|order| - WINDOW];
      }
    }
  }

  /** The main loop: the heap runs empty and every node has been drawn or set aside. As long as the
      rounds were exact, each draw took a node near the best of those left. */
  method Order(heap: UnitHeap, net: Net, first: nat, zero: seq<nat>, ghost paid0: seq<nat>, ghost bag0: multiset<nat>,
               ghost share0: seq<nat>)
    returns (order: seq<nat>)
    requires Transposed(net) && Capacity(net) && first < |net.out|
    requires Booked(heap, net, paid0, bag0) && Balanced(net, bag0, [first], share0) && Capped(net, heap.key)
    requires multiset{first} + multiset(zero) + multiset(heap.chain) == multiset(Iota(|net.out|))
    requires Started(net, [first], share0) && Exact(net, [first], share0)
    modifies heap
    ensures multiset(order) + multiset(zero) == multiset(Iota(|net.out|))
    ensures |order| > 0 && order[0] == first && (NeverDoubled(net, order) ==> Greedy(net, order, []))
  {
    order := [first];
    var marked := seq(|net.out|, _ => false);
    ghost var window, paid, bag, share := [first], paid0, bag0, share0;
    var count := 0;
    Remaining(order, zero, heap.chain, |net.out|);
    while count < |net.out| - 1 - |zero|
      invariant |order| == count + 1 && |heap.chain| == |net.out| - 1 - |zero| - count
      invariant Running(heap, net, order, zero, marked, window, paid, bag, share)
      invariant Exact(net, window, share) <==> NeverDoubled(net, order)
      invariant order[0] == first && (NeverDoubled(net, order) ==> Greedy(net, order, heap.chain))
    {
      ghost var chain0 := heap.chain;
      var v;
      v, marked, window, paid, bag, share := Step(heap, net, order, zero, marked, window, paid, bag, share);
      NeverDoubledNext(net, order, v);
      if NeverDoubled(net, order) {
        GreedyNext(net, order, v, chain0, heap.chain);
      }
      order := order + [v];
      count := count + 1;
      Remaining(order, zero, heap.chain, |net.out|);
    }
  }

  lemma Remaining(order: seq<nat>, zero: seq<nat>, chain: seq<nat>, n: nat)
    requires multiset(order) + multiset(zero) + multiset(chain) == multiset(Iota(n))
    ensures |chain| == n - |order| - |zero|
  {
    assert |multiset(order) + multiset(zero) + multiset(chain)| == |multiset(Iota(n))|;
    assert |multiset(order)| == |order| && |multiset(zero)| == |zero| && |multiset(chain)| == |chain|
      && |multiset(Iota(n))| == n;
  }

  // ---------------------------------------------------------------------------
  // The transposed graph
  // ---------------------------------------------------------------------------

  lemma Repeated(s: seq<nat>, i: nat, j: nat)
    requires i < j < |s| && s[i] == s[j]
    ensures multiset(s)[s[i]] >= 2
  {
    assert s == s[..i] + [s[i]] + s[i + 1..];
    assert s[j] in s[i + 1..];
    assert multiset(s[i + 1..])[s[j]] >= 1;
  }

  /** std::sort on a list of links. */
  method SortLinks(list: seq<nat>, ghost n: nat) returns (sorted: seq<nat>)
    requires Within(list, n)
    ensures Within(sorted, n) && multiset(sorted) == multiset(list)
  {
    var s := Sorting.Sort(list);
    forall k | 0 <= k < |s| ensures 0 <= s[k] < n {
      Sorting.SameMembers(s, list, s[k]);
    }
    sorted := s;
    forall w: nat ensures multiset(sorted)[w] == multiset(list)[w] {
      SameTimes(sorted, s, w);
      SameTimes(list, list, w);
    }
  }

  /** A list of nodes read as a list of integers. */
  lemma {:induction false} SameTimes(a: seq<nat>, b: seq<int>, w: nat)
    requires |a| == |b| && forall k :: 0 <= k < |a| ==> a[k] == b[k]
    ensures multiset(a)[w] == multiset(b)[w]
  {
    if |a| > 0 {
      var n := |a| - 1;
      SameTimes(a[..n], b[..n], w);
      assert a == a[..n] + [a[n]] && b == b[..n] + [b[n]];
    }
  }

  /** Pushes i onto the list of every node it links to. */
  method PushAll(inn: seq<seq<nat>>, list: seq<nat>, i: nat) returns (inn': seq<seq<nat>>)
    requires Within(list, |inn|)
    ensures |inn'| == |inn| && forall v: nat :: v < |inn| ==> inn'[v] == inn[v] + Copies(i, Times(list, v))
  {
    inn' := inn;
    for j := 0 to |list|
      invariant |inn'| == |inn| && forall v: nat :: v < |inn| ==> inn'[v] == inn[v] + Copies(i, Times(list[..j], v))
    {
      forall v: nat ensures Times(list[..j + 1], v) == Times(list[..j], v) + if v == list[j] then 1 else 0 {
        TimesNext(list, j, v);
      }
      inn' := inn'[list[j] := inn'[list[j]] + [i]];
    }
    assert list[..|list|] == list;
  }

  ghost predicate AllWithin(links: seq<seq<nat>>) {
    forall u :: 0 <= u < |links| ==> Within(links[u], |links|)
  }

  /** The transpose of the first i lists. */
  ghost predicate TransposedUpTo(links: seq<seq<nat>>, out: seq<seq<nat>>, inn: seq<seq<nat>>, i: nat) {
    && i <= |links| == |inn| && |out| == i
    && (forall u :: 0 <= u < i ==> Within(out[u], |links|) && multiset(out[u]) == multiset(links[u]))
    && (forall v :: 0 <= v < |links| ==> Within(inn[v], i) && |inn[v]| == InCount(out, i, v))
    && (forall u: nat, v: nat :: u < i && v < |links| ==> Times(inn[v], u) == Times(out[u], v))
  }

  lemma {:induction false} InCountPrefix(a: seq<seq<nat>>, b: seq<seq<nat>>, n: nat, w: nat)
    requires n <= |a| && n <= |b| && forall u: nat :: u < n ==> Times(a[u], w) == Times(b[u], w)
    ensures InCount(a, n, w) == InCount(b, n, w)
  {
    if n > 0 {
      InCountPrefix(a, b, n - 1, w);
    }
  }

  lemma CopiesCounted(inn: seq<nat>, i: nat, times: nat, u: nat)
    requires Within(inn, i)
    ensures Times(inn + Copies(i, times), u) == if u == i then times else Times(inn, u)
  {
    RepeatedValue(i, times);
    assert i !in inn;
  }

  lemma TransposedNext(links: seq<seq<nat>>, out: seq<seq<nat>>, inn: seq<seq<nat>>, i: nat, sorted: seq<nat>,
                       inn': seq<seq<nat>>)
    requires TransposedUpTo(links, out, inn, i) && i < |links|
    requires Within(sorted, |links|) && multiset(sorted) == multiset(links[i])
    requires |inn'| == |inn| && forall v: nat :: v < |inn| ==> inn'[v] == inn[v] + Copies(i, Times(links[i], v))
    ensures TransposedUpTo(links, out + [sorted], inn', i + 1)
  {
    var out' := out + [sorted];
    forall v: nat | v < |links|
      ensures Within(inn'[v], i + 1) && |inn'[v]| == InCount(out', i + 1, v)
      ensures forall u: nat :: u < i + 1 ==> Times(inn'[v], u) == Times(out'[u], v)
    {
      InCountPrefix(out, out', i, v);
      assert Times(sorted, v) == Times(links[i], v);
      forall u: nat | u < i + 1 ensures Times(inn'[v], u) == Times(out'[u], v) {
        CopiesCounted(inn[v], i, Times(links[i], v), u);
      }
    }
  }

  /** The net has the lists' links, in any order. */
  ghost predicate SameLinks(net: Net, links: seq<seq<nat>>) {
    && Transposed(net) && |net.out| == |links|
    && forall u :: 0 <= u < |links| ==> multiset(net.out[u]) == multiset(links[u])
  }

  /** Builds the sorted out-lists and the in-lists. */
  method Transpose(links: seq<seq<nat>>, huge: nat) returns (net: Net)
    requires AllWithin(links)
    ensures SameLinks(net, links) && net.huge == huge
  {
    var out: seq<seq<nat>> := [];
    var inn: seq<seq<nat>> := seq(|links|, _ => []);
    for i := 0 to |links|
      invariant TransposedUpTo(links, out, inn, i)
    {
      var inn' := PushAll(inn, links[i], i);
      var sorted := SortLinks(links[i], |links|);
      TransposedNext(links, out, inn, i, sorted, inn');
      out, inn := out + [sorted], inn';
    }
    net := Net(out, inn, huge);
  }

  /** A list of low degree that names p several times and v leaves rounds too many when v follows p. */
  lemma RepeatLeavesSurplus(net: Net, links: seq<seq<nat>>, u: nat, p: nat, v: nat)
    requires SameLinks(net, links) && u < |links| && |links[u]| <= net.huge && Times(links[u], p) >= 2 && v in links[u]
    ensures Doubled(net, p, v) && Surplus(net, p, v, u) == Times(links[u], p) - 1
  {
    assert Times(net.out[u], p) == Times(links[u], p) && Times(net.out[u], v) == Times(links[u], v);
    assert |multiset(net.out[u])| == |net.out[u]| && |multiset(links[u])| == |links[u]|;
    TimesAtMost(links[u], p);
  }

  lemma SameInCount(net: Net, links: seq<seq<nat>>, w: nat)
    requires SameLinks(net, links)
    ensures InCount(net.out, |links|, w) == InCount(links, |links|, w)
  {
    forall u: nat | u < |links| ensures Times(net.out[u], w) == Times(links[u], w) {
    }
    InCountPrefix(net.out, links, |links|, w);
  }

  lemma SimpleByTimes(lists: seq<seq<nat>>)
    requires AllWithin(lists)
    ensures Simple(lists) <==> forall u: nat, w: nat :: u < |lists| ==> Times(lists[u], w) <= 1
  {
    if Simple(lists) {
      forall u: nat, w: nat | u < |lists| ensures Times(lists[u], w) <= 1 {
        OneEach(lists[u], |lists|, w);
      }
    }
    if forall u: nat, w: nat :: u < |lists| ==> Times(lists[u], w) <= 1 {
      forall u, i, j | 0 <= u < |lists| && 0 <= i < j < |lists[u]| ensures lists[u][i] != lists[u][j] {
        assert Times(lists[u], lists[u][i]) <= 1;
        if lists[u][i] == lists[u][j] {
          Repeated(lists[u], i, j);
        }
      }
    }
  }

  lemma SameLimit(net: Net, links: seq<seq<nat>>, w: nat)
    requires SameLinks(net, links) && AllWithin(links) && w < |links|
    ensures Limit(net.out, net.huge, w) == Limit(links, net.huge, w) && (Simple(net.out) <==> Simple(links))
  {
    SimpleByTimes(net.out);
    SimpleByTimes(links);
    forall u: nat, v: nat | u < |links| ensures Times(net.out[u], v) == Times(links[u], v) {
    }
    SameInCount(net, links, w);
    assert |multiset(net.out[w])| == |net.out[w]| && |multiset(links[w])| == |links[w]|;
  }

  // ---------------------------------------------------------------------------
  // Starting up
  // ---------------------------------------------------------------------------

  /** Marks a node and takes it out of the heap. */
  method SetAside(heap: UnitHeap, v: nat, ghost paid: seq<nat>, ghost bag: multiset<nat>)
    returns (ghost paid': seq<nat>)
    requires heap.Valid() && v < |heap.key| && v in heap.chain && Accounts(heap.chain, heap.key, heap.update, paid, bag)
    requires bag[v] < GONE
    modifies heap
    ensures heap.Valid() && Accounts(heap.chain, heap.key, heap.update, paid', bag) && v !in heap.chain
    ensures heap.key == old(heap.key)
    ensures multiset(old(heap.chain)) == multiset(heap.chain) + multiset{v}
  {
    ghost var before := heap.chain;
    heap.update := heap.update[v := GONE];
    heap.DeleteElement(v);
    paid' := paid[v := bag[v]];
    forall w: nat | w != v ensures w in before <==> w in heap.chain {
      assert w in multiset(before) <==> w in multiset(heap.chain);
    }
  }

  ghost function Indegrees(links: seq<seq<nat>>): (d: seq<int>)
    ensures |d| == |links| && forall v: nat :: v < |links| ==> d[v] == InCount(links, |links|, v)
  {
    seq(|links|, v requires 0 <= v < |links| => InCount(links, |links|, v))
  }

  ghost predicate Isolated(net: Net, w: nat) {
    w < |net.out| == |net.inn| && |net.out[w]| == |net.inn[w]| == 0
  }

  /** The isolated nodes from 1 up to i, in order. */
  ghost predicate IsolatedBelow(net: Net, zero: seq<nat>, i: nat) {
    && (forall w: nat :: w in zero <==> 1 <= w < i && Isolated(net, w))
    && (forall j, k :: 0 <= j < k < |zero| ==> zero[j] < zero[k])
  }

  /** Every node is in the heap or among the isolated ones before i. */
  ghost predicate Sifted(chain: seq<nat>, net: Net, zero: seq<nat>, i: nat) {
    multiset(zero) + multiset(chain) == multiset(Iota(|net.out|)) && IsolatedBelow(net, zero, i)
  }

  lemma InHeap(chain: seq<nat>, net: Net, zero: seq<nat>, w: nat)
    requires multiset(zero) + multiset(chain) == multiset(Iota(|net.out|)) && w < |net.out| && w !in zero
    ensures w in chain
  {
    assert Iota(|net.out|)[w] == w;
    assert w in multiset(Iota(|net.out|));
    assert w in multiset(chain);
  }

  lemma OneMoreIsolated(net: Net, zero: seq<nat>, i: nat)
    requires IsolatedBelow(net, zero, i) && i >= 1 && Isolated(net, i)
    ensures i !in zero && IsolatedBelow(net, zero + [i], i + 1)
  {
    forall k | 0 <= k < |zero| ensures zero[k] < i {
      assert zero[k] in zero;
    }
    forall w: nat ensures w in zero + [i] <==> 1 <= w < i + 1 && Isolated(net, w) {
      assert w in zero <==> 1 <= w < i && Isolated(net, w);
    }
  }

  method SetAsideOne(heap: UnitHeap, net: Net, i: nat, ghost zero: seq<nat>, ghost paid: seq<nat>)
    returns (ghost paid': seq<nat>)
    requires 1 <= i && Isolated(net, i) && Booked(heap, net, paid, multiset{}) && Sifted(heap.chain, net, zero, i)
    modifies heap
    ensures Booked(heap, net, paid', multiset{}) && Sifted(heap.chain, net, zero + [i], i + 1)
    ensures heap.key == old(heap.key)
  {
    OneMoreIsolated(net, zero, i);
    InHeap(heap.chain, net, zero, i);
    paid' := SetAside(heap, i, paid, multiset{});
  }

  /** The heaviest node before i, which is never an isolated one. */
  ghost predicate Heaviest(net: Net, best: nat, weight: int, zero: seq<nat>, i: nat) {
    && i <= |net.inn| && best !in zero && (if i == 0 then weight == -1 else best < i && weight == |net.inn[best]|)
    && forall w: nat :: w < i ==> |net.inn[w]| <= weight
  }

  /** Looks for the node of highest indegree and sets the isolated ones aside, except that node 0
      is never looked at for isolation. */
  method SetAsideIsolated(heap: UnitHeap, net: Net, ghost paid0: seq<nat>)
    returns (best: nat, zero: seq<nat>, ghost paid: seq<nat>)
    requires |net.inn| == |net.out| > 0 && Booked(heap, net, paid0, multiset{})
    requires multiset(heap.chain) == multiset(Iota(|net.out|))
    modifies heap
    ensures Booked(heap, net, paid, multiset{}) && Sifted(heap.chain, net, zero, |net.out|) && heap.key == old(heap.key)
    ensures best < |net.out| && Heaviest(net, best, |net.inn[best]|, zero, |net.out|)
  {
    best, zero, paid := 0, [], paid0;
    var weight := -1;
    for i := 0 to |net.out|
      invariant Booked(heap, net, paid, multiset{}) && Sifted(heap.chain, net, zero, i) && heap.key == old(heap.key)
      invariant Heaviest(net, best, weight, zero, i)
    {
      best, weight, zero, paid := Consider(heap, net, i, best, weight, zero, paid);
    }
  }

  method Consider(heap: UnitHeap, net: Net, i: nat, best: nat, weight: int, zero: seq<nat>, ghost paid: seq<nat>)
    returns (best': nat, weight': int, zero': seq<nat>, ghost paid': seq<nat>)
    requires i < |net.out| == |net.inn| && Booked(heap, net, paid, multiset{}) && Sifted(heap.chain, net, zero, i)
    requires Heaviest(net, best, weight, zero, i)
    modifies heap
    ensures Booked(heap, net, paid', multiset{}) && Sifted(heap.chain, net, zero', i + 1) && heap.key == old(heap.key)
    ensures Heaviest(net, best', weight', zero', i + 1)
  {
    best', weight', zero', paid' := best, weight, zero, paid;
    if |net.inn[i]| > weight {
      weight', best' := |net.inn[i]|, i;
    } else if |net.inn[i]| + |net.out[i]| == 0 {
      paid' := SetAsideOne(heap, net, i, zero, paid);
      zero' := zero + [i];
    }
  }

  lemma AllInHeap(chain: seq<nat>, n: nat)
    requires multiset(chain) == multiset(Iota(n))
    ensures forall w: nat :: w < n ==> w in chain
  {
    forall w: nat | w < n ensures w in chain {
      assert Iota(n)[w] == w;
      assert w in multiset(Iota(n));
    }
  }

  /** The first node's bumps: its fans come before its own links. */
  method EnterFirst(heap: UnitHeap, net: Net, v: nat, ghost paid: seq<nat>)
    returns (ghost bag: multiset<nat>, ghost share: seq<nat>)
    requires Transposed(net) && Booked(heap, net, paid, multiset{}) && v < |net.out|
    modifies heap
    ensures Booked(heap, net, paid, bag) && Balanced(net, bag, [v], share) && Started(net, [v], share)
    ensures Exact(net, [v], share)
    ensures multiset(heap.chain) == multiset(old(heap.chain)) && Grown(old(heap.key), heap.key, bag)
  {
    ghost var share0 := NoRounds(net);
    ghost var base, with := Bases(net, [], v);
    var unmarked := seq(|net.out|, _ => false);
    assert Ledger(net, multiset{}, base, [], share0);
    var marked;
    marked, bag, share := AllFansIn(heap, net, v, unmarked, paid, multiset{}, base, share0);
    OwnJoins(net, bag, base, with, v, net.inn[v], share);
    if net.Small(v) {
      ghost var key1, bag1 := heap.key, bag;
      BumpAll(heap, net.out[v], paid, bag);
      bag := bag + multiset(net.out[v]);
      GrownTwice(old(heap.key), key1, heap.key, bag1, bag);
    }
    FirstEntered(net, v, unmarked, share0, bag, with, share, marked);
  }

  lemma NoRounds(net: Net) returns (share: seq<nat>)
    ensures |share| == |net.out| && (forall u :: 0 <= u < |share| ==> share[u] == 0) && Started(net, [], share)
    ensures Covered(net, [], share) && Exact(net, [], share) && forall w: nat :: Shared(net, share, |net.out|, w) == 0
  {
    share := seq(|net.out|, _ => 0);
    NothingShared(net, share, |net.out|);
  }

  lemma FirstEntered(net: Net, v: nat, unmarked: seq<bool>, share0: seq<nat>, bag: multiset<nat>, with: seq<nat>,
                     share: seq<nat>, marked: seq<bool>)
    requires Transposed(net) && v < |net.out| && Unmarked(net, unmarked) && |with| == |net.out|
    requires Started(net, [], share0) && Covered(net, [], share0) && Exact(net, [], share0)
    requires forall w: nat :: w < |net.out| ==> with[w] == Direct(net, [], w) + Own(net, v, w)
    requires Ledger(net, bag, with, net.inn[v], share)
    requires FansIn(net, net.inn[v], |net.inn[v]|, unmarked, share0, share, marked)
    ensures Balanced(net, bag, [v], share) && Started(net, [v], share) && Exact(net, [v], share)
  {
    Entered(net, [], v, unmarked, share0, bag, with, share, marked);
    assert [] + [v] == [v];
    OneMoreStarted(net, [], v, share0, share);
  }

  lemma {:induction false} NothingShared(net: Net, share: seq<nat>, n: nat)
    requires n <= |share| == |net.out| && forall u :: 0 <= u < |share| ==> share[u] == 0
    ensures forall w: nat :: Shared(net, share, n, w) == 0
  {
    if n > 0 {
      NothingShared(net, share, n - 1);
    }
  }

  /** The heap over all nodes, keyed by indegree with the whole key pending as a decrease. */
  method Prepare(net: Net, byDegree: seq<nat>) returns (heap: UnitHeap, ghost paid: seq<nat>)
    requires Transposed(net) && |net.out| >= 2 && |byDegree| == |net.out|
    requires ByKey(byDegree, Indegrees(net.out))
    ensures fresh(heap) && Booked(heap, net, paid, multiset{}) && multiset(heap.chain) == multiset(Iota(|net.out|))
    ensures Capped(net, heap.key)
  {
    heap := new UnitHeap(|net.out|);
    var n := |net.out|;
    heap.key := seq(n, i requires 0 <= i < n => |net.inn[i]|);
    heap.update := seq(n, i requires 0 <= i < n => -|net.inn[i]|);
    assert heap.key == Indegrees(net.out);
    heap.ReConstruct(byDegree);
    paid := seq(n, _ => 0);
    Prepared(net, byDegree, heap.key, heap.update, paid);
  }

  lemma Prepared(net: Net, byDegree: seq<nat>, key: seq<int>, update: seq<int>, paid: seq<nat>)
    requires Transposed(net) && |byDegree| == |net.out| && Distinct(byDegree, |byDegree|)
    requires |key| == |update| == |paid| == |net.out|
    requires forall w: nat :: w < |key| ==> key[w] == |net.inn[w]| && update[w] == -|net.inn[w]| && paid[w] == 0
    ensures Accounts(byDegree, key, update, paid, multiset{}) && Capped(net, key)
    ensures multiset(byDegree) == multiset(Iota(|net.out|))
  {
    EveryNode(byDegree);
    AllInHeap(byDegree, |net.out|);
    IndegreesCapped(net, key);
  }

  lemma IndegreesCapped(net: Net, key: seq<int>)
    requires Transposed(net) && |key| == |net.out| && forall w: nat :: w < |key| ==> key[w] == |net.inn[w]|
    ensures Capped(net, key)
  {
    forall w: nat | w < |key| ensures key[w] <= Cap(net, w) {
      MostRounds(0, net.huge, |net.inn[w]|, 0);
    }
  }

  lemma EveryNode(p: seq<nat>)
    requires Distinct(p, |p|)
    ensures multiset(p) == multiset(Iota(|p|))
  {
    forall w: nat ensures multiset(p)[w] == multiset(Iota(|p|))[w] {
      OneEach(p, |p|, w);
      OneEach(Iota(|p|), |p|, w);
      if w < |p| {
        Onto(p, w);
        assert Iota(|p|)[w] == w;
      }
    }
  }

  lemma IsEveryNode(p: seq<nat>, n: nat)
    requires multiset(p) == multiset(Iota(n))
    ensures |p| == n && IsPermutation(p)
  {
    assert |multiset(p)| == |p| && |multiset(Iota(n))| == n;
    DrawnOnce(p, multiset{}, n);
  }

  lemma Inserted(order: seq<nat>, zero: seq<nat>)
    requires |order| > 0
    ensures multiset(order[..|order| - 1] + zero + order[|order| - 1..]) == multiset(order) + multiset(zero)
  {
    assert order == order[..|order| - 1] + order[|order| - 1..];
  }

  ghost predicate HighestIndegree(net: Net, v: nat) {
    v < |net.inn| && forall w: nat :: w < |net.inn| ==> |net.inn[w]| <= |net.inn[v]|
  }

  /** An order that starts at a node of highest indegree, with the isolated nodes before its last
      one; a greedy one if the rounds were exact throughout, as they are if no list names a node
      twice. */
  ghost predicate Arranged(net: Net, perm: seq<nat>, order: seq<nat>, zero: seq<nat>) {
    && |order| > 0 && HighestIndegree(net, order[0]) && (NeverDoubled(net, order) ==> Greedy(net, order, []))
    && IsolatedBelow(net, zero, |net.out|) && perm == order[..|order| - 1] + zero + order[|order| - 1..]
  }

  /** generateGorderPermutation. `byDegree` is the order std::sort leaves the nodes in. */
  method GeneratePermutation(links: seq<seq<nat>>, huge: nat, byDegree: seq<nat>) returns (perm: seq<nat>)
    requires AllWithin(links) && ByKey(byDegree, Indegrees(links))
    requires forall w: nat :: w < |links| ==> Limit(links, huge, w) < GONE
    ensures |perm| == |links| && IsPermutation(perm)
    ensures |links| >= 2 ==> exists net: Net, order: seq<nat>, zero: seq<nat> ::
              && net.huge == huge && SameLinks(net, links) && Arranged(net, perm, order, zero)
              && (Simple(links) ==> Greedy(net, order, []))
  {
    if |links| == 0 {
      return [];
    }
    if |links| == 1 {
      return [0];
    }
    var net := Transpose(links, huge);
    SameNumbers(net, links);
    perm := Arrange(net, byDegree);
    ghost var order, zero :| Arranged(net, perm, order, zero);
    if Simple(links) {
      SameLimit(net, links, 0);
      SimpleNeverDoubled(net, order);
    }
  }

  lemma SameNumbers(net: Net, links: seq<seq<nat>>)
    requires SameLinks(net, links) && AllWithin(links)
    requires forall w: nat :: w < |links| ==> Limit(links, net.huge, w) < GONE
    ensures Indegrees(net.out) == Indegrees(links) && Capacity(net)
  {
    forall w: nat | w < |links|
      ensures InCount(net.out, |links|, w) == InCount(links, |links|, w) && Cap(net, w) < GONE
    {
      SameInCount(net, links, w);
      SameLimit(net, links, w);
    }
  }

  /** The case of two nodes or more. */
  method Arrange(net: Net, byDegree: seq<nat>) returns (perm: seq<nat>)
    requires Transposed(net) && Capacity(net) && |net.out| >= 2 && |byDegree| == |net.out|
    requires ByKey(byDegree, Indegrees(net.out))
    ensures |perm| == |net.out| && IsPermutation(perm)
    ensures exists order: seq<nat>, zero: seq<nat> :: Arranged(net, perm, order, zero)
  {
    var heap;
    ghost var paid, bag, share;
    heap, paid := Prepare(net, byDegree);
    var best, zero;
    best, zero, paid, bag, share := Begin(heap, net, paid);
    var order := Order(heap, net, best, zero, paid, bag, share);
    Inserted(order, zero);
    perm := order[..|order| - 1] + zero + order[|order| - 1..];
    IsEveryNode(perm, |net.out|);
    assert Arranged(net, perm, order, zero);
  }

  /** Sets the isolated nodes aside and draws the first node. */
  method Begin(heap: UnitHeap, net: Net, ghost paid0: seq<nat>)
    returns (best: nat, zero: seq<nat>, ghost paid: seq<nat>, ghost bag: multiset<nat>, ghost share: seq<nat>)
    requires Transposed(net) && |net.out| > 0 && Booked(heap, net, paid0, multiset{}) && Capped(net, heap.key)
    requires multiset(heap.chain) == multiset(Iota(|net.out|))
    modifies heap
    ensures best < |net.out| && Booked(heap, net, paid, bag) && Balanced(net, bag, [best], share)
    ensures Capped(net, heap.key) && Started(net, [best], share) && Exact(net, [best], share)
    ensures multiset{best} + multiset(zero) + multiset(heap.chain) == multiset(Iota(|net.out|))
    ensures IsolatedBelow(net, zero, |net.out|) && HighestIndegree(net, best)
  {
    best, zero, paid := SetAsideIsolated(heap, net, paid0);
    paid, bag, share := DrawFirst(heap, net, best, zero, paid);
  }

  lemma FirstMoves(zero: seq<nat>, chain0: seq<nat>, chain1: seq<nat>, chain2: seq<nat>, best: nat, all: multiset<nat>)
    requires multiset(zero) + multiset(chain0) == all
    requires multiset(chain0) == multiset(chain1) + multiset{best} && multiset(chain2) == multiset(chain1)
    ensures multiset{best} + multiset(zero) + multiset(chain2) == all
  {
  }

  method DrawFirst(heap: UnitHeap, net: Net, best: nat, ghost zero: seq<nat>, ghost paid0: seq<nat>)
    returns (ghost paid: seq<nat>, ghost bag: multiset<nat>, ghost share: seq<nat>)
    requires Transposed(net) && best < |net.out| && best !in zero && Booked(heap, net, paid0, multiset{})
    requires Capped(net, heap.key) && multiset(zero) + multiset(heap.chain) == multiset(Iota(|net.out|))
    modifies heap
    ensures Booked(heap, net, paid, bag) && Balanced(net, bag, [best], share) && Capped(net, heap.key)
    ensures Started(net, [best], share) && Exact(net, [best], share)
    ensures multiset{best} + multiset(zero) + multiset(heap.chain) == multiset(Iota(|net.out|))
  {
    ghost var chain0 := heap.chain;
    InHeap(chain0, net, zero, best);
    paid := SetAside(heap, best, paid0, multiset{});
    ghost var chain1, key1 := heap.chain, heap.key;
    bag, share := EnterFirst(heap, net, best, paid);
    FirstMoves(zero, chain0, chain1, heap.chain, best, multiset(Iota(|net.out|)));
    StaysCapped(net, key1, heap.key, bag, [best], [best], share);
  }
}
