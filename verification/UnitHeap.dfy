/** The bucketed linked list GOrder uses as a priority queue: nodes hang in one doubly linked
    list by non-increasing key, and every key knows its first and last node.

    `chain` is the list from the top. All links, headers and the top are determined by it. */
module UnitHeaps {

  // ---------------------------------------------------------------------------
  // Chains
  // ---------------------------------------------------------------------------

  ghost function At(chain: seq<nat>, p: int): (r: int) {
    if 0 <= p < |chain| then chain[p] else -1
  }

  function Without<T>(s: seq<T>, p: nat): (r: seq<T>)
    requires p < |s|
    ensures |r| == |s| - 1 && forall q {:trigger r[q]} :: 0 <= q < |r| ==> r[q] == if q < p then s[q] else s[q + 1]
  {
    seq(|s| - 1, q requires 0 <= q < |s| - 1 => if q < p then s[q] else s[q + 1])
  }

  function With<T>(s: seq<T>, q: nat, x: T): (r: seq<T>)
    requires q <= |s|
    ensures |r| == |s| + 1 && r[q] == x
    ensures forall k {:trigger r[k]} :: 0 <= k < |r| && k != q ==> r[k] == if k < q then s[k] else s[k - 1]
  {
    seq(|s| + 1, k requires 0 <= k <= |s| => if k < q then s[k] else if k == q then x else s[k - 1])
  }

  lemma WithoutMembers<T>(s: seq<T>, p: nat)
    requires p < |s|
    ensures multiset(s) == multiset(Without(s, p)) + multiset{s[p]}
  {
    assert s == s[..p] + [s[p]] + s[p + 1..];
    assert Without(s, p) == s[..p] + s[p + 1..];
  }

  lemma WithMembers<T>(s: seq<T>, q: nat, x: T)
    requires q <= |s|
    ensures multiset(With(s, q, x)) == multiset(s) + multiset{x}
  {
    assert s == s[..q] + s[q..];
    assert With(s, q, x) == s[..q] + [x] + s[q..];
  }

  /** The other nodes, in their order. */
  ghost function Removed(chain: seq<nat>, i: nat): seq<nat> {
    if |chain| == 0 then []
    else if chain[0] == i then Removed(chain[1..], i) else [chain[0]] + Removed(chain[1..], i)
  }

  lemma {:induction false} RemovedAbsent(chain: seq<nat>, i: nat)
    requires i !in chain
    ensures Removed(chain, i) == chain
  {
    if |chain| > 0 {
      RemovedAbsent(chain[1..], i);
    }
  }

  lemma {:induction false} RemovedAt(chain: seq<nat>, n: nat, p: nat)
    requires Distinct(chain, n) && p < |chain|
    ensures Removed(chain, chain[p]) == Without(chain, p)
  {
    if p == 0 {
      assert chain[0] !in chain[1..];
      RemovedAbsent(chain[1..], chain[0]);
      assert Without(chain, 0) == chain[1..];
    } else {
      assert chain[0] != chain[p];
      RemovedAt(chain[1..], n, p - 1);
      assert Without(chain, p) == [chain[0]] + Without(chain[1..], p - 1);
    }
  }

  /** Every node behind i has a smaller key. */
  ghost predicate LastOfItsKey(chain: seq<nat>, key: seq<int>, i: nat) {
    i in chain && forall p, q :: 0 <= p < q < |chain| && chain[p] == i ==>
      i < |key| && chain[q] < |key| && key[chain[q]] < key[i]
  }

  /** Node i got a new key and a new place, behind the nodes of its new key; the others stay in line. */
  ghost predicate Requeued(chain: seq<nat>, chain': seq<nat>, key': seq<int>, i: nat) {
    Removed(chain', i) == Removed(chain, i) && LastOfItsKey(chain', key', i)
  }

  /** That leaves one place. */
  lemma RequeuedUnique(chain: seq<nat>, a: seq<nat>, b: seq<nat>, key: seq<int>, i: nat)
    requires Distinct(a, |key|) && Distinct(b, |key|) && Descending(Keys(a, key)) && Descending(Keys(b, key))
    requires Requeued(chain, a, key, i) && Requeued(chain, b, key, i)
    ensures a == b
  {
    var p :| 0 <= p < |a| && a[p] == i;
    var q :| 0 <= q < |b| && b[q] == i;
    RemovedAt(a, |key|, p);
    RemovedAt(b, |key|, q);
    if p < q {
      Ahead(b, key, p, q);
      Behind(a, b, key, i, p, q);
    } else if q < p {
      Ahead(a, key, q, p);
      Behind(b, a, key, i, q, p);
    } else {
      SameElsewhere(a, b, p);
    }
  }

  lemma SameElsewhere(a: seq<nat>, b: seq<nat>, p: nat)
    requires p < |a| && p < |b| && a[p] == b[p] && Without(a, p) == Without(b, p)
    ensures a == b
  {
    assert |a| == |b|;
    forall k | 0 <= k < |a| ensures a[k] == b[k] {
      if k < p {
        assert Without(a, p)[k] == a[k] && Without(b, p)[k] == b[k];
      } else if k > p {
        assert Without(a, p)[k - 1] == a[k] && Without(b, p)[k - 1] == b[k];
      }
    }
  }

  /** A node that stands behind i in one chain and before it in another has a smaller key. */
  lemma Behind(a: seq<nat>, b: seq<nat>, key: seq<int>, i: nat, p: nat, q: nat)
    requires p < |a| && p < q < |b| && a[p] == b[q] == i && Without(a, p) == Without(b, q) && LastOfItsKey(a, key, i)
    ensures i < |key| && b[p] < |key| && key[b[p]] < key[i]
  {
    assert Without(a, p)[p] == a[p + 1] && Without(b, q)[p] == b[p];
  }

  lemma Ahead(b: seq<nat>, key: seq<int>, p: nat, q: nat)
    requires Distinct(b, |key|) && Descending(Keys(b, key)) && p < q < |b|
    ensures key[b[p]] >= key[b[q]]
  {
    assert Keys(b, key)[p] >= Keys(b, key)[q];
  }

  ghost predicate Distinct(chain: seq<nat>, n: nat) {
    && (forall p :: 0 <= p < |chain| ==> chain[p] < n)
    && (forall p, q :: 0 <= p < q < |chain| ==> chain[p] != chain[q])
  }

  /** The stored links are those of the chain. */
  ghost predicate Linked(chain: seq<nat>, prev: seq<int>, next: seq<int>) {
    && |prev| == |next| && Distinct(chain, |prev|)
    && (forall p {:trigger prev[chain[p]]} :: 0 <= p < |chain| ==> prev[chain[p]] == At(chain, p - 1))
    && (forall p {:trigger next[chain[p]]} :: 0 <= p < |chain| ==> next[chain[p]] == At(chain, p + 1))
  }

  /** s with s[i] replaced when i is a node. */
  function Put(s: seq<int>, i: int, v: int): (r: seq<int>)
    requires i < |s|
    ensures |r| == |s| && forall k :: 0 <= k < |s| ==> r[k] == if k == i then v else s[k]
  {
    if i >= 0 then s[i := v] else s
  }

  lemma Unlinked(chain: seq<nat>, prev: seq<int>, next: seq<int>, p: nat)
    requires Linked(chain, prev, next) && p < |chain|
    ensures Linked(Without(chain, p), Put(prev, At(chain, p + 1), At(chain, p - 1)),
                   Put(next, At(chain, p - 1), At(chain, p + 1)))
  {
    var prev', next' := Put(prev, At(chain, p + 1), At(chain, p - 1)), Put(next, At(chain, p - 1), At(chain, p + 1));
    var c := Without(chain, p);
    WithoutDistinct(chain, |prev|, p);
    forall q | 0 <= q < |c| ensures prev'[c[q]] == At(c, q - 1) {
      UnlinkedPrev(chain, prev, p, q);
    }
    forall q | 0 <= q < |c| ensures next'[c[q]] == At(c, q + 1) {
      UnlinkedNext(chain, next, p, q);
    }
  }

  lemma WithoutDistinct(chain: seq<nat>, n: nat, p: nat)
    requires Distinct(chain, n) && p < |chain|
    ensures Distinct(Without(chain, p), n)
  {
  }

  lemma AtWithout(chain: seq<nat>, p: nat, k: int)
    requires p < |chain|
    ensures At(Without(chain, p), k) == if k < p then At(chain, k) else At(chain, k + 1)
  {
  }

  lemma UnlinkedPrev(chain: seq<nat>, prev: seq<int>, p: nat, q: nat)
    requires Distinct(chain, |prev|) && p < |chain| && q < |chain| - 1
    requires forall k {:trigger prev[chain[k]]} :: 0 <= k < |chain| ==> prev[chain[k]] == At(chain, k - 1)
    ensures Put(prev, At(chain, p + 1), At(chain, p - 1))[Without(chain, p)[q]] == At(Without(chain, p), q - 1)
  {
    AtWithout(chain, p, q - 1);
    var o := if q < p then q else q + 1;
    assert Without(chain, p)[q] == chain[o] && prev[chain[o]] == At(chain, o - 1);
    if o != p + 1 {
      assert chain[o] != At(chain, p + 1);
    }
  }

  lemma UnlinkedNext(chain: seq<nat>, next: seq<int>, p: nat, q: nat)
    requires Distinct(chain, |next|) && p < |chain| && q < |chain| - 1
    requires forall k {:trigger next[chain[k]]} :: 0 <= k < |chain| ==> next[chain[k]] == At(chain, k + 1)
    ensures Put(next, At(chain, p - 1), At(chain, p + 1))[Without(chain, p)[q]] == At(Without(chain, p), q + 1)
  {
    AtWithout(chain, p, q + 1);
    var o := if q < p then q else q + 1;
    assert Without(chain, p)[q] == chain[o] && next[chain[o]] == At(chain, o + 1);
    if o != p - 1 {
      assert chain[o] != At(chain, p - 1);
    }
  }

  /** Links of nodes outside the chain do not matter. */
  lemma LinkedElsewhere(chain: seq<nat>, prev: seq<int>, next: seq<int>, i: nat, a: int, b: int)
    requires Linked(chain, prev, next) && i < |prev| && i !in chain
    ensures Linked(chain, prev[i := a], next[i := b])
  {
  }

  lemma Relinked(chain: seq<nat>, prev: seq<int>, next: seq<int>, q: nat, i: nat)
    requires Linked(chain, prev, next) && q <= |chain| && i < |prev| && i !in chain
    ensures Linked(With(chain, q, i), Put(prev[i := At(chain, q - 1)], At(chain, q), i),
                   Put(next[i := At(chain, q)], At(chain, q - 1), i))
  {
    var c := With(chain, q, i);
    var prev' := Put(prev[i := At(chain, q - 1)], At(chain, q), i);
    var next' := Put(next[i := At(chain, q)], At(chain, q - 1), i);
    WithDistinct(chain, |prev|, q, i);
    forall k | 0 <= k < |c| ensures prev'[c[k]] == At(c, k - 1) {
      RelinkedPrev(chain, prev, q, i, k);
    }
    forall k | 0 <= k < |c| ensures next'[c[k]] == At(c, k + 1) {
      RelinkedNext(chain, next, q, i, k);
    }
  }

  lemma WithDistinct(chain: seq<nat>, n: nat, q: nat, i: nat)
    requires Distinct(chain, n) && q <= |chain| && i < n && i !in chain
    ensures Distinct(With(chain, q, i), n)
  {
  }

  lemma AtWith(chain: seq<nat>, q: nat, i: nat, k: int)
    requires q <= |chain|
    ensures At(With(chain, q, i), k) == if k < q then At(chain, k) else if k == q then i else At(chain, k - 1)
  {
  }

  lemma RelinkedPrev(chain: seq<nat>, prev: seq<int>, q: nat, i: nat, k: nat)
    requires Distinct(chain, |prev|) && q <= |chain| && i < |prev| && i !in chain && k <= |chain|
    requires forall h {:trigger prev[chain[h]]} :: 0 <= h < |chain| ==> prev[chain[h]] == At(chain, h - 1)
    ensures Put(prev[i := At(chain, q - 1)], At(chain, q), i)[With(chain, q, i)[k]] == At(With(chain, q, i), k - 1)
  {
    AtWith(chain, q, i, k - 1);
    if k != q {
      var o := if k < q then k else k - 1;
      assert With(chain, q, i)[k] == chain[o] && chain[o] in chain && prev[chain[o]] == At(chain, o - 1);
      if o != q {
        assert chain[o] != At(chain, q);
      }
    }
  }

  lemma RelinkedNext(chain: seq<nat>, next: seq<int>, q: nat, i: nat, k: nat)
    requires Distinct(chain, |next|) && q <= |chain| && i < |next| && i !in chain && k <= |chain|
    requires forall h {:trigger next[chain[h]]} :: 0 <= h < |chain| ==> next[chain[h]] == At(chain, h + 1)
    ensures Put(next[i := At(chain, q)], At(chain, q - 1), i)[With(chain, q, i)[k]] == At(With(chain, q, i), k + 1)
  {
    AtWith(chain, q, i, k + 1);
    if k != q {
      var o := if k < q then k else k - 1;
      assert With(chain, q, i)[k] == chain[o] && chain[o] in chain && next[chain[o]] == At(chain, o + 1);
      if o != q - 1 {
        assert chain[o] != At(chain, q - 1);
      }
    }
  }

  // ---------------------------------------------------------------------------
  // Keys along the chain
  // ---------------------------------------------------------------------------

  ghost function Keys(chain: seq<nat>, key: seq<int>): (ks: seq<int>)
    requires forall p :: 0 <= p < |chain| ==> chain[p] < |key|
    ensures |ks| == |chain| && forall p :: 0 <= p < |chain| ==> ks[p] == key[chain[p]]
  {
    seq(|chain|, p requires 0 <= p < |chain| => key[chain[p]])
  }

  ghost predicate Descending(ks: seq<int>) {
    forall p, q :: 0 <= p <= q < |ks| ==> ks[p] >= ks[q]
  }

  ghost predicate IsCut(ks: seq<int>, k: int, c: nat) {
    c <= |ks| && (forall p :: 0 <= p < c ==> ks[p] >= k) && (forall p :: c <= p < |ks| ==> ks[p] < k)
  }

  lemma {:induction false} CutExists(ks: seq<int>, k: int, n: nat)
    requires Descending(ks) && n <= |ks| && forall p :: n <= p < |ks| ==> ks[p] < k
    ensures exists c: nat :: IsCut(ks, k, c)
  {
    if n == 0 || ks[n - 1] >= k {
      assert IsCut(ks, k, n);
    } else {
      CutExists(ks, k, n - 1);
    }
  }

  /** How many keys are at least k: the end of bucket k. Bucket k is Cut(k + 1) .. Cut(k). */
  ghost function Cut(ks: seq<int>, k: int): (c: nat)
    requires Descending(ks)
    ensures IsCut(ks, k, c)
  {
    CutExists(ks, k, |ks|);
    var c: nat :| IsCut(ks, k, c);
    c
  }

  lemma CutIs(ks: seq<int>, k: int, c: nat)
    requires Descending(ks) && c <= |ks|
    requires (c > 0 ==> ks[c - 1] >= k) && (c < |ks| ==> ks[c] < k)
    ensures Cut(ks, k) == c
  {
  }

  lemma CutWithout(ks: seq<int>, p: nat, k: int)
    requires Descending(ks) && p < |ks|
    ensures Descending(Without(ks, p))
    ensures Cut(Without(ks, p), k) == Cut(ks, k) - (if ks[p] >= k then 1 else 0)
  {
    var c := Cut(ks, k) - (if ks[p] >= k then 1 else 0);
    CutIs(Without(ks, p), k, c);
  }

  lemma CutWith(ks: seq<int>, x: int, k: int)
    requires Descending(ks)
    ensures Descending(With(ks, Cut(ks, x), x))
    ensures Cut(With(ks, Cut(ks, x), x), k) == Cut(ks, k) + (if x >= k then 1 else 0)
  {
    var p, r := Cut(ks, x), With(ks, Cut(ks, x), x);
    forall i, j | 0 <= i <= j < |r| ensures r[i] >= r[j] {
      assert r[i] == if i < p then ks[i] else if i == p then x else ks[i - 1];
      assert r[j] == if j < p then ks[j] else if j == p then x else ks[j - 1];
    }
    CutIs(r, k, Cut(ks, k) + (if x >= k then 1 else 0));
  }

  // ---------------------------------------------------------------------------
  // Headers
  // ---------------------------------------------------------------------------

  /** Bucket k's header. */
  ghost predicate Header(chain: seq<nat>, ks: seq<int>, k: int, first: int, second: int)
    requires |ks| == |chain| && Descending(ks)
  {
    var lo, hi := Cut(ks, k + 1), Cut(ks, k);
    if lo < hi then first == chain[lo] && second == chain[hi - 1] else first == -1 && second == -1
  }

  ghost predicate Headed(chain: seq<nat>, ks: seq<int>, first: seq<int>, second: seq<int>) {
    && |ks| == |chain| && Descending(ks) && |first| == |second|
    && (forall p :: 0 <= p < |ks| ==> 0 <= ks[p] < |first|)
    && (forall k {:trigger Header(chain, ks, k, first[k], second[k])} :: 0 <= k < |first| ==>
        Header(chain, ks, k, first[k], second[k]))
  }

  lemma HeaderWithoutOther(chain: seq<nat>, ks: seq<int>, p: nat, k: int, first: int, second: int)
    requires |ks| == |chain| && Descending(ks) && p < |ks| && k != ks[p] && Header(chain, ks, k, first, second)
    ensures Descending(Without(ks, p)) && Header(Without(chain, p), Without(ks, p), k, first, second)
  {
    CutWithout(ks, p, k);
    CutWithout(ks, p, k + 1);
  }

  /** What the code leaves in the header of the bucket a node left. */
  function AfterRemoval(first: int, second: int, i: int, before: int, after: int): (r: (int, int)) {
    if first == second then (-1, -1)
    else if first == i then (after, second)
    else if second == i then (first, before)
    else (first, second)
  }

  lemma HeaderWithout(chain: seq<nat>, ks: seq<int>, n: nat, p: nat, first: int, second: int)
    requires Distinct(chain, n) && |ks| == |chain| && Descending(ks) && p < |ks|
    requires Header(chain, ks, ks[p], first, second)
    ensures Descending(Without(ks, p))
    ensures
      var r := AfterRemoval(first, second, chain[p], At(chain, p - 1), At(chain, p + 1));
      Header(Without(chain, p), Without(ks, p), ks[p], r.0, r.1)
  {
    CutWithout(ks, p, ks[p]);
    CutWithout(ks, p, ks[p] + 1);
  }

  lemma HeadedWithout(chain: seq<nat>, ks: seq<int>, n: nat, first: seq<int>, second: seq<int>, p: nat)
    requires Distinct(chain, n) && Headed(chain, ks, first, second) && p < |chain|
    ensures
      var r := AfterRemoval(first[ks[p]], second[ks[p]], chain[p], At(chain, p - 1), At(chain, p + 1));
      Headed(Without(chain, p), Without(ks, p), first[ks[p] := r.0], second[ks[p] := r.1])
  {
    var r := AfterRemoval(first[ks[p]], second[ks[p]], chain[p], At(chain, p - 1), At(chain, p + 1));
    var first', second' := first[ks[p] := r.0], second[ks[p] := r.1];
    CutWithout(ks, p, 0);
    forall k | 0 <= k < |first| ensures Header(Without(chain, p), Without(ks, p), k, first'[k], second'[k]) {
      if k == ks[p] {
        HeaderWithout(chain, ks, n, p, first[k], second[k]);
      } else {
        HeaderWithoutOther(chain, ks, p, k, first[k], second[k]);
      }
    }
  }

  lemma HeaderWith(chain: seq<nat>, ks: seq<int>, i: nat, x: int, k: int, first: int, second: int)
    requires |ks| == |chain| && Descending(ks) && Header(chain, ks, k, first, second)
    ensures Descending(With(ks, Cut(ks, x), x))
    ensures Header(With(chain, Cut(ks, x), i), With(ks, Cut(ks, x), x), k,
                   if k == x && first < 0 then i else first, if k == x then i else second)
  {
    CutWith(ks, x, k);
    CutWith(ks, x, k + 1);
  }

  /** A node joins the end of bucket x. */
  lemma HeadedWith(chain: seq<nat>, ks: seq<int>, first: seq<int>, second: seq<int>, i: nat, x: int)
    requires Headed(chain, ks, first, second) && 0 <= x < |first|
    ensures Headed(With(chain, Cut(ks, x), i), With(ks, Cut(ks, x), x),
                   if first[x] < 0 then first[x := i] else first, second[x := i])
  {
    CutWith(ks, x, 0);
    var c, ks' := With(chain, Cut(ks, x), i), With(ks, Cut(ks, x), x);
    var first', second' := if first[x] < 0 then first[x := i] else first, second[x := i];
    assert forall p :: 0 <= p < |ks'| ==> ks'[p] == x || ks'[p] == ks[if p < Cut(ks, x) then p else p - 1];
    forall k | 0 <= k < |first| ensures Header(c, ks', k, first'[k], second'[k]) {
      HeaderWith(chain, ks, i, x, k, first[k], second[k]);
    }
  }

  function Blank(n: nat): (r: seq<int>)
    ensures |r| == n && forall k :: 0 <= k < n ==> r[k] == -1
  {
    if n == 0 then [] else Blank(n - 1) + [-1]
  }

  /** New empty buckets above the highest key. */
  lemma HeadedGrow(chain: seq<nat>, ks: seq<int>, first: seq<int>, second: seq<int>, more: nat)
    requires Headed(chain, ks, first, second)
    ensures Headed(chain, ks, first + Blank(more), second + Blank(more))
  {
    var first', second' := first + Blank(more), second + Blank(more);
    forall k | 0 <= k < |first'| ensures Header(chain, ks, k, first'[k], second'[k]) {
      if k >= |first| {
        CutIs(ks, k, 0);
        CutIs(ks, k + 1, 0);
      }
    }
  }

  // ---------------------------------------------------------------------------
  // The whole structure
  // ---------------------------------------------------------------------------

  ghost predicate Shape(chain: seq<nat>, prev: seq<int>, next: seq<int>, key: seq<int>, first: seq<int>,
                        second: seq<int>, top: int) {
    && Linked(chain, prev, next) && |key| == |prev|
    && Headed(chain, Keys(chain, key), first, second)
    && top == At(chain, 0)
  }

  lemma KeysWithout(chain: seq<nat>, key: seq<int>, n: nat, p: nat, x: int)
    requires Distinct(chain, n) && |key| == n && p < |chain|
    ensures Keys(Without(chain, p), key) == Without(Keys(chain, key), p)
    ensures Keys(Without(chain, p), key[chain[p] := x]) == Without(Keys(chain, key), p)
    ensures chain[p] !in Without(chain, p)
  {
  }

  lemma KeysWith(chain: seq<nat>, key: seq<int>, n: nat, q: nat, i: nat)
    requires Distinct(chain, n) && |key| == n && q <= |chain| && i < n
    ensures Keys(With(chain, q, i), key) == With(Keys(chain, key), q, key[i])
  {
  }

  lemma Deleted(chain: seq<nat>, prev: seq<int>, next: seq<int>, key: seq<int>, first: seq<int>, second: seq<int>,
                top: int, p: nat)
    requires Shape(chain, prev, next, key, first, second, top) && p < |chain|
    ensures
      var i, a, b, k := chain[p], At(chain, p - 1), At(chain, p + 1), key[chain[p]];
      var r := AfterRemoval(first[k], second[k], i, a, b);
      Shape(Without(chain, p), Put(prev, b, a)[i := -1], Put(next, a, b)[i := -1], key, first[k := r.0],
            second[k := r.1], if top == i then b else top)
  {
    var i, a, b := chain[p], At(chain, p - 1), At(chain, p + 1);
    Unlinked(chain, prev, next, p);
    KeysWithout(chain, key, |prev|, p, 0);
    LinkedElsewhere(Without(chain, p), Put(prev, b, a), Put(next, a, b), i, -1, -1);
    HeadedWithout(chain, Keys(chain, key), |prev|, first, second, p);
    AtWithout(chain, p, 0);
  }

  lemma MovedLinks(chain: seq<nat>, prev: seq<int>, next: seq<int>, p: nat, q: nat)
    requires Linked(chain, prev, next) && p < |chain| && q <= |chain| - 1
    ensures
      var i, c := chain[p], Without(chain, p);
      var prev1, next1 := Put(prev, At(chain, p + 1), At(chain, p - 1)), Put(next, At(chain, p - 1), At(chain, p + 1));
      Linked(With(c, q, i), Put(prev1[i := At(c, q - 1)], At(c, q), i), Put(next1[i := At(c, q)], At(c, q - 1), i))
  {
    var c := Without(chain, p);
    Unlinked(chain, prev, next, p);
    KeysWithout(chain, prev, |prev|, p, 0);
    Relinked(c, Put(prev, At(chain, p + 1), At(chain, p - 1)), Put(next, At(chain, p - 1), At(chain, p + 1)), q,
             chain[p]);
  }

  /** Taking a node out of its place and putting it at the end of bucket x. `first` and
      `second` are the headers in between. */
  lemma MovedHeads(chain: seq<nat>, n: nat, key: seq<int>, first: seq<int>, second: seq<int>, p: nat, x: int,
                   moved: seq<nat>)
    requires Distinct(chain, n) && |key| == n && p < |chain|
    requires Headed(Without(chain, p), Without(Keys(chain, key), p), first, second) && 0 <= x < |first|
    requires moved == With(Without(chain, p), Cut(Without(Keys(chain, key), p), x), chain[p])
    ensures Distinct(moved, n)
    ensures
      var i := chain[p];
      Headed(moved, Keys(moved, key[i := x]), if first[x] < 0 then first[x := i] else first, second[x := i])
  {
    var i, c := chain[p], Without(chain, p);
    var ks1 := Without(Keys(chain, key), p);
    KeysWithout(chain, key, n, p, x);
    WithDistinct(c, n, Cut(ks1, x), i);
    KeysWith(c, key[i := x], n, Cut(ks1, x), i);
    HeadedWith(c, ks1, first, second, i, x);
  }

  /** Where the bucket of position p starts, and that its header says so. */
  lemma BucketStart(chain: seq<nat>, ks: seq<int>, first: seq<int>, second: seq<int>, p: nat)
    requires Headed(chain, ks, first, second) && p < |chain|
    ensures
      var h := Cut(ks, ks[p] + 1);
      h <= p && first[ks[p]] == chain[h] && Descending(Without(ks, p)) && Cut(Without(ks, p), ks[p] + 1) == h
  {
    CutWithout(ks, p, ks[p] + 1);
    assert Header(chain, ks, ks[p], first[ks[p]], second[ks[p]]);
  }

  lemma WithoutWith<T>(s: seq<T>, p: nat)
    requires p < |s|
    ensures With(Without(s, p), p, s[p]) == s
  {
  }

  // ---------------------------------------------------------------------------
  // The steps of the code
  // ---------------------------------------------------------------------------

  /** Joins a node's two neighbours to each other. */
  method Bypass(prev: seq<int>, next: seq<int>, pv: int, nx: int) returns (prev': seq<int>, next': seq<int>)
    requires |prev| == |next| && pv < |prev| && nx < |prev|
    ensures prev' == Put(prev, nx, pv) && next' == Put(next, pv, nx)
  {
    prev', next' := prev, next;
    if pv >= 0 {
      next' := next'[pv := nx];
    }
    if nx >= 0 {
      prev' := prev'[nx := pv];
    }
  }

  /** The header update when a node leaves its bucket. */
  method LeaveBucket(first: seq<int>, second: seq<int>, i: nat, k: nat, before: int, after: int)
    returns (first': seq<int>, second': seq<int>)
    requires k < |first| == |second|
    ensures
      var r := AfterRemoval(first[k], second[k], i, before, after);
      first' == first[k := r.0] && second' == second[k := r.1]
  {
    first', second' := first, second;
    if first[k] == second[k] {
      first', second' := first[k := -1], second[k := -1];
    } else if first[k] == i {
      first' := first[k := after];
    } else if second[k] == i {
      second' := second[k := before];
    }
  }

  /** The header update when a node joins the end of a bucket. */
  method JoinBucket(first: seq<int>, second: seq<int>, i: nat, k: nat) returns (first': seq<int>, second': seq<int>)
    requires k < |first| == |second|
    ensures first' == (if first[k] < 0 then first[k := i] else first) && second' == second[k := i]
  {
    first', second' := first, second[k := i];
    if first[k] < 0 {
      first' := first[k := i];
    }
  }

  function Reserved(s: seq<int>, k: nat): (r: seq<int>)
    ensures k < |r| && s <= r
  {
    s + Blank(if k >= |s| then k + 5 - |s| else 0)
  }

  function Relink(prev: seq<int>, next: seq<int>, i: nat, head: nat, pv: int, nx: int): (r: (seq<int>, seq<int>))
    requires |prev| == |next| && i < |prev| && head < |prev| && pv < |prev| && nx < |prev|
    requires Put(prev, nx, pv)[head] < |prev|
  {
    if head == i then (prev, next)
    else
      var prev1, next1 := Put(prev, nx, pv), Put(next, pv, nx);
      (prev1[i := prev1[head]][head := i], Put(next1[i := head], prev1[head], i))
  }

  /** Moves a node from between `pv` and `nx` to just before `head`, unless it is the head. */
  method RelinkBefore(prev: seq<int>, next: seq<int>, i: nat, head: nat, pv: int, nx: int)
    returns (prev': seq<int>, next': seq<int>)
    requires |prev| == |next| && i < |prev| && head < |prev| && pv < |prev| && nx < |prev|
    requires Put(prev, nx, pv)[head] < |prev|
    ensures (prev', next') == Relink(prev, next, i, head, pv, nx)
  {
    prev', next' := prev, next;
    if head != i {
      prev', next' := Bypass(prev, next, pv, nx);
      var headprev := prev'[head];
      prev' := prev'[i := headprev];
      next' := next'[i := head];
      prev' := prev'[head := i];
      if headprev >= 0 {
        next' := next'[headprev := i];
      }
    }
  }

  /** Everything IncrementKey needs to know about the node it moves from position p. */
  lemma Incrementation(chain: seq<nat>, prev: seq<int>, next: seq<int>, key: seq<int>, first: seq<int>,
                       second: seq<int>, p: nat, h: nat, i: nat, k: nat, pv: int, nx: int)
    requires Linked(chain, prev, next) && |key| == |prev| && Headed(chain, Keys(chain, key), first, second)
    requires h <= p < |chain| && i == chain[p] && k == key[i] < |first| && h == Cut(Keys(chain, key), k + 1)
    requires pv == At(chain, p - 1) && nx == At(chain, p + 1)
    ensures Put(prev, nx, pv)[chain[h]] < |prev|
    ensures
      var links := Relink(prev, next, i, chain[h], pv, nx);
      var r := AfterRemoval(first[k], second[k], i, pv, nx);
      var first1, second1 := Reserved(first[k := r.0], k + 1), Reserved(second[k := r.1], k + 1);
      Shape(With(Without(chain, p), h, i), links.0, links.1, key[i := k + 1],
            if first1[k + 1] < 0 then first1[k + 1 := i] else first1, second1[k + 1 := i],
            if key[i := k + 1][chain[0]] < k + 1 then i else chain[0])
  {
    var r := AfterRemoval(first[k], second[k], i, pv, nx);
    IncrementLinks(chain, prev, next, p, h);
    IncrementHeads(chain, key, first, second, p, h, i, k, Reserved(first[k := r.0], k + 1),
                   Reserved(second[k := r.1], k + 1));
    TopAfterIncrement(chain, key, p, h);
  }

  /** A node's place in the list, and the start of its bucket. */
  lemma Position(chain: seq<nat>, prev: seq<int>, next: seq<int>, key: seq<int>, first: seq<int>, second: seq<int>,
                 top: int, i: nat)
    returns (p: nat, h: nat)
    requires Shape(chain, prev, next, key, first, second, top) && i in chain
    ensures p < |chain| && chain[p] == i && i < |prev| == |next| == |key| && 0 <= key[i] < |first|
    ensures prev[i] == At(chain, p - 1) && next[i] == At(chain, p + 1)
    ensures h == Cut(Keys(chain, key), key[i] + 1) && h <= p && first[key[i]] == chain[h]
    ensures top == chain[0] < |key|
  {
    p :| 0 <= p < |chain| && chain[p] == i;
    assert prev[chain[p]] == At(chain, p - 1) && next[chain[p]] == At(chain, p + 1);
    var ks := Keys(chain, key);
    assert ks[p] == key[i];
    h := Cut(ks, key[i] + 1);
    BucketStart(chain, ks, first, second, p);
  }

  /** Moving position p to position h < p is RelinkBefore on the stored links. */
  lemma IncrementLinks(chain: seq<nat>, prev: seq<int>, next: seq<int>, p: nat, h: nat)
    requires Linked(chain, prev, next) && h <= p < |chain|
    ensures
      var i, head, pv, nx := chain[p], chain[h], At(chain, p - 1), At(chain, p + 1);
      Put(prev, nx, pv)[head] < |prev| &&
      var links := Relink(prev, next, i, head, pv, nx);
      Linked(With(Without(chain, p), h, i), links.0, links.1)
  {
    var c := Without(chain, p);
    var prev1 := Put(prev, At(chain, p + 1), At(chain, p - 1));
    assert prev[chain[h]] == At(chain, h - 1);
    if h < p {
      Unlinked(chain, prev, next, p);
      assert c[h] == chain[h] && prev1[c[h]] == At(c, h - 1);
      MovedLinks(chain, prev, next, p, h);
    } else {
      WithoutWith(chain, p);
    }
  }

  lemma IncrementHeads(chain: seq<nat>, key: seq<int>, first: seq<int>, second: seq<int>, p: nat, h: nat, i: nat,
                       k: nat, first1: seq<int>, second1: seq<int>)
    requires Distinct(chain, |key|) && Headed(chain, Keys(chain, key), first, second) && p < |chain|
    requires i == chain[p] && k == key[i] < |first| && h == Cut(Keys(chain, key), k + 1) <= p
    requires
      var r := AfterRemoval(first[k], second[k], i, At(chain, p - 1), At(chain, p + 1));
      first1 == Reserved(first[k := r.0], k + 1) && second1 == Reserved(second[k := r.1], k + 1)
    ensures
      var moved := With(Without(chain, p), h, i);
      Distinct(moved, |key|) &&
      Headed(moved, Keys(moved, key[i := k + 1]),
             if first1[k + 1] < 0 then first1[k + 1 := i] else first1, second1[k + 1 := i])
  {
    var ks := Keys(chain, key);
    assert ks[p] == k;
    BucketStart(chain, ks, first, second, p);
    RemovedHeads(chain, ks, |key|, first, second, p, k, first1, second1);
    MovedHeads(chain, |key|, key, first1, second1, p, k + 1, With(Without(chain, p), h, i));
  }

  /** The headers once a node is out of its bucket and there is room for the next one. */
  lemma RemovedHeads(chain: seq<nat>, ks: seq<int>, n: nat, first: seq<int>, second: seq<int>, p: nat, k: nat,
                     first1: seq<int>, second1: seq<int>)
    requires Distinct(chain, n) && Headed(chain, ks, first, second) && p < |chain| && k == ks[p]
    requires
      var r := AfterRemoval(first[k], second[k], chain[p], At(chain, p - 1), At(chain, p + 1));
      first1 == Reserved(first[k := r.0], k + 1) && second1 == Reserved(second[k := r.1], k + 1)
    ensures Headed(Without(chain, p), Without(ks, p), first1, second1)
  {
    HeadedWithout(chain, ks, n, first, second, p);
    var r := AfterRemoval(first[k], second[k], chain[p], At(chain, p - 1), At(chain, p + 1));
    var room := if k + 1 >= |first| then k + 6 - |first| else 0;
    HeadedGrow(Without(chain, p), Without(ks, p), first[k := r.0], second[k := r.1], room);
  }

  lemma MovedMembers(chain: seq<nat>, p: nat, q: nat)
    requires p < |chain| && q < |chain|
    ensures multiset(With(Without(chain, p), q, chain[p])) == multiset(chain)
  {
    WithoutMembers(chain, p);
    WithMembers(Without(chain, p), q, chain[p]);
  }

  lemma MovedOthers(chain: seq<nat>, n: nat, p: nat, q: nat)
    requires Distinct(chain, n) && p < |chain| && q < |chain|
    ensures
      var moved := With(Without(chain, p), q, chain[p]);
      Distinct(moved, n) && Removed(moved, chain[p]) == Removed(chain, chain[p]) && moved[q] == chain[p]
  {
    var i, rest := chain[p], Without(chain, p);
    RemovedAt(chain, n, p);
    WithoutDistinct(chain, n, p);
    WithDistinct(rest, n, q, i);
    WithThenWithout(rest, q, i);
    RemovedAt(With(rest, q, i), n, q);
  }

  lemma WithThenWithout(rest: seq<nat>, q: nat, i: nat)
    requires q <= |rest|
    ensures With(rest, q, i)[q] == i && Without(With(rest, q, i), q) == rest
  {
  }

  /** What is put at the end of the keys from x up is the last of its new key. */
  lemma MovedBehind(chain: seq<nat>, key: seq<int>, p: nat, q: nat, x: int)
    requires Distinct(chain, |key|) && p < |chain| && q < |chain| && Descending(Keys(chain, key))
    requires q == Cut(Keys(chain, key), x) - (if key[chain[p]] >= x then 1 else 0)
    ensures Requeued(chain, With(Without(chain, p), q, chain[p]), key[chain[p] := x], chain[p])
  {
    var i, rest, ks := chain[p], Without(chain, p), Keys(chain, key);
    var moved, key' := With(rest, q, i), key[i := x];
    MovedOthers(chain, |key|, p, q);
    CutWithout(ks, p, x);
    KeysWithout(chain, key, |key|, p, x);
    forall a, b | 0 <= a < b < |moved| && moved[a] == i ensures moved[b] < |key'| && key'[moved[b]] < x {
      assert a == q;
      assert moved[b] == rest[b - 1] && Keys(rest, key')[b - 1] == Without(ks, p)[b - 1];
    }
  }

  lemma TopAfterIncrement(chain: seq<nat>, key: seq<int>, p: nat, h: nat)
    requires Distinct(chain, |key|) && p < |chain| && Descending(Keys(chain, key))
    requires h == Cut(Keys(chain, key), key[chain[p]] + 1) && h <= p
    ensures
      var i, k := chain[p], key[chain[p]];
      At(With(Without(chain, p), h, i), 0) == if key[i := k + 1][chain[0]] < k + 1 then i else chain[0]
  {
    var ks := Keys(chain, key);
    assert ks[0] == key[chain[0]] && ks[p] == key[chain[p]];
    if h == 0 {
      assert ks[0] == ks[p];
    }
  }

  /** Everything DeleteElement needs to know about the node it deletes. */
  lemma Deletion(chain: seq<nat>, prev: seq<int>, next: seq<int>, key: seq<int>, first: seq<int>, second: seq<int>,
                 top: int, i: nat)
    returns (p: nat)
    requires Shape(chain, prev, next, key, first, second, top) && i in chain
    ensures i < |prev| == |next| == |key| && 0 <= key[i] < |first| == |second| && prev[i] < |prev| && next[i] < |prev|
    ensures prev[i] != i
    ensures p < |chain| && chain[p] == i
    ensures multiset(chain) == multiset(Without(chain, p)) + multiset{i} && i !in Without(chain, p)
    ensures
      var r := AfterRemoval(first[key[i]], second[key[i]], i, prev[i], next[i]);
      Shape(Without(chain, p), Put(prev, next[i], prev[i])[i := -1], Put(next, prev[i], next[i])[i := -1], key,
            first[key[i] := r.0], second[key[i] := r.1], if top == i then next[i] else top)
  {
    p :| 0 <= p < |chain| && chain[p] == i;
    assert prev[chain[p]] == At(chain, p - 1) && next[chain[p]] == At(chain, p + 1);
    Deleted(chain, prev, next, key, first, second, top, p);
    KeysWithout(chain, key, |prev|, p, 0);
    WithoutMembers(chain, p);
    assert Keys(chain, key)[p] == key[i];
  }

  /** DeleteElement on the parts of the heap. */
  method Delete(ghost chain: seq<nat>, prev: seq<int>, next: seq<int>, key: seq<int>, first: seq<int>, second: seq<int>,
                top: int, i: nat)
    returns (ghost chain': seq<nat>, prev': seq<int>, next': seq<int>, first': seq<int>, second': seq<int>, top': int)
    requires Shape(chain, prev, next, key, first, second, top) && i in chain
    ensures Shape(chain', prev', next', key, first', second', top')
    ensures multiset(chain) == multiset(chain') + multiset{i} && i !in chain' && chain' == Removed(chain, i)
  {
    ghost var p := Deletion(chain, prev, next, key, first, second, top, i);
    RemovedAt(chain, |prev|, p);
    var pv, nx, k := prev[i], next[i], key[i];
    prev', next' := Bypass(prev, next, pv, nx);
    first', second' := LeaveBucket(first, second, i, k, pv, nx);
    top' := if top == i then next'[top] else top;
    prev', next' := prev'[i := -1], next'[i := -1];
    chain' := Without(chain, p);
  }

  /** IncrementKey on the parts of the heap. */
  method Increment(ghost chain: seq<nat>, prev: seq<int>, next: seq<int>, key: seq<int>, first: seq<int>,
                   second: seq<int>, top: int, i: nat)
    returns (ghost chain': seq<nat>, prev': seq<int>, next': seq<int>, key': seq<int>, first': seq<int>,
             second': seq<int>, top': int)
    requires Shape(chain, prev, next, key, first, second, top) && i in chain
    ensures Shape(chain', prev', next', key', first', second', top') && multiset(chain') == multiset(chain)
    ensures i < |key| && key' == key[i := key[i] + 1] && Requeued(chain, chain', key', i)
  {
    ghost var p, h := Position(chain, prev, next, key, first, second, top, i);
    var k, pv, nx := key[i], prev[i], next[i];
    Incrementation(chain, prev, next, key, first, second, p, h, i, k, pv, nx);
    MovedMembers(chain, p, h);
    MovedBehind(chain, key, p, h, k + 1);
    assert Requeued(chain, With(Without(chain, p), h, i), key[i := k + 1], i);
    chain' := With(Without(chain, p), h, i);
    prev', next' := RelinkBefore(prev, next, i, first[k], pv, nx);
    key' := key[i := k + 1];
    first', second' := LeaveBucket(first, second, i, k, pv, nx);
    first', second' := Reserved(first', k + 1), Reserved(second', k + 1);
    first', second' := JoinBucket(first', second', i, k + 1);
    top' := if key'[top] < k + 1 then i else top;
  }

  // ---------------------------------------------------------------------------
  // DecreaseTop
  // ---------------------------------------------------------------------------

  /** Division that truncates toward zero, as the source's does. */
  function Half(u: int): (r: int)
    ensures u <= 0 ==> u <= 2 * r <= u + 1 && r <= 0
    ensures u >= 0 ==> u - 1 <= 2 * r <= u
  {
    if u >= 0 then u / 2 else -((-u) / 2)
  }

  /** The end of a bucket that some node is in. */
  lemma BucketEnd(chain: seq<nat>, next: seq<int>, prev: seq<int>, ks: seq<int>, first: seq<int>, second: seq<int>,
                  p: nat)
    requires Linked(chain, prev, next) && Headed(chain, ks, first, second) && p < |chain|
    ensures p < Cut(ks, ks[p]) && second[ks[p]] == chain[Cut(ks, ks[p]) - 1]
    ensures next[chain[Cut(ks, ks[p]) - 1]] == At(chain, Cut(ks, ks[p]))
  {
    assert Header(chain, ks, ks[p], first[ks[p]], second[ks[p]]);
  }

  /** The walk over whole buckets to the last node whose key is at least x. */
  method LastAtLeast(ghost chain: seq<nat>, prev: seq<int>, next: seq<int>, key: seq<int>, first: seq<int>,
                     second: seq<int>, top: int, x: int)
    returns (last: nat)
    requires Shape(chain, prev, next, key, first, second, top) && |chain| > 0 && x <= key[chain[0]]
    ensures var c := Cut(Keys(chain, key), x); c > 0 && last == chain[c - 1] && next[last] == At(chain, c)
  {
    ghost var ks := Keys(chain, key);
    ghost var at := 0;
    var bucket := key[top];
    BucketEnd(chain, next, prev, ks, first, second, 0);
    var follower := next[second[bucket]];
    while follower >= 0 && key[follower] >= x
      invariant 0 <= at < |chain| && bucket == ks[at] >= x && follower == At(chain, Cut(ks, ks[at]))
      decreases |chain| - Cut(ks, ks[at])
    {
      at := Cut(ks, ks[at]);
      bucket := key[follower];
      BucketEnd(chain, next, prev, ks, first, second, at);
      follower := next[second[bucket]];
    }
    BucketEnd(chain, next, prev, ks, first, second, at);
    CutIs(ks, x, Cut(ks, ks[at]));
    last := second[bucket];
  }

  lemma TopMoves(chain: seq<nat>, key: seq<int>, x: int)
    requires |chain| >= 2 && Distinct(chain, |key|) && Descending(Keys(chain, key)) && x < key[chain[1]]
    ensures
      var ks := Keys(chain, key);
      Descending(Without(ks, 0)) && Cut(ks, x) >= 2 && Cut(Without(ks, 0), x) == Cut(ks, x) - 1
  {
    var ks := Keys(chain, key);
    assert ks[0] >= ks[1] > x;
    CutWithout(ks, 0, x);
  }

  lemma TopLinks(chain: seq<nat>, prev: seq<int>, next: seq<int>, q: nat)
    requires Linked(chain, prev, next) && 1 <= q < |chain|
    ensures
      var i, last, after := chain[0], chain[q], At(chain, q + 1);
      Linked(With(Without(chain, 0), q, i), Put(prev[chain[1] := -1][i := last], after, i), next[i := after][last := i])
  {
    AtWithout(chain, 0, q - 1);
    AtWithout(chain, 0, q);
    MovedLinks(chain, prev, next, 0, q);
    var i, last, after := chain[0], chain[q], At(chain, q + 1);
    assert Put(prev, chain[1], -1) == prev[chain[1] := -1];
    assert Put(next, -1, chain[1]) == next;
    assert Put(next[i := after], last, i) == next[i := after][last := i];
  }

  lemma TopHeads(chain: seq<nat>, key: seq<int>, first: seq<int>, second: seq<int>, x: int)
    requires Distinct(chain, |key|) && Headed(chain, Keys(chain, key), first, second) && |chain| >= 2
    requires 0 <= x < key[chain[1]]
    ensures
      var i, k, ks := chain[0], key[chain[0]], Keys(chain, key);
      0 <= x < |first| && 0 <= k < |first| && Cut(ks, x) >= 2 &&
      var single := first[k] == second[k];
      var first1, second1 := first[k := if single then -1 else chain[1]], if single then second[k := -1] else second;
      var moved := With(Without(chain, 0), Cut(ks, x) - 1, i);
      Distinct(moved, |key|) &&
      Headed(moved, Keys(moved, key[i := x]), if first1[x] < 0 then first1[x := i] else first1, second1[x := i])
  {
    var i, k, ks := chain[0], key[chain[0]], Keys(chain, key);
    assert ks[0] == k && ks[1] == key[chain[1]];
    TopMoves(chain, key, x);
    BucketStart(chain, ks, first, second, 0);
    HeadedWithout(chain, ks, |key|, first, second, 0);
    var r := AfterRemoval(first[k], second[k], i, -1, chain[1]);
    MovedHeads(chain, |key|, key, first[k := r.0], second[k := r.1], 0, x, With(Without(chain, 0), Cut(ks, x) - 1, i));
    assert first[k] != second[k] ==> second[k := r.1] == second;
  }

  /** Where DecreaseTop wants the top to go: half of its pending decrease is applied. */
  function Target(key: int, u: int): (x: int)
    ensures x + Half(u) == key + u && (u <= 0 ==> key + u <= x) && (u < 0 ==> x < key)
    ensures u <= 0 ==> 2 * key + u - 1 <= 2 * x <= 2 * key + u
  {
    key + u - Half(u)
  }

  /** The relinking branch of DecreaseTop on the parts of the heap. */
  method Demote(ghost chain: seq<nat>, prev: seq<int>, next: seq<int>, key: seq<int>, first: seq<int>, second: seq<int>,
                top: nat, x: nat)
    returns (ghost chain': seq<nat>, prev': seq<int>, next': seq<int>, key': seq<int>, first': seq<int>,
             second': seq<int>, top': nat)
    requires Shape(chain, prev, next, key, first, second, top) && |chain| >= 2 && x < key[chain[1]]
    ensures Shape(chain', prev', next', key', first', second', top') && multiset(chain') == multiset(chain)
    ensures top < |key| && key' == key[top := x] && top' == chain[1] && Requeued(chain, chain', key', top)
  {
    assert prev[chain[0]] == At(chain, -1) && next[chain[0]] == At(chain, 1);
    var k, follower := key[top], next[top];
    ghost var q := Cut(Keys(chain, key), x) - 1;
    TopMoves(chain, key, x);
    TopHeads(chain, key, first, second, x);
    TopLinks(chain, prev, next, q);
    MovedMembers(chain, 0, q);
    MovedBehind(chain, key, 0, q, x);
    AtWith(Without(chain, 0), q, top, 0);
    var last := LastAtLeast(chain, prev, next, key, first, second, top, x);
    var tail := next[last];
    prev' := prev[follower := -1][top := last];
    next' := next[top := tail][last := top];
    if tail >= 0 {
      prev' := prev'[tail := top];
    }
    if first[k] == second[k] {
      first', second' := first[k := -1], second[k := -1];
    } else {
      first', second' := first[k := follower], second;
    }
    key' := key[top := x];
    first', second' := JoinBucket(first', second', top, x);
    top' := follower;
    chain' := With(Without(chain, 0), q, top);
  }

  // ---------------------------------------------------------------------------
  // ReConstruct
  // ---------------------------------------------------------------------------

  /** The order std::sort leaves the nodes in: any order by non-increasing key. */
  ghost predicate ByKey(order: seq<nat>, key: seq<int>) {
    |order| == |key| && Distinct(order, |key|) && Descending(Keys(order, key)) && forall i :: 0 <= i < |key| ==>
      key[i] >= 0
  }

  /** There always is such an order. */
  lemma {:induction false} ByKeyExists(key: seq<int>) returns (order: seq<nat>)
    requires forall i :: 0 <= i < |key| ==> key[i] >= 0
    ensures ByKey(order, key)
  {
    if |key| == 0 {
      order := [];
    } else {
      var n := |key| - 1;
      var rest := ByKeyExists(key[..n]);
      var ks := Keys(rest, key[..n]);
      order := With(rest, Cut(ks, key[n]), n);
      assert n !in rest;
      WithDistinct(rest, |key|, Cut(ks, key[n]), n);
      CutWith(ks, key[n], 0);
      assert Keys(order, key) == With(ks, Cut(ks, key[n]), key[n]);
    }
  }

  /** The first i positions and the last one are linked. */
  ghost predicate LinksDone(order: seq<nat>, prev: seq<int>, next: seq<int>, i: nat) {
    && |prev| == |next| == |order| && 0 < i < |order| && Distinct(order, |order|)
    && (forall p {:trigger prev[order[p]]} :: 0 <= p < i || p == |order| - 1 ==> prev[order[p]] == At(order, p - 1))
    && (forall p {:trigger next[order[p]]} :: 0 <= p < i || p == |order| - 1 ==> next[order[p]] == At(order, p + 1))
  }

  /** The headers of the first i positions, but for the end of the bucket still open. */
  ghost predicate HeadsOpen(order: seq<nat>, ks: seq<int>, first: seq<int>, second: seq<int>, i: nat) {
    && 0 < i <= |order| == |ks| && Descending(ks) && |first| == |second|
      && (forall p :: 0 <= p < |ks| ==> 0 <= ks[p] < |first|)
    && Headed(order[..i], ks[..i], first, second[ks[i - 1] := order[i - 1]])
  }

  lemma HeadsNext(order: seq<nat>, ks: seq<int>, first: seq<int>, second: seq<int>, i: nat)
    requires HeadsOpen(order, ks, first, second, i) && i < |order|
    ensures
      var same := ks[i] == ks[i - 1];
      var first' := if same then first else first[ks[i] := order[i]];
      var second' := if same then second else second[ks[i - 1] := order[i - 1]];
      HeadsOpen(order, ks, first', second', i + 1)
  {
    var closed := second[ks[i - 1] := order[i - 1]];
    CutIs(ks[..i], ks[i], i);
    HeadedWith(order[..i], ks[..i], first, closed, order[i], ks[i]);
    assert With(order[..i], i, order[i]) == order[..i + 1];
    assert With(ks[..i], i, ks[i]) == ks[..i + 1];
    assert Header(order[..i], ks[..i], ks[i], first[ks[i]], closed[ks[i]]);
    if ks[i] == ks[i - 1] {
      assert closed[ks[i] := order[i]] == second[ks[i] := order[i]];
    } else {
      CutIs(ks[..i], ks[i] + 1, i);
    }
  }

  lemma HeadsStart(order: seq<nat>, ks: seq<int>, size: nat)
    requires |order| == |ks| > 0 && Descending(ks) && forall p :: 0 <= p < |ks| ==> 0 <= ks[p] < size
    ensures HeadsOpen(order, ks, Blank(size)[ks[0] := order[0]], Blank(size), 1)
  {
    var none: seq<nat> := [];
    assert Headed(none, [], Blank(size), Blank(size));
    CutIs([], ks[0], 0);
    HeadedWith(none, [], Blank(size), Blank(size), order[0], ks[0]);
    assert With(none, 0, order[0]) == order[..1];
    assert With([], 0, ks[0]) == ks[..1];
  }

  lemma LinksStart(order: seq<nat>, prev: seq<int>, next: seq<int>, n: nat)
    requires n == |order| >= 2 && Distinct(order, n)
    requires prev == Blank(n)[order[0] := -1][order[n - 1] := order[n - 2]]
    requires next == Blank(n)[order[0] := order[1]][order[n - 1] := -1]
    ensures LinksDone(order, prev, next, 1)
  {
  }

  lemma LinksNext(order: seq<nat>, prev: seq<int>, next: seq<int>, i: nat)
    requires LinksDone(order, prev, next, i) && i < |order| - 1
    ensures LinksDone(order, prev[order[i] := order[i - 1]], next[order[i] := order[i + 1]], i + 1)
  {
  }

  /** ReConstruct on the parts of the heap, for at least two nodes. */
  method Rebuild(key: seq<int>, order: seq<nat>, buckets: nat)
    returns (prev: seq<int>, next: seq<int>, first: seq<int>, second: seq<int>)
    requires ByKey(order, key) && |order| >= 2
    ensures Shape(order, prev, next, key, first, second, order[0]) && |first| >= buckets
  {
    ghost var ks := Keys(order, key);
    var n := |order|;
    var current := key[order[0]];
    next := Blank(n)[order[0] := order[1]][order[n - 1] := -1];
    prev := Blank(n)[order[0] := -1][order[n - 1] := order[n - 2]];
    var size := if current + 1 > buckets then current + 1 else buckets;
    first, second := Blank(size)[current := order[0]], Blank(size);
    HeadsStart(order, ks, size);
    LinksStart(order, prev, next, n);
    prev, next, first, second, current := LinkBuckets(key, order, prev, next, first, second, current);
    ghost var first1, second1 := first, second;
    var last := order[n - 1];
    if current == key[last] {
      second := second[current := last];
    } else {
      second := second[current := order[n - 2]];
      first, second := first[key[last] := last], second[key[last] := last];
    }
    HeadsEnd(order, ks, first1, second1, first, second, n - 1);
    RebuiltShape(order, prev, next, key, first, second);
  }

  /** Its loop over the nodes between the first and the last. */
  method LinkBuckets(key: seq<int>, order: seq<nat>, prev0: seq<int>, next0: seq<int>, first0: seq<int>,
                     second0: seq<int>, current0: int)
    returns (prev: seq<int>, next: seq<int>, first: seq<int>, second: seq<int>, current: int)
    requires ByKey(order, key) && |order| >= 2 && LinksDone(order, prev0, next0, 1)
    requires HeadsOpen(order, Keys(order, key), first0, second0, 1) && current0 == key[order[0]]
    ensures LinksDone(order, prev, next, |order| - 1) && |first| == |first0|
    ensures HeadsOpen(order, Keys(order, key), first, second, |order| - 1) && current == key[order[|order| - 2]]
  {
    ghost var ks := Keys(order, key);
    prev, next, first, second, current := prev0, next0, first0, second0, current0;
    for i := 1 to |order| - 1
      invariant LinksDone(order, prev, next, i) && HeadsOpen(order, ks, first, second, i)
      invariant current == ks[i - 1] && |first| == |first0|
    {
      LinksNext(order, prev, next, i);
      HeadsNext(order, ks, first, second, i);
      prev, next := prev[order[i] := order[i - 1]], next[order[i] := order[i + 1]];
      var k := key[order[i]];
      if k != current {
        second := second[current := order[i - 1]];
        first := first[k := order[i]];
        current := k;
      }
    }
  }

  lemma HeadsEnd(order: seq<nat>, ks: seq<int>, first: seq<int>, second: seq<int>, first': seq<int>, second': seq<int>,
                 i: nat)
    requires HeadsOpen(order, ks, first, second, i) && i == |order| - 1
    requires ks[i] == ks[i - 1] ==> first' == first && second' == second[ks[i] := order[i]]
    requires ks[i] != ks[i - 1] ==>
               first' == first[ks[i] := order[i]] && second' == second[ks[i - 1] := order[i - 1]][ks[i] := order[i]]
    ensures Headed(order[..|order|], ks[..|order|], first', second')
  {
    HeadsNext(order, ks, first, second, i);
  }

  lemma RebuiltShape(order: seq<nat>, prev: seq<int>, next: seq<int>, key: seq<int>, first: seq<int>, second: seq<int>)
    requires ByKey(order, key) && |order| >= 2 && LinksDone(order, prev, next, |order| - 1)
    requires Headed(order[..|order|], Keys(order, key)[..|order|], first, second)
    ensures Shape(order, prev, next, key, first, second, order[0])
  {
    assert order[..|order|] == order && Keys(order, key)[..|order|] == Keys(order, key);
  }

  // ---------------------------------------------------------------------------
  // ExtractMax
  // ---------------------------------------------------------------------------

  /** What a node's key would be with its pending decrease applied. */
  ghost function Score(key: seq<int>, update: seq<int>, w: nat): int
    requires w < |key| == |update|
  {
    key[w] + update[w]
  }

  ghost predicate Pending(chain: seq<nat>, key: seq<int>, update: seq<int>) {
    |key| == |update| && forall p :: 0 <= p < |chain| ==>
      chain[p] < |key| && update[chain[p]] <= 0 <= Score(key, update, chain[p])
  }

  /** Same scores everywhere, no key raised, and nothing touched outside the chain. */
  ghost predicate SameScores(chain: seq<nat>, key: seq<int>, update: seq<int>, key': seq<int>, update': seq<int>) {
    && |key| == |update| == |key'| == |update'|
    && (forall w :: 0 <= w < |key| ==> Score(key', update', w) == Score(key, update, w) && key'[w] <= key[w])
    && (forall w :: 0 <= w < |key| && w !in chain ==> key'[w] == key[w] && update'[w] == update[w])
  }

  ghost function Debt(update: seq<int>): (d: nat) {
    if |update| == 0 then 0
    else Debt(update[..|update| - 1]) + (if update[|update| - 1] < 0 then -update[|update| - 1] else 0)
  }

  lemma {:induction false} DebtDrops(update: seq<int>, i: nat, u: int)
    requires i < |update| && update[i] < u <= 0
    ensures Debt(update[i := u]) < Debt(update)
  {
    var n := |update| - 1;
    if i < n {
      DebtDrops(update[..n], i, u);
      assert update[i := u][..n] == update[..n][i := u];
    } else {
      assert update[i := u][..n] == update[..n];
    }
  }

  /** Node v's key less half its pending decrease reaches every key in the heap. */
  ghost predicate Dominated(chain: seq<nat>, key: seq<int>, update: seq<int>, v: nat)
    requires Pending(chain, key, update) && v < |key|
  {
    forall p :: 0 <= p < |chain| ==> 2 * key[chain[p]] <= 2 * key[v] + update[v]
  }

  function Zeros(n: nat): (r: seq<int>)
    ensures |r| == n && forall k :: 0 <= k < n ==> r[k] == 0
  {
    seq(n, _ => 0)
  }

  lemma FreshHeads(size: nat, buckets: nat, chain: seq<nat>, ks: seq<int>)
    requires size > 0 && buckets > 0 && |chain| == |ks| == size
    requires forall i :: 0 <= i < size ==> chain[i] == i && ks[i] == 0
    ensures Headed(chain, ks, Blank(buckets)[0 := 0], Blank(buckets)[0 := size - 1])
  {
    var first, second := Blank(buckets)[0 := 0], Blank(buckets)[0 := size - 1];
    CutIs(ks, 0, size);
    forall k | 0 <= k < buckets ensures Header(chain, ks, k, first[k], second[k]) {
      CutIs(ks, k + 1, 0);
      if k > 0 {
        CutIs(ks, k, 0);
      }
    }
  }

  lemma FreshLinks(chain: seq<nat>, prev: seq<int>, next: seq<int>)
    requires |chain| == |prev| == |next|
    requires forall i :: 0 <= i < |chain| ==>
              chain[i] == i && prev[i] == i - 1 && next[i] == if i < |chain| - 1 then i + 1 else -1
    ensures Linked(chain, prev, next)
  {
  }

  /** A state some decreases of the top can lead to. */
  ghost predicate Lowered(chain: seq<nat>, key: seq<int>, update: seq<int>, chain': seq<nat>, key': seq<int>,
                          update': seq<int>) {
    Pending(chain', key', update') && SameScores(chain, key, update, key', update')
      && multiset(chain') == multiset(chain)
  }

  lemma LoweredTwice(chain: seq<nat>, key: seq<int>, update: seq<int>, chain1: seq<nat>, key1: seq<int>,
                     update1: seq<int>, chain2: seq<nat>, key2: seq<int>, update2: seq<int>)
    requires Lowered(chain, key, update, chain1, key1, update1) && Lowered(chain1, key1, update1, chain2, key2, update2)
    ensures Lowered(chain, key, update, chain2, key2, update2)
  {
    forall w: nat | w !in chain ensures w !in chain1 {
      assert w !in multiset(chain1);
    }
  }

  /** The top will be extracted: with half of its pending decrease applied it would still reach the
      key of the next node. */
  ghost predicate Settled(chain: seq<nat>, key: seq<int>, update: seq<int>)
    requires Pending(chain, key, update)
  {
    |chain| > 1 ==> 2 * key[chain[1]] <= 2 * key[chain[0]] + update[chain[0]]
  }

  /** The list of nodes with their keys and pending decreases. */
  datatype Queue = Queue(chain: seq<nat>, key: seq<int>, update: seq<int>)

  /** The top, not settled, has half of its decrease applied, rounded toward the larger key, and moves
      behind the nodes of its new key. */
  ghost predicate Demotes(a: Queue, b: Queue) {
    && Pending(a.chain, a.key, a.update) && |a.chain| > 1 && !Settled(a.chain, a.key, a.update)
    && |b.key| == |b.update| == |a.key| &&
    var t := a.chain[0];
    var u, u' := a.update[t], b.update[t];
    && u < 0 && u <= 2 * u' <= u + 1 && b.update == a.update[t := u']
    && b.key == a.key[t := a.key[t] + u - u'] && Requeued(a.chain, b.chain, b.key, t)
  }

  /** n demotions. */
  ghost predicate DemotedTimes(n: nat, a: Queue, b: Queue) {
    if n == 0 then b == a else exists mid: Queue :: DemotedTimes(n - 1, a, mid) && Demotes(mid, b)
  }

  /** Scores and signs survive applying half of a pending decrease. */
  lemma PendingKept(chain: seq<nat>, key: seq<int>, update: seq<int>, i: nat, x: int)
    requires Pending(chain, key, update) && i < |key| && i in chain && update[i] < 0 && x == Target(key[i], update[i])
    ensures Pending(chain, key[i := x], update[i := Half(update[i])])
    ensures SameScores(chain, key, update, key[i := x], update[i := Half(update[i])])
  {
  }

  lemma PendingMembers(chain: seq<nat>, chain': seq<nat>, key: seq<int>, update: seq<int>)
    requires Pending(chain, key, update) && forall w :: w in chain' ==> w in chain
    ensures Pending(chain', key, update)
  {
    forall p | 0 <= p < |chain'| ensures chain'[p] < |key| && update[chain'[p]] <= 0 <= Score(key, update, chain'[p]) {
      assert chain'[p] in chain;
    }
  }

  lemma SameNodes(a: seq<nat>, b: seq<nat>, w: nat)
    requires multiset(a) <= multiset(b) && w in a
    ensures w in b
  {
    assert w in multiset(a);
  }

  /** DecreaseTop on the parts of the heap. */
  method Lower(ghost chain: seq<nat>, prev: seq<int>, next: seq<int>, key: seq<int>, first: seq<int>, second: seq<int>,
               top: int, update: seq<int>)
    returns (ghost chain': seq<nat>, prev': seq<int>, next': seq<int>, key': seq<int>, first': seq<int>,
             second': seq<int>, top': int, update': seq<int>, moved: bool)
    requires Shape(chain, prev, next, key, first, second, top) && |chain| > 0 && Pending(chain, key, update)
    requires update[chain[0]] < 0
    ensures Shape(chain', prev', next', key', first', second', top')
    ensures Lowered(chain, key, update, chain', key', update')
    ensures moved ==> top' != top && Debt(update') < Debt(update)
    ensures moved ==> Demotes(Queue(chain, key, update), Queue(chain', key', update'))
    ensures !moved ==>
              chain' == chain && prev' == prev && next' == next && key' == key && first' == first && second' == second
                && top' == top && update' == update
    ensures !moved ==> Settled(chain, key, update)
  {
    assert chain[0] == top && next[chain[0]] == At(chain, 1);
    chain', prev', next', key', first', second', top' := chain, prev, next, key, first, second, top;
    update', moved := update, false;
    var follower := next[top];
    if follower < 0 {
      return;
    }
    var x := Target(key[top], update[top]);
    if x < key[follower] {
      moved := true;
      DebtDrops(update, top, Half(update[top]));
      PendingKept(chain, key, update, top, x);
      chain', prev', next', key', first', second', top' := Demote(chain, prev, next, key, first, second, top, x);
      update' := update[top := Half(update[top])];
      PendingMoved(chain, chain', key', update');
    }
  }

  lemma PendingMoved(chain: seq<nat>, chain': seq<nat>, key: seq<int>, update: seq<int>)
    requires Pending(chain, key, update) && multiset(chain') == multiset(chain)
    ensures Pending(chain', key, update)
  {
    forall w | w in chain' ensures w in chain {
      SameNodes(chain', chain, w);
    }
    PendingMembers(chain, chain', key, update);
  }

  /** A settled top bounds every other key. */
  lemma TopOutscores(chain: seq<nat>, key: seq<int>, update: seq<int>)
    requires |chain| > 0 && Pending(chain, key, update) && Descending(Keys(chain, key)) && Settled(chain, key, update)
    requires Distinct(chain, |key|)
    ensures Removed(chain, chain[0]) == chain[1..] && Pending(chain[1..], key, update)
    ensures Dominated(chain[1..], key, update, chain[0])
  {
    var ks := Keys(chain, key);
    forall p | 0 < p < |chain| ensures 2 * key[chain[p]] <= 2 * key[chain[0]] + update[chain[0]] {
      assert ks[0] >= ks[1] >= ks[p] && ks[0] == key[chain[0]] && ks[1] == key[chain[1]] && ks[p] == key[chain[p]];
    }
    assert Removed(chain, chain[0]) == chain[1..] by {
      RemovedAt(chain, |key|, 0);
    }
  }

  /** Some demotions lead to a queue with v on top, and b is the rest of it. */
  ghost predicate DrawnFrom(a: Queue, v: nat, b: Queue) {
    exists n: nat :: DemotedTimes(n, a, Queue([v] + b.chain, b.key, b.update))
  }

  lemma TopDrawn(n: nat, a: Queue, b: Queue, v: nat, rest: seq<nat>)
    requires DemotedTimes(n, a, b) && |b.chain| > 0 && b.chain[0] == v && b.chain[1..] == rest
    ensures DrawnFrom(a, v, Queue(rest, b.key, b.update))
  {
    assert b == Queue([v] + rest, b.key, b.update);
  }

  lemma OneMoreDemotion(n: nat, a: Queue, b: Queue, c: Queue, moved: bool)
    requires DemotedTimes(n, a, b) && if moved then Demotes(b, c) else c == b
    ensures DemotedTimes(if moved then n + 1 else n, a, c)
  {
  }

  class UnitHeap {
    var update: seq<int>
    var prev: seq<int>
    var next: seq<int>
    var key: seq<int>
    var first: seq<int>
    var second: seq<int>
    var top: int
    ghost var chain: seq<nat>

    ghost predicate Valid()
      reads this
    {
      Shape(chain, prev, next, key, first, second, top) && |update| == |key|
    }

    /** The list the links and headers stand for. */
    ghost function Now(): Queue
      reads this
    {
      Queue(chain, key, update)
    }

    constructor (size: nat)
      ensures size > 0 ==> Valid()
      ensures update == key == Zeros(size) && |chain| == size
      ensures |first| == |second| == if size / 16 > 4 then size / 16 else 4
    {
      update, key := Zeros(size), Zeros(size);
      prev, next := seq(size, i => i - 1), seq(size, i => if i < size - 1 then i + 1 else -1);
      var buckets := if size / 16 > 4 then size / 16 else 4;
      first := if size > 0 then Blank(buckets)[0 := 0] else Blank(buckets);
      second := if size > 0 then Blank(buckets)[0 := size - 1] else Blank(buckets);
      top := 0;
      chain := seq(size, i => i);
      new;
      if size > 0 {
        FreshLinks(chain, prev, next);
        FreshHeads(size, buckets, chain, Keys(chain, key));
      }
    }

    method DeleteElement(index: nat)
      requires Valid() && index in chain
      modifies `prev, `next, `first, `second, `top, `chain
      ensures Valid() && multiset(old(chain)) == multiset(chain) + multiset{index} && index !in chain
      ensures chain == Removed(old(chain), index)
    {
      chain, prev, next, first, second, top := Delete(chain, prev, next, key, first, second, top, index);
    }

    method IncrementKey(index: nat)
      requires Valid() && index in chain
      modifies `prev, `next, `key, `first, `second, `top, `chain
      ensures Valid() && multiset(chain) == multiset(old(chain)) && key == old(key)[index := old(key[index]) + 1]
      ensures Requeued(old(chain), chain, key, index)
    {
      ghost var chain1;
      var prev1, next1, key1, first1, second1, top1;
      chain1, prev1, next1, key1, first1, second1, top1 := Increment(chain, prev, next, key, first, second, top, index);
      chain, prev, next, key, first, second, top := chain1, prev1, next1, key1, first1, second1, top1;
    }

    /** Rebuilds every link and header from the keys. `order` is what std::sort made of the nodes. */
    method ReConstruct(order: seq<nat>)
      requires |update| == |key| >= 2 && ByKey(order, key)
      modifies `prev, `next, `first, `second, `top, `chain
      ensures Valid() && chain == order
    {
      prev, next, first, second := Rebuild(key, order, |first|);
      top := order[0];
      chain := order;
    }

    /** Applies half of the top's pending decrease if that moves it, and says whether it did. */
    method DecreaseTop() returns (moved: bool)
      requires Valid() && |chain| > 0 && Pending(chain, key, update) && update[top] < 0
      modifies this
      ensures Valid() && Lowered(old(chain), old(key), old(update), chain, key, update)
      ensures moved ==> top != old(top) && Debt(update) < old(Debt(update))
      ensures moved ==> Demotes(old(Now()), Now())
      ensures !moved ==> unchanged(this) && Settled(chain, key, update)
    {
      ghost var chain1;
      var prev1, next1, key1, first1, second1, top1, update1;
      chain1, prev1, next1, key1, first1, second1, top1, update1, moved := Lower(chain, prev, next, key, first, second,
                                                                                 top, update);
      if moved {
        chain, prev, next, key, first, second := chain1, prev1, next1, key1, first1, second1;
        top, update := top1, update1;
      }
    }

    /** Demotes the top until it is settled, then takes it out. Its key less half of its pending
        decrease reaches every key left. */
    method ExtractMax() returns (v: nat)
      requires Valid() && |chain| > 0 && Pending(chain, key, update)
      modifies this
      ensures Valid() && multiset(old(chain)) == multiset(chain) + multiset{v} && v !in chain
      ensures SameScores(old(chain), old(key), old(update), key, update) && Pending(chain, key, update)
      ensures v < |key| && update[v] <= 0 && Dominated(chain, key, update, v)
      ensures DrawnFrom(old(Now()), v, Now())
    {
      ghost var rest;
      v, rest := SettledTop();
      DeleteElement(v);
    }

    /** The node ExtractMax takes out. */
    method SettledTop() returns (v: nat, ghost rest: seq<nat>)
      requires Valid() && |chain| > 0 && Pending(chain, key, update)
      modifies this
      ensures Valid() && v in chain && Removed(chain, v) == rest && multiset(chain) == multiset(old(chain))
      ensures SameScores(old(chain), old(key), old(update), key, update)
      ensures v < |key| && update[v] <= 0 && Pending(rest, key, update) && Dominated(rest, key, update, v)
      ensures DrawnFrom(old(Now()), v, Queue(rest, key, update))
    {
      ghost var n := Settle();
      v, rest := top, chain[1..];
      TopOutscores(chain, key, update);
      TopDrawn(n, old(Now()), Now(), v, rest);
    }

    /** The loop of ExtractMax. */
    method Settle() returns (ghost n: nat)
      requires Valid() && |chain| > 0 && Pending(chain, key, update)
      modifies this
      ensures Valid() && |chain| > 0 && Lowered(old(chain), old(key), old(update), chain, key, update)
      ensures Settled(chain, key, update)
      ensures DemotedTimes(n, old(Now()), Now())
    {
      var moved := true;
      n := 0;
      while moved
        invariant DemotedTimes(n, old(Now()), Now())
        invariant Valid() && |chain| > 0 && Lowered(old(chain), old(key), old(update), chain, key, update)
        invariant !moved ==> Settled(chain, key, update)
        decreases Debt(update), moved
      {
        moved := false;
        if update[top] < 0 {
          ghost var chain1, key1, update1, before := chain, key, update, Now();
          moved := DecreaseTop();
          OneMoreDemotion(n, old(Now()), before, Now(), moved);
          LoweredTwice(old(chain), old(key), old(update), chain1, key1, update1, chain, key, update);
          n := if moved then n + 1 else n;
        }
      }
    }
  }
}
