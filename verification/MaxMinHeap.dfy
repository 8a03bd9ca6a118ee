/** MaxMinHeap: a bounded heap that keeps the `capacity` items with the largest values and
    hands out the smallest of them first.

    push and pop go through std::push_heap and std::pop_heap, which compare (value, id)
    pairs; replacing the root goes through a hand-written sift_down that compares values only.
    Mixing the two means the pool is ordered by value but in general not by pair, so the
    library algorithms run outside their own precondition; they are modelled here as
    libstdc++ implements them. Value order is what every operation keeps; pair order, and with
    it ties by id, is kept as long as no root has been replaced.
 */
module MaxMinHeap {

  datatype IdVal = IdVal(id: nat, val: real)

  /** operator> of IdVal: value first, then id. */
  predicate Greater(a: IdVal, b: IdVal) {
    a.val > b.val || (a.val == b.val && a.id > b.id)
  }

  /** The two orders the pool may be heaped by. */
  datatype Order = ByValue | ByPair

  ghost predicate Leq(o: Order, a: IdVal, b: IdVal) {
    a.val < b.val || (a.val == b.val && (o == ByPair ==> a.id <= b.id))
  }

  function Parent(i: nat): nat
    requires i > 0
  {
    (i - 1) / 2
  }

  ghost predicate HeapOrder(o: Order, s: seq<IdVal>, n: nat)
    requires n <= |s|
  {
    forall i :: 1 <= i < n ==> Leq(o, s[Parent(i)], s[i])
  }

  /** Heap order everywhere except between the hole at `h` and its neighbours, and the hole's
      children do not undercut its parent. */
  ghost predicate OrderAround(o: Order, s: seq<IdVal>, n: nat, h: nat)
    requires n <= |s|
  {
    && h < n
    && (forall i :: 1 <= i < n && i != h && Parent(i) != h ==> Leq(o, s[Parent(i)], s[i]))
    && (h > 0 ==> forall i :: 1 <= i < n && Parent(i) == h ==> Leq(o, s[Parent(h)], s[i]))
  }

  /** Heap order everywhere except that `h` may be smaller than its parent. */
  ghost predicate OrderBelow(o: Order, s: seq<IdVal>, n: nat, h: nat)
    requires n <= |s|
  {
    OrderAround(o, s, n, h) && forall i :: 1 <= i < n && Parent(i) == h ==> Leq(o, s[h], s[i])
  }

  lemma {:induction false} RootIsMin(o: Order, s: seq<IdVal>, n: nat, i: nat)
    requires n <= |s| && HeapOrder(o, s, n) && i < n
    ensures Leq(o, s[0], s[i])
  {
    if i > 0 {
      RootIsMin(o, s, n, Parent(i));
    }
  }

  // ---------------------------------------------------------------------------
  // Hole moves
  // ---------------------------------------------------------------------------

  ghost function Items(s: seq<IdVal>, n: nat): multiset<IdVal>
    requires n <= |s|
  {
    multiset(s[..n])
  }

  lemma ReplaceItem(s: seq<IdVal>, n: nat, h: nat, v: IdVal)
    requires h < n <= |s|
    ensures Items(s[h := v], n) == Items(s, n)[s[h] := Items(s, n)[s[h]] - 1] + multiset{v}
  {
    var a := s[..n];
    assert a == a[..h] + [a[h]] + a[h + 1..];
    assert s[h := v][..n] == a[..h] + [v] + a[h + 1..];
  }

  /** Moving the item at `c` into the hole at `h` and the hole to `c` keeps the items. */
  lemma MoveHole(s: seq<IdVal>, n: nat, h: nat, c: nat, v: IdVal)
    requires h < n <= |s| && c < n && h != c
    ensures Items(s[h := s[c]][c := v], n) == Items(s[h := v], n)
  {
    var t, u := s[h := v], s[h := s[c]];
    var before, between, after := Items(t, n), Items(u, n), Items(u[c := v], n);
    assert between == before[v := before[v] - 1] + multiset{s[c]} by {
      assert t[h := s[c]] == u;
      ReplaceItem(t, n, h, s[c]);
    }
    assert after == between[s[c] := between[s[c]] - 1] + multiset{v} by {
      ReplaceItem(u, n, c, v);
    }
    Present(t, n, h);
    OutAndBack(before, v, s[c]);
  }

  lemma OutAndBack(items: multiset<IdVal>, v: IdVal, w: IdVal)
    requires items[v] > 0
    ensures
      var swapped := items[v := items[v] - 1] + multiset{w};
      swapped[w := swapped[w] - 1] + multiset{v} == items
  {
  }

  lemma Present(s: seq<IdVal>, n: nat, h: nat)
    requires h < n <= |s|
    ensures Items(s, n)[s[h]] > 0
  {
    assert s[..n][h] == s[h];
  }

  /** __push_heap: the hole climbs past every parent that compares greater. */
  method SiftUp(ghost o: Order, pool: seq<IdVal>, n: nat, hole0: nat, value: IdVal) returns (r: seq<IdVal>)
    requires n <= |pool| && hole0 < n && OrderBelow(o, pool[hole0 := value], n, hole0)
    ensures |r| == |pool| && r[n..] == pool[n..] && HeapOrder(o, r, n)
    ensures Items(r, n) == Items(pool[hole0 := value], n)
  {
    r := pool;
    var hole: nat := hole0;
    while hole > 0 && Greater(r[Parent(hole)], value)
      invariant |r| == |pool| && r[n..] == pool[n..]
      invariant hole < n && OrderBelow(o, r[hole := value], n, hole)
      invariant Items(r[hole := value], n) == Items(pool[hole0 := value], n)
    {
      var p := Parent(hole);
      Climb(o, r, n, hole, p, value);
      r, hole := r[hole := r[p]], p;
    }
    assert r[hole := value][n..] == r[n..];
    r := r[hole := value];
  }

  lemma Climb(o: Order, r: seq<IdVal>, n: nat, hole: nat, p: nat, value: IdVal)
    requires n <= |r| && 0 < hole < n && p == Parent(hole)
    requires OrderBelow(o, r[hole := value], n, hole) && Greater(r[p], value)
    ensures r[hole := r[p]][n..] == r[n..] && OrderBelow(o, r[hole := r[p]][p := value], n, p)
    ensures Items(r[hole := r[p]][p := value], n) == Items(r[hole := value], n)
  {
    MoveHole(r, n, hole, p, value);
    ClimbKeepsOrder(o, r[hole := value], n, hole, r[hole := r[p]][p := value]);
  }

  lemma ClimbKeepsOrder(o: Order, s: seq<IdVal>, n: nat, h: nat, t: seq<IdVal>)
    requires n <= |s| && h > 0 && OrderBelow(o, s, n, h)
    requires Leq(o, s[h], s[Parent(h)])
    requires t == s[h := s[Parent(h)]][Parent(h) := s[h]]
    ensures OrderBelow(o, t, n, Parent(h))
  {
    var p := Parent(h);
    forall i | 1 <= i < n && i != p && Parent(i) != p ensures Leq(o, t[Parent(i)], t[i]) {
    }
    forall i | 1 <= i < n && Parent(i) == p ensures Leq(o, t[p], t[i]) {
      assert i != h ==> Leq(o, s[p], s[i]);
    }
    if p > 0 {
      assert Leq(o, s[Parent(p)], s[p]);
    }
  }

  /** The item at the smaller child `c` moves up into the hole at `h`. */
  lemma DescendKeepsOrder(o: Order, s: seq<IdVal>, n: nat, h: nat, c: nat)
    requires n <= |s| && OrderAround(o, s, n, h) && c < n && c > 0 && Parent(c) == h
    requires forall i :: 1 <= i < n && Parent(i) == h ==> Leq(o, s[c], s[i])
    ensures OrderAround(o, s[h := s[c]], n, c)
  {
    var t := s[h := s[c]];
    forall i | 1 <= i < n && i != c && Parent(i) != c ensures Leq(o, t[Parent(i)], t[i]) {
    }
    forall i | 1 <= i < n && Parent(i) == c ensures Leq(o, t[h], t[i]) {
      assert Leq(o, s[c], s[i]);
    }
  }

  lemma ChildrenOf(h: nat, i: nat)
    requires i > 0
    ensures Parent(i) == h <==> i == 2 * h + 1 || i == 2 * h + 2
  {
  }

  /** A descending hole: the pool is ordered around it, and filling it with `value` gives the
      items that filling the root would have given. */
  ghost predicate Descent(o: Order, pool: seq<IdVal>, r: seq<IdVal>, n: nat, hole: nat, value: IdVal) {
    && 0 < n <= |r| == |pool| && hole < n
    && r[n..] == pool[n..] && OrderAround(o, r, n, hole)
    && Items(r[hole := value], n) == Items(pool[0 := value], n)
  }

  /** The item at the smaller child moves up and leaves the hole behind. */
  method MoveUp(ghost o: Order, ghost pool: seq<IdVal>, r0: seq<IdVal>, n: nat, h: nat, c: nat, ghost value: IdVal)
    returns (r: seq<IdVal>)
    requires Descent(o, pool, r0, n, h, value) && c < n && (c == 2 * h + 1 || c == 2 * h + 2)
    requires 2 * h + 1 < n ==> Leq(o, r0[c], r0[2 * h + 1])
    requires 2 * h + 2 < n ==> Leq(o, r0[c], r0[2 * h + 2])
    ensures Descent(o, pool, r, n, c, value) && r == r0[h := r0[c]]
  {
    MoveUpProof(o, r0, n, h, c, value);
    r := r0[h := r0[c]];
  }

  /** The descent of __adjust_heap: always to the smaller child by pair order, down to a leaf. */
  method DescendToLeaf(ghost o: Order, pool: seq<IdVal>, n: nat, value: IdVal) returns (r: seq<IdVal>, hole: nat)
    requires 0 < n <= |pool| && HeapOrder(o, pool, n)
    ensures Descent(o, pool, r, n, hole, value) && 2 * hole + 1 >= n
  {
    r, hole := pool, 0;
    while hole < (n - 1) / 2
      invariant Descent(o, pool, r, n, hole, value)
      decreases n - hole
    {
      var second := SmallerChild(o, r, n, hole);
      r := MoveUp(o, pool, r, n, hole, second, value);
      hole := second;
    }
    r, hole := OnlyChild(o, pool, r, n, hole, value);
  }

  /** A last parent with a single child passes the hole on to it. */
  method OnlyChild(ghost o: Order, ghost pool: seq<IdVal>, r0: seq<IdVal>, n: nat, hole0: nat, ghost value: IdVal)
    returns (r: seq<IdVal>, hole: nat)
    requires Descent(o, pool, r0, n, hole0, value) && hole0 >= (n - 1) / 2
    ensures Descent(o, pool, r, n, hole, value) && 2 * hole + 1 >= n
  {
    r, hole := r0, hole0;
    var lone := n % 2 == 0 && hole == (n - 2) / 2;
    LastParent(n, hole0, lone);
    if lone {
      hole := 2 * (hole0 + 1) - 1;
      r := MoveUp(o, pool, r0, n, hole0, hole, value);
    }
  }

  lemma LastParent(n: nat, h: nat, lone: bool)
    requires n > 0 && h >= (n - 1) / 2 && lone == (n % 2 == 0 && h == (n - 2) / 2)
    ensures if lone then 2 * h + 2 == n else 2 * h + 1 >= n
  {
  }

  method SmallerChild(ghost o: Order, r: seq<IdVal>, n: nat, hole: nat) returns (second: nat)
    requires n <= |r| && hole < (n - 1) / 2
    ensures second < n && (second == 2 * hole + 1 || second == 2 * hole + 2)
    ensures 2 * hole + 2 < n && Leq(o, r[second], r[2 * hole + 1]) && Leq(o, r[second], r[2 * hole + 2])
  {
    second := 2 * (hole + 1);
    if Greater(r[second], r[second - 1]) {
      second := second - 1;
    }
  }

  lemma MoveUpProof(o: Order, s: seq<IdVal>, n: nat, h: nat, c: nat, value: IdVal)
    requires n <= |s| && OrderAround(o, s, n, h) && c < n && (c == 2 * h + 1 || c == 2 * h + 2)
    requires 2 * h + 1 < n ==> Leq(o, s[c], s[2 * h + 1])
    requires 2 * h + 2 < n ==> Leq(o, s[c], s[2 * h + 2])
    ensures s[h := s[c]][n..] == s[n..] && OrderAround(o, s[h := s[c]], n, c)
    ensures Items(s[h := s[c]][c := value], n) == Items(s[h := value], n)
  {
    SmallestChild(o, s, n, h, c);
    DescendKeepsOrder(o, s, n, h, c);
    MoveHole(s, n, h, c, value);
  }

  lemma SmallestChild(o: Order, s: seq<IdVal>, n: nat, h: nat, c: nat)
    requires n <= |s| && c < n && (c == 2 * h + 1 || c == 2 * h + 2)
    requires 2 * h + 1 < n ==> Leq(o, s[c], s[2 * h + 1])
    requires 2 * h + 2 < n ==> Leq(o, s[c], s[2 * h + 2])
    ensures Parent(c) == h && forall i :: 1 <= i < n && Parent(i) == h ==> Leq(o, s[c], s[i])
  {
    ChildrenOf(h, c);
    forall i | 1 <= i < n && Parent(i) == h ensures Leq(o, s[c], s[i]) {
      ChildrenOf(h, i);
    }
  }

  // ---------------------------------------------------------------------------
  // The heap
  // ---------------------------------------------------------------------------

  ghost predicate IsMinOf(o: Order, x: IdVal, m: multiset<IdVal>) {
    x in m && forall y :: y in m ==> Leq(o, x, y)
  }

  lemma RootIsMinItem(o: Order, s: seq<IdVal>, n: nat)
    requires 0 < n <= |s| && HeapOrder(o, s, n)
    ensures IsMinOf(o, s[0], Items(s, n))
  {
    assert s[0] == s[..n][0];
    forall y | y in Items(s, n) ensures Leq(o, s[0], y) {
      var i :| 0 <= i < n && s[..n][i] == y;
      RootIsMin(o, s, n, i);
    }
  }

  /** A leaf hole can be filled with anything and left to climb. */
  lemma LeafFill(o: Order, s: seq<IdVal>, n: nat, hole: nat, value: IdVal)
    requires n <= |s| && OrderAround(o, s, n, hole) && 2 * hole + 1 >= n
    ensures OrderBelow(o, s[hole := value], n, hole)
  {
    var t := s[hole := value];
    forall i | 1 <= i < n ensures Parent(i) != hole {
      ChildrenOf(hole, i);
    }
  }

  class MaxMinHeap {
    const capacity: nat
    var size: nat
    var pool: seq<IdVal>
    /** Everything pushed so far. */
    ghost var pushes: seq<IdVal>

    /** The pool is a heap by value, which every operation keeps, or even by (value, id). */
    ghost predicate Heaped(o: Order)
      reads this
    {
      capacity >= 1 && |pool| == capacity && size <= capacity && HeapOrder(o, pool, size)
    }

    ghost predicate Valid()
      reads this
    {
      Heaped(ByValue)
    }

    ghost function Contents(): multiset<IdVal>
      requires Valid()
      reads this
    {
      Items(pool, size)
    }

    constructor (capacity: nat)
      requires capacity >= 1
      ensures Heaped(ByPair) && Valid() && this.capacity == capacity && size == 0 && Contents() == multiset{}
      ensures pushes == []
    {
      this.capacity := capacity;
      size := 0;
      pushes := [];
      pool := seq(capacity, _ => IdVal(0, 0.0));
    }

    /** Room left: append and climb. Full: replace the root if the newcomer is larger. A newcomer
        that no other item undercuts stays at the root. */
    method Push(id: nat, val: real)
      requires Valid()
      modifies this
      ensures Valid() && pushes == old(pushes) + [IdVal(id, val)]
      ensures old(size) < capacity ==> Contents() == old(Contents()) + multiset{IdVal(id, val)} && size == old(size) + 1
      ensures old(size) < capacity && old(Heaped(ByPair)) ==> Heaped(ByPair)
      ensures old(size) == capacity ==> size == capacity
      ensures old(size) == capacity && val <= old(pool[0].val) ==> pool == old(pool)
      ensures old(size) == capacity && val > old(pool[0].val) ==>
                Contents() + multiset{old(pool[0])} == old(Contents()) + multiset{IdVal(id, val)}
      ensures old(size) == capacity && val > old(pool[0].val)
              && (forall c :: 1 <= c < capacity ==> val <= old(pool)[c].val) ==>
                pool == old(pool)[0 := IdVal(id, val)]
    {
      var item := IdVal(id, val);
      pushes := pushes + [item];
      if size < capacity {
        pool := Append(if Heaped(ByPair) then ByPair else ByValue, pool, size, item);
        size := size + 1;
      } else if val > pool[0].val {
        pool := ReplaceRoot(pool, size, item);
      }
    }

    /** std::pop_heap moves the root past the end; its id is returned. */
    method Pop() returns (id: nat, ghost item: IdVal)
      requires Valid() && size > 0
      modifies this
      ensures Valid() && size == old(size) - 1 && pushes == old(pushes)
      ensures item == old(pool[0]) && item.id == id && IsMinOf(ByValue, item, old(Contents()))
      ensures old(Heaped(ByPair)) ==> Heaped(ByPair) && IsMinOf(ByPair, item, old(Contents()))
      ensures Contents() == old(Contents()) - multiset{item}
    {
      ghost var o := if Heaped(ByPair) then ByPair else ByValue;
      RootIsMinItem(ByValue, pool, size);
      RootIsMinItem(o, pool, size);
      item := pool[0];
      pool := PopHeap(o, pool, size);
      size := size - 1;
      id := pool[size].id;
    }
  }

  /** __adjust_heap: the hole sinks to a leaf, then the value climbs from there. */
  method AdjustHeap(ghost o: Order, pool: seq<IdVal>, n: nat, value: IdVal) returns (r: seq<IdVal>)
    requires 0 < n <= |pool| && HeapOrder(o, pool, n)
    ensures |r| == |pool| && r[n..] == pool[n..] && HeapOrder(o, r, n)
    ensures Items(r, n) == Items(pool[0 := value], n)
  {
    var hole;
    r, hole := DescendToLeaf(o, pool, n, value);
    LeafFill(o, r, n, hole, value);
    r := SiftUp(o, r, n, hole, value);
  }

  /** std::pop_heap on the first `size` entries. */
  method PopHeap(ghost o: Order, pool: seq<IdVal>, size: nat) returns (r: seq<IdVal>)
    requires 0 < size <= |pool| && HeapOrder(o, pool, size)
    ensures |r| == |pool| && HeapOrder(o, r, size - 1) && r[size - 1] == pool[0]
    ensures Items(r, size - 1) == Items(pool, size) - multiset{pool[0]}
  {
    if size == 1 {
      assert pool[..1] == [pool[0]];
      return pool;
    }
    var n := size - 1;
    var moved := pool[n := pool[0]];
    RemoveRoot(pool, n);
    assert HeapOrder(o, moved, n);
    r := AdjustHeap(o, moved, n, pool[n]);
    assert r[n] == r[n..][0] == moved[n..][0];
  }

  /** push_heap after storing the item behind the first n. */
  method Append(ghost o: Order, pool: seq<IdVal>, n: nat, item: IdVal) returns (r: seq<IdVal>)
    requires n < |pool| && HeapOrder(o, pool, n)
    ensures |r| == |pool| && HeapOrder(o, r, n + 1) && Items(r, n + 1) == Items(pool, n) + multiset{item}
  {
    var longer := pool[n := item];
    assert longer[..n + 1] == pool[..n] + [item];
    AppendBelow(o, pool, n, item);
    assert longer == longer[n := item];
    r := SiftUp(o, longer, n + 1, n, item);
  }

  /** sift_down as push calls it. */
  method ReplaceRoot(pool: seq<IdVal>, n: nat, item: IdVal) returns (r: seq<IdVal>)
    requires 0 < n <= |pool| && HeapOrder(ByValue, pool, n) && item.val >= pool[0].val
    ensures |r| == |pool| && HeapOrder(ByValue, r, n)
    ensures Items(r, n) + multiset{pool[0]} == Items(pool, n) + multiset{item}
    ensures (forall c :: 1 <= c < n ==> item.val <= pool[c].val) ==> r == pool[0 := item]
  {
    ReplaceItem(pool, n, 0, item);
    assert pool[0] == pool[..n][0];
    r := SiftDown(pool, n, item);
  }

  lemma AppendBelow(o: Order, s: seq<IdVal>, n: nat, item: IdVal)
    requires n < |s| && HeapOrder(o, s, n)
    ensures OrderBelow(o, s[n := item], n + 1, n)
  {
    forall i | 1 <= i < n + 1 ensures Parent(i) != n {
      ChildrenOf(n, i);
    }
  }

  /** Taking the last item as the value to place and the root out keeps the other items. */
  lemma RemoveRoot(s: seq<IdVal>, n: nat)
    requires 0 < n < |s|
    ensures Items(s[n := s[0]][0 := s[n]], n) == Items(s, n + 1) - multiset{s[0]}
  {
    var t := s[n := s[0]];
    assert t[..n] == s[..n];
    assert s[..n + 1] == s[..n] + [s[n]];
    assert s[..n] == [s[0]] + s[1..n];
    assert t[0 := s[n]][..n] == [s[n]] + s[1..n];
  }

  /** sift_down: compares values only; the item being placed is larger than everything above it. */
  method SiftDown(pool: seq<IdVal>, n: nat, item: IdVal) returns (r: seq<IdVal>)
    requires 0 < n <= |pool| && HeapOrder(ByValue, pool, n) && item.val >= pool[0].val
    ensures |r| == |pool| && HeapOrder(ByValue, r, n) && Items(r, n) == Items(pool[0 := item], n)
    ensures (forall c :: 1 <= c < n ==> item.val <= pool[c].val) ==> r == pool[0 := item]
  {
    r := pool;
    var i: nat := 0;
    while 2 * i + 1 < n
      invariant Descent(ByValue, pool, r, n, i, item)
      invariant i > 0 ==> r[Parent(i)].val <= item.val
      invariant (forall c :: 1 <= c < n ==> item.val <= pool[c].val) ==> i == 0 && r == pool
      decreases n - i
    {
      var j := ChooseChild(r, n, i, item.val);
      if i == j {
        break;
      }
      ChildrenOf(i, j);
      r := MoveUp(ByValue, pool, r, n, i, j, item);
      i := j;
    }
    FillKeepsOrder(r, n, i, item);
    r := r[i := item];
  }

  /** The smaller child if it is below `val`, else the position itself. */
  method ChooseChild(r: seq<IdVal>, n: nat, i: nat, val: real) returns (j: nat)
    requires n <= |r| && 2 * i + 1 < n
    ensures j == i ==> forall c :: 1 <= c < n && Parent(c) == i ==> val <= r[c].val
    ensures j != i ==> j < n && (j == 2 * i + 1 || j == 2 * i + 2) && r[j].val < val && r[j].val <= r[2 * i + 1].val
    ensures j != i && 2 * i + 2 < n ==> r[j].val <= r[2 * i + 2].val
  {
    j := i;
    var left, right := 2 * i + 1, 2 * i + 2;
    if r[left].val < val {
      j := left;
    }
    if right < n && r[right].val < (if val < r[left].val then val else r[left].val) {
      j := right;
    }
    if j == i {
      forall c | 1 <= c < n && Parent(c) == i ensures val <= r[c].val {
        ChildrenOf(i, c);
      }
    }
  }

  lemma FillKeepsOrder(s: seq<IdVal>, n: nat, i: nat, item: IdVal)
    requires n <= |s| && OrderAround(ByValue, s, n, i) && (i > 0 ==> s[Parent(i)].val <= item.val)
    requires 2 * i + 1 < n ==> forall c :: 1 <= c < n && Parent(c) == i ==> item.val <= s[c].val
    ensures HeapOrder(ByValue, s[i := item], n)
  {
    var t := s[i := item];
    forall k | 1 <= k < n ensures t[Parent(k)].val <= t[k].val {
      ChildrenOf(i, k);
    }
  }

  // ---------------------------------------------------------------------------
  // Whole runs
  // ---------------------------------------------------------------------------

  /** `kept` is as many of `all` as fit, and nothing left out is larger than anything kept. */
  ghost predicate KeepsLargest(all: multiset<IdVal>, kept: multiset<IdVal>, capacity: nat) {
    && kept <= all
    && |kept| == (if |all| < capacity then |all| else capacity)
    && forall x, y :: x in kept && y in all - kept ==> y.val <= x.val
  }

  lemma KeepsNothing(capacity: nat)
    ensures KeepsLargest(multiset{}, multiset{}, capacity)
  {
  }

  lemma Longer(items: seq<IdVal>, k: nat)
    requires k < |items|
    ensures multiset(items[..k + 1]) == multiset(items[..k]) + multiset{items[k]}
  {
    assert items[..k + 1] == items[..k] + [items[k]];
  }

  lemma KeepsWithRoom(all: multiset<IdVal>, kept: multiset<IdVal>, capacity: nat, x: IdVal)
    requires KeepsLargest(all, kept, capacity) && |kept| < capacity
    ensures KeepsLargest(all + multiset{x}, kept + multiset{x}, capacity)
  {
    assert |all - kept| == |all| - |kept|;
    assert all - kept == multiset{};
    assert all + multiset{x} - (kept + multiset{x}) == multiset{};
  }

  lemma KeepsWhenSmall(all: multiset<IdVal>, kept: multiset<IdVal>, capacity: nat, x: IdVal, root: IdVal)
    requires KeepsLargest(all, kept, capacity) && |kept| == capacity && IsMinOf(ByValue, root, kept)
    requires x.val <= root.val
    ensures KeepsLargest(all + multiset{x}, kept, capacity)
  {
    forall a, b | a in kept && b in all + multiset{x} - kept ensures b.val <= a.val {
      assert b in all - kept || b == x;
    }
  }

  lemma KeepsWhenReplaced(all: multiset<IdVal>, kept: multiset<IdVal>, capacity: nat, x: IdVal, root: IdVal,
                          next: multiset<IdVal>)
    requires KeepsLargest(all, kept, capacity) && |kept| == capacity && IsMinOf(ByValue, root, kept) && x.val > root.val
    requires next + multiset{root} == kept + multiset{x}
    ensures KeepsLargest(all + multiset{x}, next, capacity)
  {
    assert |next + multiset{root}| == |kept + multiset{x}|;
    assert next == kept + multiset{x} - multiset{root};
    var rest := all + multiset{x} - next;
    assert rest == (all - kept) + multiset{root};
    forall a, b | a in next && b in rest ensures b.val <= a.val {
      assert a in kept || a == x;
      assert b in all - kept || b == root;
    }
  }

  /** One more push keeps the heap on the `capacity` largest, and while it finds room, or room is
      for one item only, also on pair order. */
  method PushKeeping(heap: MaxMinHeap, item: IdVal, ghost all: multiset<IdVal>)
    requires heap.Valid() && KeepsLargest(all, heap.Contents(), heap.capacity)
    modifies heap
    ensures heap.Valid() && KeepsLargest(all + multiset{item}, heap.Contents(), heap.capacity)
    ensures heap.pushes == old(heap.pushes) + [item]
    ensures old(heap.Heaped(ByPair)) && (|all| < heap.capacity || heap.capacity == 1) ==> heap.Heaped(ByPair)
  {
    ghost var kept, full := heap.Contents(), heap.size == heap.capacity;
    assert |kept| == heap.size;
    ghost var root := heap.pool[0];
    if full {
      RootIsMinItem(ByValue, heap.pool, heap.size);
    }
    heap.Push(item.id, item.val);
    assert item == IdVal(item.id, item.val);
    if !full {
      KeepsWithRoom(all, kept, heap.capacity, item);
    } else if item.val <= root.val {
      KeepsWhenSmall(all, kept, heap.capacity, item, root);
    } else {
      KeepsWhenReplaced(all, kept, heap.capacity, item, root, heap.Contents());
    }
  }

  /** After any sequence of pushes the heap holds the `capacity` largest of them. */
  method PushAll(items: seq<IdVal>, capacity: nat) returns (heap: MaxMinHeap)
    requires capacity >= 1
    ensures fresh(heap) && heap.Valid() && heap.capacity == capacity
    ensures heap.pushes == items && KeepsLargest(multiset(items), heap.Contents(), capacity)
    ensures |items| <= capacity || capacity == 1 ==> heap.Heaped(ByPair)
  {
    heap := new MaxMinHeap(capacity);
    KeepsNothing(capacity);
    for k := 0 to |items|
      invariant heap.Valid() && heap.capacity == capacity && fresh(heap)
      invariant heap.pushes == items[..k] && KeepsLargest(multiset(items[..k]), heap.Contents(), capacity)
      invariant k <= capacity || capacity == 1 ==> heap.Heaped(ByPair)
    {
      Longer(items, k);
      PushKeeping(heap, items[k], multiset(items[..k]));
    }
    assert items[..|items|] == items;
  }

  ghost predicate Ascending(o: Order, s: seq<IdVal>) {
    forall i, j :: 0 <= i <= j < |s| ==> Leq(o, s[i], s[j])
  }

  function Ids(s: seq<IdVal>): (r: seq<nat>)
    ensures |r| == |s| && forall i :: 0 <= i < |s| ==> r[i] == s[i].id
  {
    seq(|s|, i requires 0 <= i < |s| => s[i].id)
  }

  /** Popped so far, in order, and nothing popped is larger than anything left. */
  ghost predicate Drained(o: Order, popped: seq<IdVal>, left: multiset<IdVal>, all: multiset<IdVal>) {
    && Ascending(o, popped) && multiset(popped) + left == all
    && forall i, y :: 0 <= i < |popped| && y in left ==> Leq(o, popped[i], y)
  }

  lemma DrainStep(o: Order, popped: seq<IdVal>, left: multiset<IdVal>, all: multiset<IdVal>, item: IdVal,
                  next: multiset<IdVal>)
    requires Drained(o, popped, left, all) && IsMinOf(o, item, left) && next == left - multiset{item}
    ensures Drained(o, popped + [item], next, all)
  {
    assert left == next + multiset{item};
    assert multiset(popped + [item]) == multiset(popped) + multiset{item};
    forall y | y in next ensures y in left {
    }
  }

  /** Draining by pop yields every item's id once, in non-decreasing order of value, and from a
      pair-ordered pool with ties by id. */
  method Drain(heap: MaxMinHeap) returns (ids: seq<nat>, ghost popped: seq<IdVal>)
    requires heap.Valid()
    modifies heap
    ensures heap.Valid() && heap.size == 0
    ensures ids == Ids(popped) && multiset(popped) == old(heap.Contents())
    ensures forall i, j :: 0 <= i < j < |popped| ==> popped[i].val <= popped[j].val
    ensures old(heap.Heaped(ByPair)) ==> forall i, j :: 0 <= i < j < |popped| ==>
      popped[i].val < popped[j].val || (popped[i].val == popped[j].val && popped[i].id <= popped[j].id)
  {
    ids, popped := [], [];
    ghost var o := if heap.Heaped(ByPair) then ByPair else ByValue;
    ghost var all := heap.Contents();
    while heap.size > 0
      invariant heap.Valid() && heap.Heaped(o) && ids == Ids(popped)
      invariant Drained(o, popped, heap.Contents(), all)
      decreases heap.size
    {
      var id;
      ghost var item;
      id, item := DrainOne(o, heap, popped, all);
      IdsAppend(popped, item);
      ids, popped := ids + [id], popped + [item];
    }
    assert heap.pool[..0] == [];
    DrainEnd(o, popped, heap.Contents(), all);
  }

  lemma IdsAppend(popped: seq<IdVal>, item: IdVal)
    ensures Ids(popped + [item]) == Ids(popped) + [item.id]
  {
  }

  lemma DrainEnd(o: Order, popped: seq<IdVal>, left: multiset<IdVal>, all: multiset<IdVal>)
    requires Drained(o, popped, left, all) && left == multiset{}
    ensures Ascending(ByValue, popped) && Ascending(o, popped) && multiset(popped) == all
  {
  }

  method DrainOne(ghost o: Order, heap: MaxMinHeap, ghost popped: seq<IdVal>, ghost all: multiset<IdVal>)
    returns (id: nat, ghost item: IdVal)
    requires heap.Valid() && heap.Heaped(o) && heap.size > 0 && Drained(o, popped, heap.Contents(), all)
    modifies heap
    ensures heap.Valid() && heap.Heaped(o) && heap.size == old(heap.size) - 1 && item.id == id
    ensures Drained(o, popped + [item], heap.Contents(), all)
  {
    ghost var left := heap.Contents();
    id, item := heap.Pop();
    DrainStep(o, popped, left, all, item, heap.Contents());
  }

  // ---------------------------------------------------------------------------
  // When ties do not come out by id
  // ---------------------------------------------------------------------------

  /** One item of value 0 and more of value 1, with increasing ids. */
  function Ties(n: nat, capacity: nat): (items: seq<IdVal>)
    requires n > 0
    ensures |items| == n && items[0] == IdVal(0, 0.0)
    ensures forall k :: 0 < k < n ==> items[k] == IdVal(k, if k <= capacity then 1.0 else 0.0)
  {
    seq(n, k requires 0 <= k < n => IdVal(k, if 0 < k <= capacity then 1.0 else 0.0))
  }

  lemma {:induction false} CountOf(s: seq<IdVal>, x: IdVal, i: nat, j: nat)
    requires i < j < |s| && s[i] == s[j] == x
    ensures multiset(s)[x] >= 2
  {
    assert s == s[..j] + [s[j]] + s[j + 1..];
    assert s[i] in s[..j];
  }

  lemma {:induction false} OnlyFirst(n: nat, capacity: nat)
    requires 0 < n <= capacity
    ensures multiset(Ties(n, capacity))[IdVal(0, 0.0)] == 1
  {
    var s := Ties(n, capacity);
    assert s == [s[0]] + s[1..];
    assert IdVal(0, 0.0) !in s[1..];
  }

  /** Full of these, the root is the item of value 0 and everything else has value 1. */
  lemma FullOfTies(pool: seq<IdVal>, capacity: nat)
    requires capacity >= 1 && |pool| == capacity && HeapOrder(ByValue, pool, capacity)
    requires Items(pool, capacity) == multiset(Ties(capacity, capacity))
    ensures pool[0] == IdVal(0, 0.0) && forall c :: 1 <= c < capacity ==> pool[c].val == 1.0
  {
    var s := Ties(capacity, capacity);
    assert pool[..capacity] == pool;
    RootIsMinItem(ByValue, pool, capacity);
    assert s[0] in multiset(s);
    forall c | 0 <= c < capacity ensures pool[c] in s {
      assert pool[c] in multiset(pool);
      assert pool[c] in multiset(s);
    }
    OnlyFirst(capacity, capacity);
    forall c | 1 <= c < capacity ensures pool[c].val == 1.0 {
      if pool[c] == IdVal(0, 0.0) {
        CountOf(pool, pool[c], 0, c);
      }
    }
  }

  /** For every capacity above 1 and every number of pushes beyond it, some run of pushes leaves a
      heap whose next item out is above another one by id alone. */
  method TieBroken(capacity: nat, n: nat) returns (heap: MaxMinHeap)
    requires capacity >= 2 && n > capacity
    ensures fresh(heap) && heap.Valid() && heap.capacity == capacity && |heap.pushes| == n && heap.size == capacity
    ensures exists y :: y in heap.Contents() && y.val == heap.pool[0].val && y.id < heap.pool[0].id
  {
    var items := Ties(n, capacity);
    heap := FillTies(capacity, items);
    for k := capacity + 1 to n
      invariant heap.Valid() && heap.capacity == heap.size == capacity && fresh(heap) && |heap.pushes| == k
      invariant heap.pool[0] == IdVal(capacity, 1.0) && IdVal(1, 1.0) in heap.Contents()
    {
      heap.Push(items[k].id, items[k].val);
    }
  }

  /** The first `capacity` + 1 pushes of that run. */
  method FillTies(capacity: nat, items: seq<IdVal>) returns (heap: MaxMinHeap)
    requires capacity >= 2 && |items| > capacity && items == Ties(|items|, capacity)
    ensures fresh(heap) && heap.Valid() && heap.capacity == heap.size == capacity && |heap.pushes| == capacity + 1
    ensures heap.pool[0] == IdVal(capacity, 1.0) && IdVal(1, 1.0) in heap.Contents()
  {
    assert items[..capacity] == Ties(capacity, capacity);
    heap := PushAll(items[..capacity], capacity);
    KeepsEverything(multiset(items[..capacity]), heap.Contents(), capacity);
    assert |heap.Contents()| == heap.size;
    FullOfTies(heap.pool, capacity);
    ghost var before, kept := heap.pool, heap.Contents();
    assert items[1] in multiset(items[..capacity]) by {
      assert items[..capacity][1] == items[1];
    }
    heap.Push(items[capacity].id, items[capacity].val);
    assert IdVal(1, 1.0) in heap.Contents() + multiset{before[0]};
  }

  lemma KeepsEverything(all: multiset<IdVal>, kept: multiset<IdVal>, capacity: nat)
    requires KeepsLargest(all, kept, capacity) && |all| == capacity
    ensures kept == all
  {
    assert |all - kept| == |all| - |kept|;
    assert all - kept == multiset{};
  }
}
