/** The heaps of a graph search: faiss's binary heap of (distance, id) pairs, and MinimaxHeap, which
    also gives out its nearest entry. Renaming the ids of a heap without ties renames everything
    the heap does, position by position.
 */
module MinimaxHeaps {
  import opened HnswLayout

  datatype Entry = Entry(dis: real, id: int)

  /** CMax::cmp2 */
  predicate Above(a: Entry, b: Entry) {
    a.dis > b.dis || (a.dis == b.dis && a.id > b.id)
  }

  // ---------------------------------------------------------------------------
  // The heap functions
  // ---------------------------------------------------------------------------

  function Father(i: nat): (p: nat)
    requires i > 0
    ensures p < i
  {
    (i - 1) / 2
  }

  /** The loop of heap_push: the hole at i climbs past every entry that e is above. */
  function Climb(h: seq<Entry>, i: nat, e: Entry): (r: seq<Entry>)
    requires i < |h|
    ensures |r| == |h|
    decreases i
  {
    if i > 0 && Above(e, h[Father(i)]) then Climb(h[i := h[Father(i)]], Father(i), e) else h[i := e]
  }

  function LargerChild(h: seq<Entry>, i: nat): (c: nat)
    requires 2 * i + 1 < |h|
    ensures i < c < |h|
  {
    if 2 * i + 2 == |h| || Above(h[2 * i + 1], h[2 * i + 2]) then 2 * i + 1 else 2 * i + 2
  }

  /** The loop of heap_pop and heap_replace_top: the hole at i sinks below every larger child that
      e is not above. */
  function Sink(h: seq<Entry>, i: nat, e: Entry): (r: seq<Entry>)
    requires i < |h|
    ensures |r| == |h|
    decreases |h| - i
  {
    if 2 * i + 1 >= |h| then h[i := e]
    else
      var c := LargerChild(h, i);
      if Above(e, h[c]) then h[i := e] else Sink(h[i := h[c]], c, e)
  }

  /** heap_push */
  function Joined(h: seq<Entry>, e: Entry): (r: seq<Entry>)
    ensures |r| == |h| + 1
  {
    Climb(h + [e], |h|, e)
  }

  method HeapPush(h: seq<Entry>, e: Entry) returns (r: seq<Entry>)
    ensures r == Joined(h, e) && multiset(r) == multiset(h) + multiset{e}
    ensures forall o :: Heaped(o, h) ==> Heaped(o, r)
  {
    JoinedContents(h, e);
    forall o | Heaped(o, h) ensures Heaped(o, Joined(h, e)) {
      JoinedHeaped(o, h, e);
    }
    r := h + [e];
    var i: nat := |h|;
    while i > 0 && Above(e, r[Father(i)])
      invariant i < |r| == |h| + 1 && Climb(r, i, e) == Climb(h + [e], |h|, e)
    {
      r, i := r[i := r[Father(i)]], Father(i);
    }
    r := r[i := e];
  }

  method HeapSink(h: seq<Entry>, e: Entry) returns (r: seq<Entry>)
    requires |h| > 0
    ensures r == Sink(h, 0, e) && multiset(r) == multiset(h[0 := e])
    ensures forall o :: Heaped(o, h) ==> Heaped(o, r)
  {
    SinkPermutes(h, 0, e);
    forall o | Heaped(o, h) ensures Heaped(o, Sink(h, 0, e)) {
      SinkHeaped(o, h, 0, e);
    }
    r := h;
    var i := 0;
    while 2 * i + 1 < |h|
      invariant i < |r| == |h| && Sink(r, i, e) == Sink(h, 0, e)
      decreases |h| - i
    {
      var c := LargerChild(r, i);
      if Above(e, r[c]) {
        break;
      }
      r, i := r[i := r[c]], c;
    }
    r := r[i := e];
  }

  // Both loops permute.

  lemma MoveHole(h: seq<Entry>, i: nat, c: nat, e: Entry)
    requires i < |h| && c < |h| && i != c
    ensures multiset(h[i := h[c]][c := e]) == multiset(h[i := e])
  {
    var u := h[i := h[c]];
    assert multiset(u) == multiset(h) - multiset{h[i]} + multiset{h[c]};
    assert multiset(u[c := e]) == multiset(u) - multiset{h[c]} + multiset{e};
  }

  lemma {:induction false} ClimbPermutes(h: seq<Entry>, i: nat, e: Entry)
    requires i < |h|
    ensures multiset(Climb(h, i, e)) == multiset(h[i := e])
    decreases i
  {
    if i > 0 && Above(e, h[Father(i)]) {
      ClimbPermutes(h[i := h[Father(i)]], Father(i), e);
      MoveHole(h, i, Father(i), e);
    }
  }

  lemma {:induction false} SinkPermutes(h: seq<Entry>, i: nat, e: Entry)
    requires i < |h|
    ensures multiset(Sink(h, i, e)) == multiset(h[i := e])
    decreases |h| - i
  {
    if 2 * i + 1 < |h| && !Above(e, h[LargerChild(h, i)]) {
      var c := LargerChild(h, i);
      SinkPermutes(h[i := h[c]], c, e);
      MoveHole(h, i, c, e);
    }
  }

  lemma {:induction false} SinkLast(h: seq<Entry>, i: nat, e: Entry)
    requires i < |h| && h[|h| - 1] == e
    ensures Sink(h, i, e)[|h| - 1] == e
    decreases |h| - i
  {
    if 2 * i + 1 < |h| && !Above(e, h[LargerChild(h, i)]) {
      SinkLast(h[i := h[LargerChild(h, i)]], LargerChild(h, i), e);
    }
  }

  // Both loops keep heap order.

  /** The orders a heap may be in: by distance, or by distance and id. */
  datatype Order = ByDistance | ByPair

  predicate AtMost(o: Order, a: Entry, b: Entry) {
    if o == ByPair then !Above(a, b) else a.dis <= b.dis
  }

  ghost predicate Heaped(o: Order, h: seq<Entry>) {
    forall j :: 0 < j < |h| ==> AtMost(o, h[j], h[Father(j)])
  }

  /** Heap order everywhere but at the hole, and across the hole. */
  ghost predicate HeapedAround(o: Order, h: seq<Entry>, i: nat) {
    && i < |h| && (forall j :: 0 < j < |h| && j != i && Father(j) != i ==> AtMost(o, h[j], h[Father(j)]))
    && (i > 0 ==> forall j :: 0 < j < |h| && Father(j) == i ==> AtMost(o, h[j], h[Father(i)]))
  }

  lemma {:induction false} ClimbHeaped(o: Order, h: seq<Entry>, i: nat, e: Entry)
    requires HeapedAround(o, h, i) && forall j :: 0 < j < |h| && Father(j) == i ==> AtMost(o, h[j], e)
    ensures Heaped(o, Climb(h, i, e))
    decreases i
  {
    if i > 0 && Above(e, h[Father(i)]) {
      ClimbHeaped(o, h[i := h[Father(i)]], Father(i), e);
    }
  }

  lemma {:induction false} SinkHeaped(o: Order, h: seq<Entry>, i: nat, e: Entry)
    requires HeapedAround(o, h, i) && (i > 0 ==> AtMost(o, e, h[Father(i)]))
    ensures Heaped(o, Sink(h, i, e))
    decreases |h| - i
  {
    if 2 * i + 1 < |h| {
      var c := LargerChild(h, i);
      Children(o, h, i);
      if Above(e, h[c]) {
        SinkEnds(o, h, i, e);
      } else {
        SinkGoesOn(o, h, i);
        SinkHeaped(o, h[i := h[c]], c, e);
      }
    }
  }

  lemma Children(o: Order, h: seq<Entry>, i: nat)
    requires 2 * i + 1 < |h|
    ensures Father(LargerChild(h, i)) == i
    ensures forall j :: 0 < j < |h| && Father(j) == i ==> AtMost(o, h[j], h[LargerChild(h, i)])
  {
    forall j | 0 < j < |h| && Father(j) == i ensures j == 2 * i + 1 || j == 2 * i + 2 {
    }
  }

  lemma SinkEnds(o: Order, h: seq<Entry>, i: nat, e: Entry)
    requires HeapedAround(o, h, i) && (i > 0 ==> AtMost(o, e, h[Father(i)])) && 2 * i + 1 < |h|
    requires Above(e, h[LargerChild(h, i)])
    requires forall j :: 0 < j < |h| && Father(j) == i ==> AtMost(o, h[j], h[LargerChild(h, i)])
    ensures Heaped(o, h[i := e])
  {
  }

  lemma SinkGoesOn(o: Order, h: seq<Entry>, i: nat)
    requires HeapedAround(o, h, i) && 2 * i + 1 < |h| && Father(LargerChild(h, i)) == i
    requires forall j :: 0 < j < |h| && Father(j) == i ==> AtMost(o, h[j], h[LargerChild(h, i)])
    ensures HeapedAround(o, h[i := h[LargerChild(h, i)]], LargerChild(h, i))
  {
    var c := LargerChild(h, i);
    var r := h[i := h[c]];
    forall j | 0 < j < |h| && j != c && Father(j) != c ensures AtMost(o, r[j], r[Father(j)]) {
      if j == i {
        assert AtMost(o, h[c], h[Father(i)]);
      }
    }
  }

  lemma {:induction false} TopIsFarthest(o: Order, h: seq<Entry>, i: nat)
    requires Heaped(o, h) && i < |h|
    ensures AtMost(o, h[i], h[0])
  {
    if i > 0 {
      TopIsFarthest(o, h, Father(i));
    }
  }

  lemma JoinedContents(h: seq<Entry>, e: Entry)
    ensures multiset(Joined(h, e)) == multiset(h) + multiset{e}
  {
    ClimbPermutes(h + [e], |h|, e);
    assert (h + [e])[|h| := e] == h + [e];
  }

  lemma JoinedHeaped(o: Order, h: seq<Entry>, e: Entry)
    requires Heaped(o, h)
    ensures Heaped(o, Joined(h, e))
  {
    ClimbHeaped(o, h + [e], |h|, e);
  }

  // Both loops commute with renaming as long as ties are between entries with the same id.

  function Renamed(inv: seq<nat>, e: Entry): Entry
    requires e.id < |inv|
  {
    Entry(e.dis, RelabelOne(inv, e.id))
  }

  ghost predicate InRange(h: seq<Entry>, n: nat) {
    forall i :: 0 <= i < |h| ==> -1 <= h[i].id < n
  }

  function RenamedAll(inv: seq<nat>, h: seq<Entry>): (r: seq<Entry>)
    requires InRange(h, |inv|)
    ensures |r| == |h| && forall i :: 0 <= i < |h| ==> r[i] == Renamed(inv, h[i])
  {
    seq(|h|, i requires 0 <= i < |h| => Renamed(inv, h[i]))
  }

  ghost predicate Agree(a: Entry, b: Entry) {
    a.dis == b.dis ==> a.id == b.id
  }

  ghost predicate AllAgree(h: seq<Entry>) {
    forall i, j :: 0 <= i < |h| && 0 <= j < |h| ==> Agree(h[i], h[j])
  }

  ghost predicate AgreesWith(h: seq<Entry>, e: Entry) {
    forall i :: 0 <= i < |h| ==> Agree(e, h[i])
  }

  lemma RenamedUpdate(inv: seq<nat>, h: seq<Entry>, i: nat, e: Entry)
    requires i < |h| && InRange(h, |inv|) && -1 <= e.id < |inv|
    ensures InRange(h[i := e], |inv|) && RenamedAll(inv, h[i := e]) == RenamedAll(inv, h)[i := Renamed(inv, e)]
  {
  }

  lemma {:induction false} ClimbRenamed(inv: seq<nat>, h: seq<Entry>, i: nat, e: Entry)
    requires i < |h| && InRange(h, |inv|) && -1 <= e.id < |inv| && AllAgree(h) && AgreesWith(h, e)
    ensures InRange(Climb(h, i, e), |inv|)
    ensures Climb(RenamedAll(inv, h), i, Renamed(inv, e)) == RenamedAll(inv, Climb(h, i, e))
    decreases i
  {
    RenamedUpdate(inv, h, i, e);
    if i > 0 && Above(e, h[Father(i)]) {
      RenamedUpdate(inv, h, i, h[Father(i)]);
      ClimbRenamed(inv, h[i := h[Father(i)]], Father(i), e);
    }
  }

  lemma {:induction false} SinkRenamed(inv: seq<nat>, h: seq<Entry>, i: nat, e: Entry)
    requires i < |h| && InRange(h, |inv|) && -1 <= e.id < |inv| && AllAgree(h) && AgreesWith(h, e)
    ensures InRange(Sink(h, i, e), |inv|)
    ensures Sink(RenamedAll(inv, h), i, Renamed(inv, e)) == RenamedAll(inv, Sink(h, i, e))
    decreases |h| - i
  {
    RenamedUpdate(inv, h, i, e);
    if 2 * i + 1 < |h| {
      var c := LargerChild(h, i);
      ChildRenamed(inv, h, i);
      if !Above(e, h[c]) {
        RenamedUpdate(inv, h, i, h[c]);
        SinkRenamed(inv, h[i := h[c]], c, e);
      }
    }
  }

  lemma ChildRenamed(inv: seq<nat>, h: seq<Entry>, i: nat)
    requires 2 * i + 1 < |h| && InRange(h, |inv|) && AllAgree(h)
    ensures LargerChild(RenamedAll(inv, h), i) == LargerChild(h, i)
  {
    if 2 * i + 2 < |h| {
      assert Agree(h[2 * i + 1], h[2 * i + 2]);
    }
  }

  // ---------------------------------------------------------------------------
  // MinimaxHeap
  // ---------------------------------------------------------------------------

  /** How many entries have been taken out; they keep their place and distance, with id -1. */
  function Taken(h: seq<Entry>): (n: nat)
    ensures n <= |h|
  {
    if |h| == 0 then 0 else Taken(h[..|h| - 1]) + if h[|h| - 1].id == -1 then 1 else 0
  }

  /** MinimaxHeap: entries in heap order, at most `capacity` of them, `valid` not taken out. */
  datatype Candidates = Candidates(capacity: nat, entries: seq<Entry>, valid: nat) {
    ghost predicate Valid() {
      0 < capacity && |entries| <= capacity && valid == |entries| - Taken(entries)
    }
  }

  /** heap_pop */
  function WithoutTop(h: seq<Entry>): (r: seq<Entry>)
    requires |h| > 0
    ensures |r| == |h| - 1
  {
    Sink(h, 0, h[|h| - 1])[..|h| - 1]
  }

  lemma WithoutTopPermutes(h: seq<Entry>)
    requires |h| > 0
    ensures multiset(WithoutTop(h)) + multiset{h[0]} == multiset(h)
  {
    var last, r := h[|h| - 1], Sink(h, 0, h[|h| - 1]);
    assert multiset(r) == multiset(h) - multiset{h[0]} + multiset{last} by {
      SinkPermutes(h, 0, last);
    }
    assert multiset(r) == multiset(WithoutTop(h)) + multiset{last} by {
      SinkLast(h, 0, last);
      assert r == WithoutTop(h) + [last];
    }
    assert h[0] in multiset(h);
    Trade(multiset(WithoutTop(h)), multiset(h), h[0], last);
  }

  lemma WithoutTopHeaped(o: Order, h: seq<Entry>)
    requires |h| > 0 && Heaped(o, h)
    ensures Heaped(o, WithoutTop(h))
  {
    SinkHeaped(o, h, 0, h[|h| - 1]);
  }

  lemma Trade(rest: multiset<Entry>, all: multiset<Entry>, top: Entry, last: Entry)
    requires top in all && rest + multiset{last} == all - multiset{top} + multiset{last}
    ensures rest + multiset{top} == all
  {
    Cancel(rest, all - multiset{top}, last);
  }

  lemma {:induction false} TakenSplit(a: seq<Entry>, b: seq<Entry>)
    ensures Taken(a + b) == Taken(a) + Taken(b)
  {
    if |b| == 0 {
      assert a + b == a;
    } else {
      assert (a + b)[..|a + b| - 1] == a + b[..|b| - 1];
      TakenSplit(a, b[..|b| - 1]);
    }
  }

  /** The count depends on the entries only, not on their order. */
  lemma {:induction false} TakenPermuted(a: seq<Entry>, b: seq<Entry>)
    requires multiset(a) == multiset(b)
    ensures Taken(a) == Taken(b) && |a| == |b|
    decreases |a|
  {
    assert |multiset(a)| == |a| && |multiset(b)| == |b|;
    if |a| > 0 {
      var n, x := |a| - 1, a[|a| - 1];
      assert x in multiset(b);
      var j :| 0 <= j < |b| && b[j] == x;
      var rest := WithoutAt(b, j);
      assert a == a[..n] + [x];
      Cancel(multiset(a[..n]), multiset(rest), x);
      TakenPermuted(a[..n], rest);
    }
  }

  lemma Cancel(a: multiset<Entry>, b: multiset<Entry>, x: Entry)
    requires a + multiset{x} == b + multiset{x}
    ensures a == b
  {
    assert a == (a + multiset{x}) - multiset{x} && b == (b + multiset{x}) - multiset{x};
  }

  lemma WithoutAt(b: seq<Entry>, j: nat) returns (rest: seq<Entry>)
    requires j < |b|
    ensures multiset(b) == multiset(rest) + multiset{b[j]}
    ensures Taken(b) == Taken(rest) + if b[j].id == -1 then 1 else 0
  {
    rest := b[..j] + b[j + 1..];
    assert b == b[..j] + [b[j]] + b[j + 1..];
    TakenSplit(b[..j] + [b[j]], b[j + 1..]);
    TakenSplit(b[..j], [b[j]]);
    TakenSplit(b[..j], b[j + 1..]);
    assert Taken([b[j]]) == if b[j].id == -1 then 1 else 0;
  }

  /** MinimaxHeap::push: a full heap drops its top for anything nearer and ignores the rest. */
  function Pushed(c: Candidates, e: Entry): (r: Candidates)
    requires c.Valid() && e.id != -1
    ensures r.Valid() && r.capacity == c.capacity && r.valid <= c.valid + 1
  {
    if |c.entries| < c.capacity then
      PushCounts(c.entries, e);
      Candidates(c.capacity, Joined(c.entries, e), c.valid + 1)
    else if e.dis >= c.entries[0].dis then c
    else
      DropCounts(c.entries);
      PushCounts(WithoutTop(c.entries), e);
      Candidates(c.capacity, Joined(WithoutTop(c.entries), e), c.valid - (if c.entries[0].id != -1 then 1 else 0) + 1)
  }

  /** Nothing is lost but the top of a full heap, and that only for something nearer. The top of a
      heap ordered by distance is the farthest entry, and the heap stays so ordered. */
  lemma PushedContents(c: Candidates, e: Entry)
    requires c.Valid() && e.id != -1
    ensures Heaped(ByDistance, c.entries) ==>
              Heaped(ByDistance, Pushed(c, e).entries) && forall x :: x in c.entries ==> x.dis <= c.entries[0].dis
    ensures multiset(Pushed(c, e).entries)
         == if |c.entries| < c.capacity then multiset(c.entries) + multiset{e}
            else if e.dis >= c.entries[0].dis then multiset(c.entries)
            else multiset(c.entries) - multiset{c.entries[0]} + multiset{e}
  {
    if |c.entries| < c.capacity {
      PushCounts(c.entries, e);
    } else if e.dis < c.entries[0].dis {
      DropCounts(c.entries);
      PushCounts(WithoutTop(c.entries), e);
    }
    if Heaped(ByDistance, c.entries) {
      PushedHeaped(c, e);
    }
  }

  lemma PushedMembers(c: Candidates, e: Entry)
    requires c.Valid() && e.id != -1
    ensures forall x :: x in Pushed(c, e).entries ==> x == e || x in c.entries
  {
    PushedContents(c, e);
    forall x | x in Pushed(c, e).entries ensures x == e || x in c.entries {
      assert x in multiset(Pushed(c, e).entries);
      assert x in multiset(c.entries) + multiset{e};
    }
  }

  lemma PushedHeaped(c: Candidates, e: Entry)
    requires c.Valid() && e.id != -1 && Heaped(ByDistance, c.entries)
    ensures Heaped(ByDistance, Pushed(c, e).entries) && forall x :: x in c.entries ==> x.dis <= c.entries[0].dis
  {
    forall x | x in c.entries ensures x.dis <= c.entries[0].dis {
      var i :| 0 <= i < |c.entries| && c.entries[i] == x;
      TopIsFarthest(ByDistance, c.entries, i);
    }
    JoinedHeaped(ByDistance, c.entries, e);
    if |c.entries| > 0 {
      WithoutTopHeaped(ByDistance, c.entries);
      JoinedHeaped(ByDistance, WithoutTop(c.entries), e);
    }
  }

  lemma PushCounts(h: seq<Entry>, e: Entry)
    requires e.id != -1
    ensures multiset(Joined(h, e)) == multiset(h) + multiset{e} && Taken(Joined(h, e)) == Taken(h)
  {
    JoinedContents(h, e);
    TakenPermuted(Joined(h, e), h + [e]);
    assert (h + [e])[..|h|] == h;
  }

  lemma DropCounts(h: seq<Entry>)
    requires |h| > 0
    ensures multiset(WithoutTop(h)) == multiset(h) - multiset{h[0]}
    ensures Taken(h) == Taken(WithoutTop(h)) + if h[0].id == -1 then 1 else 0
  {
    WithoutTopPermutes(h);
    TakenPermuted(h, WithoutTop(h) + [h[0]]);
    assert (WithoutTop(h) + [h[0]])[..|h| - 1] == WithoutTop(h);
  }

  method Push(c: Candidates, e: Entry) returns (r: Candidates)
    requires c.Valid() && e.id != -1
    ensures r == Pushed(c, e)
  {
    var entries, valid := c.entries, c.valid;
    if |entries| == c.capacity {
      if e.dis >= entries[0].dis {
        return c;
      }
      DropCounts(entries);
      if entries[0].id != -1 {
        valid := valid - 1;
      }
      entries := HeapSink(entries, entries[|entries| - 1]);
      entries := entries[..|entries| - 1];
    }
    entries := HeapPush(entries, e);
    r := Candidates(c.capacity, entries, valid + 1);
  }

  /** The rightmost nearest entry that has not been taken out. */
  ghost predicate IsMin(h: seq<Entry>, m: nat) {
    && m < |h| && h[m].id != -1
    && (forall i :: 0 <= i < |h| && h[i].id != -1 ==> h[m].dis <= h[i].dis)
    && (forall i :: m < i < |h| && h[i].id != -1 ==> h[m].dis < h[i].dis)
  }

  lemma {:induction false} SomeLeft(h: seq<Entry>)
    ensures Taken(h) < |h| <==> exists i :: 0 <= i < |h| && h[i].id != -1
  {
    if |h| > 0 {
      SomeLeft(h[..|h| - 1]);
      assert forall i :: 0 <= i < |h| - 1 ==> h[..|h| - 1][i] == h[i];
    }
  }

  /** The search of pop_min. */
  method FindMin(c: Candidates) returns (m: nat)
    requires c.Valid() && c.valid > 0
    ensures IsMin(c.entries, m)
  {
    var h := c.entries;
    SomeLeft(h);
    var i := |h| - 1;
    while h[i].id == -1
      invariant 0 <= i < |h| && (forall j :: i < j < |h| ==> h[j].id == -1)
      invariant exists j :: 0 <= j < |h| && h[j].id != -1
      decreases i
    {
      i := i - 1;
    }
    m := i;
    while i > 0
      invariant 0 <= i <= m < |h| && h[m].id != -1
      invariant forall j :: i <= j < |h| && h[j].id != -1 ==> h[m].dis <= h[j].dis
      invariant forall j :: m < j < |h| && h[j].id != -1 ==> h[m].dis < h[j].dis
    {
      i := i - 1;
      if h[i].id != -1 && h[i].dis < h[m].dis {
        m := i;
      }
    }
  }

  lemma OneMin(h: seq<Entry>, m: nat, n: nat)
    requires IsMin(h, m) && IsMin(h, n)
    ensures m == n
  {
  }

  /** What pop_min leaves. */
  function TakenOut(c: Candidates, m: nat): (r: Candidates)
    requires c.Valid() && m < |c.entries| && c.entries[m].id != -1
    ensures r.Valid() && r.valid == c.valid - 1
  {
    TakenUpdate(c.entries, m);
    Candidates(c.capacity, c.entries[m := Entry(c.entries[m].dis, -1)], c.valid - 1)
  }

  lemma TakenUpdate(h: seq<Entry>, m: nat)
    requires m < |h| && h[m].id != -1
    ensures Taken(h[m := Entry(h[m].dis, -1)]) == Taken(h) + 1 <= |h|
  {
    var t := Entry(h[m].dis, -1);
    assert h == h[..m] + [h[m]] + h[m + 1..] && h[m := t] == h[..m] + [t] + h[m + 1..];
    TakenSplit(h[..m] + [h[m]], h[m + 1..]);
    TakenSplit(h[..m], [h[m]]);
    TakenSplit(h[..m] + [t], h[m + 1..]);
    TakenSplit(h[..m], [t]);
    assert Taken([h[m]]) == 0 && Taken([t]) == 1;
  }

  function Closer(h: seq<Entry>, d: real): nat {
    if |h| == 0 then 0 else Closer(h[..|h| - 1], d) + if h[|h| - 1].dis < d then 1 else 0
  }

  method CountCloser(h: seq<Entry>, d: real) returns (n: nat)
    ensures n == Closer(h, d)
  {
    n := 0;
    for i := 0 to |h|
      invariant n == Closer(h[..i], d)
    {
      assert h[..i + 1][..i] == h[..i];
      if h[i].dis < d {
        n := n + 1;
      }
    }
    assert h[..|h|] == h;
  }

  // ---------------------------------------------------------------------------
  // Renaming the candidates
  // ---------------------------------------------------------------------------

  function RenamedCandidates(inv: seq<nat>, c: Candidates): Candidates
    requires InRange(c.entries, |inv|)
  {
    Candidates(c.capacity, RenamedAll(inv, c.entries), c.valid)
  }

  lemma {:induction false} TakenRenamed(inv: seq<nat>, h: seq<Entry>)
    requires InRange(h, |inv|)
    ensures Taken(RenamedAll(inv, h)) == Taken(h)
  {
    if |h| > 0 {
      var n := |h| - 1;
      TakenRenamed(inv, h[..n]);
      assert RenamedAll(inv, h)[..n] == RenamedAll(inv, h[..n]);
    }
  }

  lemma {:induction false} CloserRenamed(inv: seq<nat>, h: seq<Entry>, d: real)
    requires InRange(h, |inv|)
    ensures Closer(RenamedAll(inv, h), d) == Closer(h, d)
  {
    if |h| > 0 {
      var n := |h| - 1;
      CloserRenamed(inv, h[..n], d);
      assert RenamedAll(inv, h)[..n] == RenamedAll(inv, h[..n]);
    }
  }

  lemma MinRenamed(inv: seq<nat>, h: seq<Entry>, m: nat)
    requires InRange(h, |inv|)
    ensures IsMin(RenamedAll(inv, h), m) <==> IsMin(h, m)
  {
    var r := RenamedAll(inv, h);
    assert forall i :: 0 <= i < |h| ==> (r[i].id == -1 <==> h[i].id == -1) && r[i].dis == h[i].dis;
  }

  /** No two entries are equally far. */
  ghost predicate NoTies(h: seq<Entry>) {
    && (forall x :: x in h ==> multiset(h)[x] == 1)
    && (forall x, y :: x in h && y in h && x.dis == y.dis ==> x == y)
  }

  /** The entry's distance is a new one. */
  ghost predicate Unlike(h: seq<Entry>, e: Entry) {
    forall x :: x in h ==> x.dis != e.dis
  }

  lemma NoTiesAgree(h: seq<Entry>, e: Entry)
    requires NoTies(h) && Unlike(h, e)
    ensures AllAgree(h) && AgreesWith(h, e) && AllAgree(h + [e]) && AgreesWith(h + [e], e)
  {
    forall i, j | 0 <= i < |h| && 0 <= j < |h| ensures Agree(h[i], h[j]) {
      assert h[i] in h && h[j] in h;
    }
    forall i | 0 <= i < |h| ensures Agree(e, h[i]) {
      assert h[i] in h;
    }
  }

  lemma JoinNoTies(h: seq<Entry>, e: Entry)
    requires NoTies(h) && Unlike(h, e)
    ensures NoTies(h + [e])
  {
    assert e !in h;
    forall x | x in h + [e] ensures multiset(h + [e])[x] == 1 {
      assert x in h <==> x in multiset(h);
    }
  }

  /** Fewer entries have no more ties. */
  lemma SubNoTies(h: seq<Entry>, r: seq<Entry>)
    requires NoTies(h) && multiset(r) <= multiset(h)
    ensures NoTies(r)
  {
    forall x | x in r ensures x in h && multiset(r)[x] == 1 {
      assert x in multiset(r);
      assert multiset(r)[x] <= multiset(h)[x];
      assert x in multiset(h);
    }
  }

  lemma PushedUnlike(c: Candidates, e: Entry)
    requires c.Valid() && e.id != -1 && NoTies(c.entries) && Unlike(c.entries, e)
    ensures NoTies(Pushed(c, e).entries)
    ensures forall x :: x in Pushed(c, e).entries ==> x == e || x in c.entries
  {
    PushedMembers(c, e);
    var h, r := c.entries, Pushed(c, e).entries;
    PushedContents(c, e);
    JoinNoTies(h, e);
    assert multiset(r) <= multiset(h + [e]);
    SubNoTies(h + [e], r);
  }

  lemma PushedRenamed(inv: seq<nat>, c: Candidates, e: Entry)
    requires c.Valid() && InRange(c.entries, |inv|) && 0 <= e.id < |inv| && NoTies(c.entries) && Unlike(c.entries, e)
    ensures RenamedCandidates(inv, c).Valid() && InRange(Pushed(c, e).entries, |inv|)
    ensures Pushed(RenamedCandidates(inv, c), Renamed(inv, e)) == RenamedCandidates(inv, Pushed(c, e))
  {
    TakenRenamed(inv, c.entries);
    NoTiesAgree(c.entries, e);
    if |c.entries| < c.capacity {
      JoinRenamed(inv, c.entries, e);
    } else if e.dis < c.entries[0].dis {
      FullRenamed(inv, c, e);
    }
  }

  lemma FullRenamed(inv: seq<nat>, c: Candidates, e: Entry)
    requires c.Valid() && InRange(c.entries, |inv|) && 0 <= e.id < |inv| && RenamedCandidates(inv, c).Valid()
    requires |c.entries| == c.capacity && e.dis < c.entries[0].dis && AllAgree(c.entries) && AgreesWith(c.entries, e)
    ensures InRange(Pushed(c, e).entries, |inv|)
    ensures Pushed(RenamedCandidates(inv, c), Renamed(inv, e)) == RenamedCandidates(inv, Pushed(c, e))
  {
    SwapRenamed(inv, c.entries, e);
    var r, rr := Pushed(c, e), Pushed(RenamedCandidates(inv, c), Renamed(inv, e));
    assert r.entries == Joined(WithoutTop(c.entries), e) && rr.valid == r.valid;
  }

  lemma SwapRenamed(inv: seq<nat>, h: seq<Entry>, e: Entry)
    requires |h| > 0 && InRange(h, |inv|) && 0 <= e.id < |inv| && AllAgree(h) && AgreesWith(h, e)
    ensures InRange(Joined(WithoutTop(h), e), |inv|)
    ensures Joined(WithoutTop(RenamedAll(inv, h)), Renamed(inv, e)) == RenamedAll(inv, Joined(WithoutTop(h), e))
  {
    WithoutTopRenamed(inv, h);
    JoinRenamed(inv, WithoutTop(h), e);
  }

  lemma JoinRenamed(inv: seq<nat>, h: seq<Entry>, e: Entry)
    requires InRange(h, |inv|) && -1 <= e.id < |inv| && AllAgree(h) && AgreesWith(h, e)
    ensures InRange(Joined(h, e), |inv|) && Joined(RenamedAll(inv, h), Renamed(inv, e)) == RenamedAll(inv, Joined(h, e))
  {
    assert RenamedAll(inv, h + [e]) == RenamedAll(inv, h) + [Renamed(inv, e)];
    ClimbRenamed(inv, h + [e], |h|, e);
  }

  lemma WithoutTopRenamed(inv: seq<nat>, h: seq<Entry>)
    requires |h| > 0 && InRange(h, |inv|) && AllAgree(h)
    ensures InRange(WithoutTop(h), |inv|) && WithoutTop(RenamedAll(inv, h)) == RenamedAll(inv, WithoutTop(h))
    ensures forall e :: AgreesWith(h, e) ==> AgreesWith(WithoutTop(h), e)
    ensures AllAgree(WithoutTop(h))
  {
    var n, last := |h| - 1, h[|h| - 1];
    SinkRenamed(inv, h, 0, last);
    var r := Sink(h, 0, last);
    assert RenamedAll(inv, r)[..n] == RenamedAll(inv, r[..n]);
    WithoutTopPermutes(h);
    forall i | 0 <= i < n ensures WithoutTop(h)[i] in h {
      assert WithoutTop(h)[i] in multiset(WithoutTop(h));
      assert WithoutTop(h)[i] in multiset(h);
    }
  }

  lemma TakenOutRenamed(inv: seq<nat>, c: Candidates, m: nat)
    requires c.Valid() && InRange(c.entries, |inv|) && m < |c.entries| && c.entries[m].id != -1
    ensures RenamedCandidates(inv, c).Valid() && RenamedAll(inv, c.entries)[m].id != -1
    ensures InRange(TakenOut(c, m).entries, |inv|)
    ensures TakenOut(RenamedCandidates(inv, c), m) == RenamedCandidates(inv, TakenOut(c, m))
  {
    TakenRenamed(inv, c.entries);
    RenamedUpdate(inv, c.entries, m, Entry(c.entries[m].dis, -1));
  }

  lemma TakenOutNoTies(c: Candidates, m: nat)
    requires c.Valid() && m < |c.entries| && c.entries[m].id != -1 && NoTies(c.entries)
    ensures NoTies(TakenOut(c, m).entries)
  {
    var h, r := c.entries, TakenOut(c, m).entries;
    var was, now := h[m], Entry(h[m].dis, -1);
    assert was in h && now !in h;
    assert multiset(r) == multiset(h) - multiset{was} + multiset{now};
    forall x ensures x in r <==> multiset(r)[x] > 0 { assert x in r <==> x in multiset(r); }
    forall x ensures x in h <==> multiset(h)[x] > 0 { assert x in h <==> x in multiset(h); }
  }

  /** Said of positions. */
  lemma NoTiesByPosition(h: seq<Entry>)
    ensures NoTies(h) <==> forall i, j :: 0 <= i < j < |h| ==> h[i].dis != h[j].dis
  {
    if NoTies(h) {
      forall i, j | 0 <= i < j < |h| ensures h[i].dis != h[j].dis {
        OnceEach(h, i);
        assert h[j] in h[i + 1..] && h[i] in h && h[j] in h;
      }
    } else {
      if forall i, j :: 0 <= i < j < |h| ==> h[i].dis != h[j].dis {
        forall i | 0 <= i < |h| ensures multiset(h)[h[i]] == 1 {
          OnceEach(h, i);
        }
        assert false;
      }
    }
  }

  lemma OnceEach(h: seq<Entry>, i: nat)
    requires i < |h|
    ensures multiset(h)[h[i]] == 1 <==> h[i] !in h[..i] && h[i] !in h[i + 1..]
  {
    assert h == h[..i] + [h[i]] + h[i + 1..];
    assert h[i] in h[..i] <==> h[i] in multiset(h[..i]);
    assert h[i] in h[i + 1..] <==> h[i] in multiset(h[i + 1..]);
  }

  lemma RenamedNoTies(inv: seq<nat>, h: seq<Entry>)
    requires InRange(h, |inv|) && NoTies(h)
    ensures NoTies(RenamedAll(inv, h))
  {
    NoTiesByPosition(h);
    NoTiesByPosition(RenamedAll(inv, h));
  }
}
