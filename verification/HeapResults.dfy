/** What a bounded heap holds after any number of offers, and the sorted list it is turned into.

    A heap with room for k keeps k of the nearest entries it was offered, whatever the order of
    the offers; only among equally far entries does the order matter.
 */
module HeapResults {
  import opened MinimaxHeaps

  // ---------------------------------------------------------------------------
  // The nearest entries
  // ---------------------------------------------------------------------------

  /** r is as many of `all` as there is room for, and nothing left out is nearer. */
  ghost predicate Nearest(all: multiset<Entry>, r: multiset<Entry>, room: nat) {
    && r <= all && |r| == (if |all| < room then |all| else room)
    && forall x, y :: x in r && y in all - r ==> x.dis <= y.dis
  }

  /** No two different entries are equally far. */
  ghost predicate Untied(all: multiset<Entry>) {
    forall x, y :: x in all && y in all && x.dis == y.dis ==> x == y
  }

  lemma SameSize(a: multiset<Entry>, b: multiset<Entry>)
    requires a <= b && |a| == |b|
    ensures a == b
  {
    assert b == a + (b - a);
    assert |b - a| == 0;
  }

  /** Without ties there is only one choice. */
  lemma NearestUnique(all: multiset<Entry>, r: multiset<Entry>, s: multiset<Entry>, room: nat)
    requires Nearest(all, r, room) && Nearest(all, s, room) && Untied(all)
    ensures r == s
  {
    if r != s {
      var x := Extra(r, s);
      var y := Extra(s, r);
      assert false;
    }
  }

  lemma Extra(r: multiset<Entry>, s: multiset<Entry>) returns (x: Entry)
    requires |r| == |s| && r != s
    ensures r[x] > s[x]
  {
    if forall z :: r[z] <= s[z] {
      SameSize(r, s);
      assert false;
    }
    x :| r[x] > s[x];
  }

  lemma NearestWithRoom(all: multiset<Entry>, r: multiset<Entry>, room: nat, e: Entry)
    requires Nearest(all, r, room) && |r| < room
    ensures Nearest(all + multiset{e}, r + multiset{e}, room)
  {
    SameSize(r, all);
  }

  /** A full heap that ignores an entry no nearer than any of its own. */
  lemma NearestIgnores(all: multiset<Entry>, r: multiset<Entry>, room: nat, e: Entry)
    requires Nearest(all, r, room) && |r| == room && forall x :: x in r ==> x.dis <= e.dis
    ensures Nearest(all + multiset{e}, r, room)
  {
    assert (all + multiset{e}) - r == (all - r) + multiset{e};
  }

  /** A full heap that gives up its farthest entry for a nearer one. */
  lemma NearestSwaps(all: multiset<Entry>, r: multiset<Entry>, room: nat, top: Entry, e: Entry)
    requires Nearest(all, r, room) && |r| == room && top in r && e.dis < top.dis
    requires forall x :: x in r ==> x.dis <= top.dis
    ensures Nearest(all + multiset{e}, r - multiset{top} + multiset{e}, room)
  {
    var more, now := all + multiset{e}, r - multiset{top} + multiset{e};
    assert more - now == (all - r) + multiset{top};
    forall x, y | x in now && y in more - now ensures x.dis <= y.dis {
      assert y == top || y in all - r;
      assert x == e || x in r;
      assert top.dis <= y.dis;
    }
  }

  lemma NearestWhenFull(all: multiset<Entry>, r: multiset<Entry>, room: nat, top: Entry, e: Entry)
    requires Nearest(all, r, room) && |r| == room && top in r && forall x :: x in r ==> x.dis <= top.dis
    ensures Nearest(all + multiset{e}, if e.dis >= top.dis then r else r - multiset{top} + multiset{e}, room)
  {
    if e.dis >= top.dis {
      NearestIgnores(all, r, room, e);
    } else {
      NearestSwaps(all, r, room, top, e);
    }
  }

  lemma PushKeepsNearest(all: multiset<Entry>, c: Candidates, e: Entry)
    requires c.Valid() && e.id != -1 && Heaped(ByDistance, c.entries)
    requires Nearest(all, multiset(c.entries), c.capacity)
    ensures Nearest(all + multiset{e}, multiset(Pushed(c, e).entries), c.capacity)
  {
    PushedContents(c, e);
    if |c.entries| < c.capacity {
      NearestWithRoom(all, multiset(c.entries), c.capacity, e);
    } else {
      NearestWhenFull(all, multiset(c.entries), c.capacity, c.entries[0], e);
    }
  }

  /** add_result: the top gives way to anything nearer. */
  function Offered(res: seq<Entry>, e: Entry): (r: seq<Entry>)
    requires |res| > 0
    ensures |r| == |res|
  {
    if e.dis < res[0].dis then Sink(res, 0, e) else res
  }

  lemma OfferKeepsNearest(all: multiset<Entry>, res: seq<Entry>, e: Entry)
    requires |res| > 0 && Heaped(ByPair, res) && Nearest(all, multiset(res), |res|)
    ensures Heaped(ByPair, Offered(res, e)) && Nearest(all + multiset{e}, multiset(Offered(res, e)), |res|)
  {
    SinkHeaped(ByPair, res, 0, e);
    OfferedContents(res, e);
    forall x | x in multiset(res) ensures x.dis <= res[0].dis {
      var i :| 0 <= i < |res| && res[i] == x;
      TopIsFarthest(ByPair, res, i);
    }
    NearestWhenFull(all, multiset(res), |res|, res[0], e);
  }

  lemma OfferedContents(res: seq<Entry>, e: Entry)
    requires |res| > 0
    ensures multiset(Offered(res, e))
         == if e.dis >= res[0].dis then multiset(res) else multiset(res) - multiset{res[0]} + multiset{e}
  {
    SinkPermutes(res, 0, e);
  }

  // ---------------------------------------------------------------------------
  // heap_reorder
  // ---------------------------------------------------------------------------

  ghost predicate Ascending(s: seq<Entry>) {
    forall i, j :: 0 <= i < j < |s| ==> !Above(s[i], s[j])
  }

  function Inserted(s: seq<Entry>, e: Entry): (r: seq<Entry>)
    ensures |r| == |s| + 1
  {
    var n := |s| - 1;
    if n < 0 || !Above(s[n], e) then s + [e] else Inserted(s[..n], e) + [s[n]]
  }

  /** The entries that are not empty places, by distance and id. */
  function Ranked(h: seq<Entry>): (r: seq<Entry>)
    ensures |r| == |h| - Taken(h)
  {
    if |h| == 0 then []
    else if h[|h| - 1].id == -1 then Ranked(h[..|h| - 1])
    else Inserted(Ranked(h[..|h| - 1]), h[|h| - 1])
  }

  lemma {:induction false} InsertedContents(s: seq<Entry>, e: Entry)
    ensures multiset(Inserted(s, e)) == multiset(s) + multiset{e}
  {
    var n := |s| - 1;
    if n >= 0 && Above(s[n], e) {
      InsertedContents(s[..n], e);
      assert s == s[..n] + [s[n]];
    }
  }

  lemma {:induction false} InsertedAscends(s: seq<Entry>, e: Entry)
    requires Ascending(s)
    ensures Ascending(Inserted(s, e))
  {
    var n := |s| - 1;
    if n >= 0 && Above(s[n], e) {
      InsertedAscends(s[..n], e);
      forall i | 0 <= i <= n ensures !Above(Inserted(s[..n], e)[i], s[n]) {
        InsertedMember(s[..n], e, i);
      }
    }
  }

  lemma InsertedMember(s: seq<Entry>, e: Entry, i: nat)
    requires i <= |s|
    ensures Inserted(s, e)[i] == e || Inserted(s, e)[i] in s
  {
    InsertedContents(s, e);
    assert Inserted(s, e)[i] in multiset(s) + multiset{e};
  }

  /** Empty places do not count. */
  ghost function Live(h: seq<Entry>, x: Entry): nat {
    if x.id == -1 then 0 else multiset(h)[x]
  }

  lemma {:induction false} RankedSorts(h: seq<Entry>)
    ensures Ascending(Ranked(h)) && forall x :: multiset(Ranked(h))[x] == Live(h, x)
  {
    if |h| > 0 {
      var n := |h| - 1;
      RankedSorts(h[..n]);
      assert h == h[..n] + [h[n]];
      InsertedContents(Ranked(h[..n]), h[n]);
      InsertedAscends(Ranked(h[..n]), h[n]);
    }
  }

  /** A sorted list is known by its members. */
  lemma {:induction false} AscendingUnique(a: seq<Entry>, b: seq<Entry>)
    requires Ascending(a) && Ascending(b) && multiset(a) == multiset(b)
    ensures a == b
    decreases |a|
  {
    assert |multiset(a)| == |a| && |multiset(b)| == |b|;
    if |a| > 0 {
      var n := |a| - 1;
      SameLast(a, b);
      assert a == a[..n] + [a[n]] && b == b[..n] + [b[n]];
      Cancel(multiset(a[..n]), multiset(b[..n]), a[n]);
      AscendingUnique(a[..n], b[..n]);
    }
  }

  lemma SameLast(a: seq<Entry>, b: seq<Entry>)
    requires Ascending(a) && Ascending(b) && multiset(a) == multiset(b) && |a| == |b| > 0
    ensures a[|a| - 1] == b[|a| - 1]
  {
    var n := |a| - 1;
    assert a[n] in multiset(b) && b[n] in multiset(a);
    var i :| 0 <= i <= n && b[i] == a[n];
    var j :| 0 <= j <= n && a[j] == b[n];
    assert !Above(a[n], b[n]) && !Above(b[n], a[n]);
  }

  /** The ranking depends on the entries only, not on their places. */
  lemma RankedPermuted(a: seq<Entry>, b: seq<Entry>)
    requires multiset(a) == multiset(b)
    ensures Ranked(a) == Ranked(b)
  {
    RankedSorts(a);
    RankedSorts(b);
    forall x ensures multiset(Ranked(a))[x] == multiset(Ranked(b))[x] {
      assert Live(a, x) == Live(b, x);
    }
    AscendingUnique(Ranked(a), Ranked(b));
  }

  /** What a query returns: the ranking, then empty places. */
  function Returned(h: seq<Entry>, neutral: real): (r: seq<Entry>)
    ensures |r| == |h|
  {
    Ranked(h) + seq(|h| - |Ranked(h)|, _ => Entry(neutral, -1))
  }

  /** The heap is a[..m], the entries already ranked are a[f..]. */
  ghost predicate Reordering(h: seq<Entry>, a: seq<Entry>, m: nat, f: nat) {
    && m <= f <= |a| == |h| && Heaped(ByPair, a[..m]) && Ascending(a[f..])
    && (forall x, y :: x in a[..m] && y in a[f..] ==> !Above(x, y))
    && forall x :: Live(a[..m], x) + multiset(a[f..])[x] == Live(h, x)
  }

  lemma ReorderStep(h: seq<Entry>, a: seq<Entry>, m: nat, f: nat, b: seq<Entry>)
    requires 0 < m && Reordering(h, a, m, f)
    requires b == (WithoutTop(a[..m]) + a[m - 1..])[f - 1 := a[0]]
    ensures Reordering(h, b, m - 1, if a[0].id != -1 then f - 1 else f)
  {
    var heap, top := a[..m], a[0];
    WithoutTopPermutes(heap);
    WithoutTopHeaped(ByPair, heap);
    assert b[..m - 1] == WithoutTop(heap);
    assert b[f..] == a[f..];
    assert b[f - 1..] == [top] + a[f..];
    RestBelow(heap, a[f..]);
    RestLive(h, heap, a[f..]);
  }

  lemma RestLive(h: seq<Entry>, heap: seq<Entry>, ranked: seq<Entry>)
    requires |heap| > 0 && multiset(WithoutTop(heap)) + multiset{heap[0]} == multiset(heap)
    requires forall x :: Live(heap, x) + multiset(ranked)[x] == Live(h, x)
    ensures forall x :: Live(WithoutTop(heap), x) + multiset(if heap[0].id != -1 then [heap[0]] + ranked else ranked)[x]
                     == Live(h, x)
  {
    forall x
      ensures Live(WithoutTop(heap), x) + multiset(if heap[0].id != -1 then [heap[0]] + ranked else ranked)[x]
           == Live(h, x)
    {
      assert Live(heap, x) + multiset(ranked)[x] == Live(h, x);
      assert multiset(heap)[x] == multiset(WithoutTop(heap))[x] + multiset{heap[0]}[x];
    }
  }

  /** What is left of the heap is not above its top, nor above what was ranked before. */
  lemma RestBelow(heap: seq<Entry>, ranked: seq<Entry>)
    requires |heap| > 0 && Heaped(ByPair, heap) && forall x, y :: x in heap && y in ranked ==> !Above(x, y)
    requires multiset(WithoutTop(heap)) + multiset{heap[0]} == multiset(heap) && Ascending(ranked)
    ensures forall x, y :: x in WithoutTop(heap) && y in [heap[0]] + ranked ==> !Above(x, y)
    ensures Ascending([heap[0]] + ranked)
  {
    assert heap[0] in heap;
    forall x | x in WithoutTop(heap) ensures x in heap && !Above(x, heap[0]) {
      assert x in multiset(WithoutTop(heap));
      assert x in multiset(heap);
      var i :| 0 <= i < |heap| && heap[i] == x;
      TopIsFarthest(ByPair, heap, i);
    }
  }

  lemma ReorderEnd(h: seq<Entry>, a: seq<Entry>, f: nat)
    requires Reordering(h, a, 0, f)
    ensures a[f..] == Ranked(h)
  {
    RankedSorts(h);
    forall x ensures multiset(a[f..])[x] == multiset(Ranked(h))[x] {
      assert Live(a[..0], x) + multiset(a[f..])[x] == Live(h, x);
    }
    AscendingUnique(a[f..], Ranked(h));
  }

  /** Pops the heap a[..m] and puts its top before the entries already ranked, to be overwritten
      if it is an empty place. */
  method PopToEnd(ghost h: seq<Entry>, a: seq<Entry>, m: nat, f: nat) returns (b: seq<Entry>, f': nat)
    requires 0 < m && Reordering(h, a, m, f)
    ensures Reordering(h, b, m - 1, f')
  {
    var top := a[0];
    var sunk := HeapSink(a[..m], a[m - 1]);
    b := sunk[..m - 1] + a[m - 1..];
    b := b[f - 1 := top];
    ReorderStep(h, a, m, f, b);
    f' := if top.id != -1 then f - 1 else f;
  }

  /** heap_reorder: pops into the end of the same array, then closes the gap. */
  method HeapReorder(h: seq<Entry>, neutral: real) returns (r: seq<Entry>, nel: nat)
    requires Heaped(ByPair, h)
    ensures r == Returned(h, neutral) && nel == |h| - Taken(h)
  {
    var a, f: nat := h, |h|;
    assert a[..|h|] == h;
    for i := 0 to |h|
      invariant Reordering(h, a, |h| - i, f)
    {
      a, f := PopToEnd(h, a, |h| - i, f);
    }
    nel := |h| - f;
    ReorderEnd(h, a, f);
    r := a[f..] + seq(|h| - nel, _ => Entry(neutral, -1));
  }

  // ---------------------------------------------------------------------------
  // Renaming
  // ---------------------------------------------------------------------------

  lemma {:induction false} InsertedRenamed(inv: seq<nat>, s: seq<Entry>, e: Entry)
    requires InRange(s, |inv|) && -1 <= e.id < |inv| && AgreesWith(s, e)
    ensures InRange(Inserted(s, e), |inv|)
    ensures Inserted(RenamedAll(inv, s), Renamed(inv, e)) == RenamedAll(inv, Inserted(s, e))
  {
    var n := |s| - 1;
    if n >= 0 && Above(s[n], e) {
      InsertedRenamed(inv, s[..n], e);
      assert RenamedAll(inv, s)[..n] == RenamedAll(inv, s[..n]);
    }
  }

  /** Without ties, ranking a renamed heap is renaming the ranking. */
  lemma {:induction false} RankedRenamed(inv: seq<nat>, h: seq<Entry>)
    requires InRange(h, |inv|) && AllAgree(h)
    ensures InRange(Ranked(h), |inv|) && Ranked(RenamedAll(inv, h)) == RenamedAll(inv, Ranked(h))
  {
    if |h| > 0 {
      var n := |h| - 1;
      RankedRenamed(inv, h[..n]);
      assert RenamedAll(inv, h)[..n] == RenamedAll(inv, h[..n]);
      if h[n].id != -1 {
        RankedAgrees(h[..n], h[n]);
        InsertedRenamed(inv, Ranked(h[..n]), h[n]);
      }
    }
  }

  lemma RankedAgrees(h: seq<Entry>, e: Entry)
    requires AgreesWith(h, e)
    ensures AgreesWith(Ranked(h), e)
  {
    RankedSorts(h);
    forall i | 0 <= i < |Ranked(h)| ensures Agree(e, Ranked(h)[i]) {
      assert Ranked(h)[i] in multiset(Ranked(h));
      assert Ranked(h)[i] in multiset(h);
    }
  }

  lemma ReturnedRenamed(inv: seq<nat>, h: seq<Entry>, neutral: real)
    requires InRange(h, |inv|) && AllAgree(h)
    ensures InRange(Returned(h, neutral), |inv|)
    ensures Returned(RenamedAll(inv, h), neutral) == RenamedAll(inv, Returned(h, neutral))
  {
    RankedRenamed(inv, h);
  }
}
