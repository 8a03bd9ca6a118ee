/** Sparse vectors: the merge-join dot product and the cursor-based document filter. */
module SparseRows {
  import opened Options
  import opened Sorting

  // ---------------------------------------------------------------------------
  // SparseRow::dot
  // ---------------------------------------------------------------------------

  /** One stored element: a column index and its value. */
  datatype Element<V> = Element(index: nat, value: V)

  /** Rows are sorted by column and hold each column once. */
  ghost predicate SortedRow<V>(row: seq<Element<V>>) {
    forall i, j :: 0 <= i < j < |row| ==> row[i].index < row[j].index
  }

  /** The value stored for a column, by search. */
  function Lookup<V>(row: seq<Element<V>>, index: nat): Option<V> {
    if |row| == 0 then None
    else if row[0].index == index then Some(row[0].value)
    else Lookup(row[1..], index)
  }

  /** Left fold of the matching products over the left row's columns in ascending order; the
      arithmetic itself is a parameter. */
  function LookupDot<V>(left: seq<Element<V>>, right: seq<Element<V>>, acc: V, add: (V, V) -> V, term: (V, V) -> V): V {
    if |left| == 0 then acc
    else
      var found := Lookup(right, left[0].index);
      var next := if found.Some? then add(acc, term(left[0].value, found.value)) else acc;
      LookupDot(left[1..], right, next, add, term)
  }

  /** In a row, search finds exactly what is stored. */
  lemma {:induction false} LookupFinds<V>(row: seq<Element<V>>, j: nat, index: nat)
    requires SortedRow(row)
    ensures j < |row| ==> Lookup(row, row[j].index) == Some(row[j].value)
    ensures (forall i :: 0 <= i < |row| ==> row[i].index != index) ==> Lookup(row, index) == None
  {
    if |row| > 0 {
      LookupFinds(row[1..], if j > 0 then j - 1 else 0, index);
      if 0 < j < |row| {
        assert row[0].index < row[j].index && row[1..][j - 1] == row[j];
      }
      assert forall i :: 0 <= i < |row| - 1 ==> row[1..][i] == row[i + 1];
    }
  }

  /** The product over a left row in two parts is that over the first, continued over the second. */
  lemma {:induction false} DotContinues<V>(a: seq<Element<V>>, b: seq<Element<V>>, right: seq<Element<V>>, acc: V,
                                           add: (V, V) -> V, term: (V, V) -> V)
    ensures LookupDot(a + b, right, acc, add, term)
         == LookupDot(b, right, LookupDot(a, right, acc, add, term), add, term)
  {
    if |a| == 0 {
      assert a + b == b;
    } else {
      var found := Lookup(right, a[0].index);
      var next := if found.Some? then add(acc, term(a[0].value, found.value)) else acc;
      DotContinues(a[1..], b, right, next, add, term);
      assert (a + b)[1..] == a[1..] + b;
    }
  }

  /** A single left element: its term if the right row has the column, left value first. */
  lemma DotOfOne<V>(x: Element<V>, right: seq<Element<V>>, j: nat, acc: V, add: (V, V) -> V, term: (V, V) -> V)
    requires SortedRow(right)
    ensures j < |right| && right[j].index == x.index ==>
              LookupDot([x], right, acc, add, term) == add(acc, term(x.value, right[j].value))
    ensures (forall i :: 0 <= i < |right| ==> right[i].index != x.index) ==>
              LookupDot([x], right, acc, add, term) == acc
  {
    LookupFinds(right, j, x.index);
    assert [x][1..] == [];
  }

  /** Rows with one common column: the term of that column and nothing else. */
  lemma DotOfCommon<V>(left: seq<Element<V>>, right: seq<Element<V>>, i: nat, j: nat, acc: V, add: (V, V) -> V,
                       term: (V, V) -> V)
    requires SortedRow(left) && SortedRow(right) && i < |left| && j < |right| && left[i].index == right[j].index
    requires forall a, b :: 0 <= a < |left| && 0 <= b < |right| && a != i ==> left[a].index != right[b].index
    ensures LookupDot(left, right, acc, add, term) == add(acc, term(left[i].value, right[j].value))
  {
    assert left == left[..i] + ([left[i]] + left[i + 1..]);
    DotContinues(left[..i], [left[i]] + left[i + 1..], right, acc, add, term);
    DotOfNone(left[..i], right, acc, add, term);
    DotContinues([left[i]], left[i + 1..], right, acc, add, term);
    DotOfOne(left[i], right, j, acc, add, term);
    DotOfNone(left[i + 1..], right, add(acc, term(left[i].value, right[j].value)), add, term);
  }

  lemma {:induction false} DotOfNone<V>(left: seq<Element<V>>, right: seq<Element<V>>, acc: V, add: (V, V) -> V,
                                        term: (V, V) -> V)
    requires SortedRow(right)
    requires forall a, b :: 0 <= a < |left| && 0 <= b < |right| ==> left[a].index != right[b].index
    ensures LookupDot(left, right, acc, add, term) == acc
  {
    if |left| > 0 {
      LookupFinds(right, 0, left[0].index);
      DotOfNone(left[1..], right, acc, add, term);
    }
  }

  lemma {:induction false} LookupPast<V>(row: seq<Element<V>>, index: nat)
    requires SortedRow(row) && |row| > 0 && index < row[0].index
    ensures Lookup(row, index).None?
  {
    if |row| > 1 {
      assert row[0].index < row[1].index;
      LookupPast(row[1..], index);
    }
  }

  /** A left row that starts past the right row's first column never looks at it. */
  lemma {:induction false} DropHead<V>(left: seq<Element<V>>, right: seq<Element<V>>, acc: V, add: (V, V) -> V,
                                       term: (V, V) -> V)
    requires SortedRow(left) && |right| > 0 && (|left| > 0 ==> left[0].index > right[0].index)
    ensures LookupDot(left, right, acc, add, term) == LookupDot(left, right[1..], acc, add, term)
  {
    if |left| > 0 {
      var found := Lookup(right, left[0].index);
      assert found == Lookup(right[1..], left[0].index);
      var next := if found.Some? then add(acc, term(left[0].value, found.value)) else acc;
      if |left| > 1 {
        assert left[0].index < left[1].index;
      }
      DropHead(left[1..], right, next, add, term);
    }
  }

  lemma {:induction false} NothingToMatch<V>(left: seq<Element<V>>, acc: V, add: (V, V) -> V, term: (V, V) -> V)
    ensures LookupDot(left, [], acc, add, term) == acc
  {
    if |left| > 0 {
      NothingToMatch(left[1..], acc, add, term);
    }
  }

  /** The two-cursor loop folds exactly the terms at common columns, ascending, once each. */
  method Dot<V>(left: seq<Element<V>>, right: seq<Element<V>>, zero: V, add: (V, V) -> V, term: (V, V) -> V)
    returns (sum: V)
    requires SortedRow(left) && SortedRow(right)
    ensures sum == LookupDot(left, right, zero, add, term)
  {
    sum := zero;
    var i: nat, j: nat := 0, 0;
    assert left[0..] == left && right[0..] == right;
    while i < |left| && j < |right|
      invariant i <= |left| && j <= |right|
      invariant LookupDot(left[i..], right[j..], sum, add, term) == LookupDot(left, right, zero, add, term)
      decreases |left| - i + |right| - j
    {
      var l, r := left[i], right[j];
      assert left[i..][1..] == left[i + 1..] && right[j..][1..] == right[j + 1..];
      if l.index < r.index {
        LookupPast(right[j..], l.index);
        i := i + 1;
      } else if l.index > r.index {
        DropHead(left[i..], right[j..], sum, add, term);
        j := j + 1;
      } else {
        sum := add(sum, term(l.value, r.value));
        DropHead(left[i + 1..], right[j..], sum, add, term);
        i := i + 1;
        j := j + 1;
      }
    }
    if i < |left| {
      assert right[j..] == [];
      NothingToMatch(left[i..], sum, add, term);
    }
  }

  // ---------------------------------------------------------------------------
  // DocIdFilterByVector
  // ---------------------------------------------------------------------------

  class DocIdFilter {
    var docids: seq<int>
    var pos: nat

    ghost predicate Valid()
      reads this
    {
      Sorting.Ascending(docids) && pos <= |docids|
    }

    constructor (ids: seq<int>)
      ensures Valid() && pos == 0 && multiset(docids) == multiset(ids)
    {
      docids := Sort(ids);
      pos := 0;
    }

    /** True when the id passes the filter. The cursor only ever moves right. */
    method Test(id: int) returns (passes: bool)
      requires Valid()
      modifies this`pos
      ensures Valid() && pos >= old(pos)
      ensures forall i :: old(pos) <= i < pos ==> docids[i] < id
      ensures pos < |docids| ==> docids[pos] >= id
      ensures passes <==> id !in docids[old(pos)..]
    {
      while pos < |docids| && docids[pos] < id
        invariant Valid() && old(pos) <= pos
        invariant forall i :: old(pos) <= i < pos ==> docids[i] < id
        decreases |docids| - pos
      {
        pos := pos + 1;
      }
      passes := !(pos < |docids| && docids[pos] == id);
      if !passes {
        assert docids[old(pos)..][pos - old(pos)] == id;
      }
    }
  }

  /** Over a whole non-decreasing run of queries every answer is "not in the list", and the
      cursor moves at most once per listed id in total. */
  method TestAll(ids: seq<int>, queries: seq<int>) returns (answers: seq<bool>, moves: nat)
    requires Sorting.Ascending(queries)
    ensures |answers| == |queries| && forall k :: 0 <= k < |queries| ==> (answers[k] <==> queries[k] !in ids)
    ensures moves <= |ids|
  {
    var filter := new DocIdFilter(ids);
    assert |multiset(filter.docids)| == |multiset(ids)|;
    answers, moves := [], 0;
    for k := 0 to |queries|
      invariant filter.Valid() && moves == filter.pos && multiset(filter.docids) == multiset(ids)
      invariant k < |queries| ==> forall i :: 0 <= i < filter.pos ==> filter.docids[i] < queries[k]
      invariant |answers| == k && forall h :: 0 <= h < k ==> (answers[h] <==> queries[h] !in ids)
    {
      var before := filter.pos;
      var passes := filter.Test(queries[k]);
      SameMembers(filter.docids, ids, queries[k]);
      assert queries[k] in filter.docids <==> queries[k] in filter.docids[before..] by {
        assert filter.docids == filter.docids[..before] + filter.docids[before..];
      }
      answers, moves := answers + [passes], moves + (filter.pos - before);
    }
  }
}
