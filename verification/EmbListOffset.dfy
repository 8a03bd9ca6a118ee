/** EmbListOffset: where each embedding list starts in the flat run of vectors, and the lookup
    from a vector back to its list. Lists may be empty.
 */
module EmbLists {

  ghost predicate Valid(offset: seq<nat>) {
    |offset| > 0 && offset[0] == 0 && forall i, j :: 0 <= i <= j < |offset| ==> offset[i] <= offset[j]
  }

  /** std::upper_bound: the first position whose offset exceeds the value. */
  function UpperBound(s: seq<nat>, v: nat): (k: nat)
    requires forall i, j :: 0 <= i <= j < |s| ==> s[i] <= s[j]
    ensures k <= |s|
    ensures forall i :: 0 <= i < k ==> s[i] <= v
    ensures forall i :: k <= i < |s| ==> s[i] > v
  {
    if |s| == 0 || s[|s| - 1] <= v then |s| else UpperBound(s[..|s| - 1], v)
  }

  ghost predicate InList(offset: seq<nat>, el: nat, vid: nat) {
    el + 1 < |offset| && offset[el] <= vid < offset[el + 1]
  }

  class EmbListOffset {
    var offset: seq<nat>

    /** Reads limits up to the first one that reaches `rows`: trailing empty lists are dropped. */
    constructor FromLims(lims: seq<nat>, rows: nat)
      requires Valid(lims) && rows in lims && rows > 0
      ensures Valid(offset) && offset <= lims && offset[|offset| - 1] == rows
      ensures forall i :: 0 <= i < |offset| - 1 ==> offset[i] < rows
    {
      var idx: nat := 0;
      var out: seq<nat> := [];
      while lims[idx] < rows
        invariant idx < |lims| && out == lims[..idx] && rows in lims
        invariant forall i :: 0 <= i < idx ==> lims[i] < rows
        decreases |lims| - idx
      {
        var at :| 0 <= at < |lims| && lims[at] == rows;
        assert at > idx;
        out := out + [lims[idx]];
        idx := idx + 1;
      }
      assert lims[idx] == rows by {
        var at :| 0 <= at < |lims| && lims[at] == rows;
        assert at >= idx;
      }
      offset := out + [lims[idx]];
    }

    function NumEl(): nat
      requires Valid(offset)
      reads this
    {
      |offset| - 1
    }

    /** get_el_id: for every vector below the last limit, the one list that contains it. */
    function ElId(vid: nat): (el: nat)
      requires Valid(offset)
      reads this
      ensures vid < offset[|offset| - 1] ==> InList(offset, el, vid)
      ensures vid < offset[|offset| - 1] ==> forall other: nat :: InList(offset, other, vid) ==> other == el
    {
      UpperBound(offset, vid) - 1
    }

    /** get_vids */
    function Vids(el: nat): (vids: seq<nat>)
      requires Valid(offset) && el < NumEl()
      reads this
      ensures |vids| == offset[el + 1] - offset[el]
      ensures forall k :: 0 <= k < |vids| ==> vids[k] == offset[el] + k && InList(offset, el, vids[k])
    {
      Range(offset[el], offset[el + 1])
    }
  }

  function Range(lo: nat, hi: nat): (s: seq<nat>)
    requires lo <= hi
    ensures |s| == hi - lo && forall k :: 0 <= k < |s| ==> s[k] == lo + k
  {
    seq(hi - lo, k requires 0 <= k < hi - lo => lo + k)
  }

  /** The vector ranges of the first n lists, one after the other. */
  function AllVids(offset: seq<nat>, n: nat): seq<nat>
    requires n < |offset| && forall i, j :: 0 <= i <= j < |offset| ==> offset[i] <= offset[j]
  {
    if n == 0 then [] else AllVids(offset, n - 1) + Range(offset[n - 1], offset[n])
  }

  /** The lists partition the vectors: their ranges concatenate to 0, 1, .., rows - 1. */
  lemma {:induction false} VidsConcatenate(offset: seq<nat>, n: nat)
    requires Valid(offset) && n < |offset|
    ensures AllVids(offset, n) == Range(0, offset[n])
  {
    if n > 0 {
      VidsConcatenate(offset, n - 1);
      assert Range(0, offset[n]) == Range(0, offset[n - 1]) + Range(offset[n - 1], offset[n]);
    }
  }

  /** Every list of the caller survives exactly when the last one is not empty. */
  lemma ListsKept(lims: seq<nat>, rows: nat, offset: seq<nat>)
    requires Valid(lims) && rows > 0 && lims[|lims| - 1] == rows
    requires Valid(offset) && offset <= lims && offset[|offset| - 1] == rows
    requires forall i :: 0 <= i < |offset| - 1 ==> offset[i] < rows
    ensures |offset| == |lims| <==> lims[|lims| - 2] < rows
  {
    assert |lims| >= 2;
    if |offset| < |lims| {
      assert lims[|offset| - 1] <= lims[|lims| - 2];
    }
  }
}
