/** Permutations of 0 .. n-1, as sequences. */
module Permutation {
  import opened IntSums

  ghost predicate IsPermutation(p: seq<nat>) {
    && (forall i :: 0 <= i < |p| ==> p[i] < |p|)
    && (forall i, j :: 0 <= i < j < |p| ==> p[i] != p[j])
  }

  ghost predicate Inverse(p: seq<nat>, inv: seq<nat>) {
    && |inv| == |p|
    && (forall i :: 0 <= i < |p| ==> p[i] < |p| && inv[p[i]] == i)
    && (forall v :: 0 <= v < |p| ==> inv[v] < |p| && p[inv[v]] == v)
  }

  ghost function Below(n: nat): (s: set<nat>)
    ensures |s| == n && forall i: nat :: i in s <==> i < n
  {
    if n == 0 then {} else Below(n - 1) + {n - 1}
  }

  ghost function Image(p: seq<nat>): (s: set<nat>)
    ensures forall v :: v in s <==> v in p
  {
    if |p| == 0 then {} else
    assert p == p[..|p| - 1] + [p[|p| - 1]];
    Image(p[..|p| - 1]) + {p[|p| - 1]}
  }

  lemma {:induction false} ImageSize(p: seq<nat>)
    requires forall i, j :: 0 <= i < j < |p| ==> p[i] != p[j]
    ensures |Image(p)| == |p|
  {
    if |p| > 0 {
      var n := |p| - 1;
      ImageSize(p[..n]);
      assert p[n] !in p[..n];
    }
  }

  /** An injective map of 0 .. n-1 into itself hits everything. */
  lemma Onto(p: seq<nat>, v: nat)
    requires IsPermutation(p) && v < |p|
    ensures v in p
  {
    ImageSize(p);
    if v !in p {
      SubsetSize(Image(p), Below(|p|) - {v});
    }
  }

  lemma {:induction false} SubsetSize(a: set<nat>, b: set<nat>)
    requires a <= b
    ensures |a| <= |b|
    decreases b
  {
    if a != {} {
      var x :| x in a;
      SubsetSize(a - {x}, b - {x});
    }
  }

  /** The inverse of a permutation, filled in one pass over a zeroed table. */
  method Invert(p: seq<nat>) returns (inv: seq<nat>)
    requires IsPermutation(p)
    ensures Inverse(p, inv)
  {
    inv := seq(|p|, _ => 0);
    for i := 0 to |p|
      invariant |inv| == |p| && forall k :: 0 <= k < i ==> inv[p[k]] == k
      invariant forall v :: 0 <= v < |p| ==> inv[v] < |p|
    {
      inv := inv[p[i] := i];
    }
    forall v | 0 <= v < |p| ensures p[inv[v]] == v {
      Onto(p, v);
      var i :| 0 <= i < |p| && p[i] == v;
    }
  }

  /** The elements of `s` in the order `p` lists them. */
  function Gather<T>(s: seq<T>, p: seq<nat>): (r: seq<T>)
    requires forall i :: 0 <= i < |p| ==> p[i] < |s|
    ensures |r| == |p| && forall i :: 0 <= i < |p| ==> r[i] == s[p[i]]
  {
    seq(|p|, i requires 0 <= i < |p| => s[p[i]])
  }

  lemma {:induction false} SumReplace(s: seq<int>, k: nat, v: int)
    requires k < |s|
    ensures Sum(s[k := v]) == Sum(s) - s[k] + v
  {
    var n := |s| - 1;
    if k == n {
      assert s[k := v][..n] == s[..n];
    } else {
      assert s[k := v][..n] == s[..n][k := v];
      SumReplace(s[..n], k, v);
    }
  }

  /** A permutation with its largest element cut out: the last entry fills the gap. */
  ghost function Shrink(p: seq<nat>, k: nat): (q: seq<nat>)
    requires k < |p|
    ensures |q| == |p| - 1
  {
    p[k := p[|p| - 1]][..|p| - 1]
  }

  lemma ShrinkIsPermutation(p: seq<nat>, k: nat)
    requires IsPermutation(p) && k < |p| && p[k] == |p| - 1
    ensures IsPermutation(Shrink(p, k))
  {
    var n, q := |p| - 1, Shrink(p, k);
    forall i | 0 <= i < n ensures q[i] < n {
      assert p[i] != p[k] || i == k;
    }
  }

  lemma ShrinkSum(s: seq<int>, p: seq<nat>, k: nat)
    requires IsPermutation(p) && |s| == |p| && k < |p| && p[k] == |p| - 1 && IsPermutation(Shrink(p, k))
    ensures Sum(Gather(s, p)) == Sum(Gather(s[..|p| - 1], Shrink(p, k))) + s[|p| - 1]
  {
    var n, g, h := |p| - 1, Gather(s, p), Gather(s[..|p| - 1], Shrink(p, k));
    assert Sum(g) == Sum(g[..n]) + s[p[n]];
    if k < n {
      assert g[..n][k := s[p[n]]] == h;
      SumReplace(g[..n], k, s[p[n]]);
    } else {
      assert g[..n] == h;
    }
  }

  /** Reordering does not change a sum. */
  lemma {:induction false} SumGather(s: seq<int>, p: seq<nat>)
    requires IsPermutation(p) && |s| == |p|
    ensures Sum(Gather(s, p)) == Sum(s)
  {
    if |p| > 0 {
      Onto(p, |p| - 1);
      var k :| 0 <= k < |p| && p[k] == |p| - 1;
      ShrinkIsPermutation(p, k);
      ShrinkSum(s, p, k);
      SumGather(s[..|p| - 1], Shrink(p, k));
    }
  }
}
