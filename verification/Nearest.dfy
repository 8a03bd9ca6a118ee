/** The argmin scan shared by the `nearest` functions: it starts from an upper bound
    (HUGE_VALF in the reference and RVV code, the largest finite float in the AVX code)
    and index zero, and only moves on a strictly smaller distance.
 */
module Nearest {

  datatype Bound = Infinite | Finite(limit: real)

  predicate Below(v: real, b: Bound) {
    b.Infinite? || v < b.limit
  }

  ghost predicate IsFirstMin(s: seq<real>, k: nat) {
    && k < |s|
    && (forall i :: 0 <= i < |s| ==> s[k] <= s[i])
    && (forall i :: 0 <= i < k ==> s[k] < s[i])
  }

  /** Index and bound held by the scan after `n` elements. */
  function Scan(s: seq<real>, n: nat, start: Bound): (nat, Bound)
    requires n <= |s|
  {
    if n == 0 then (0, start)
    else
      var (k, b) := Scan(s, n - 1, start);
      if Below(s[n - 1], b) then (n - 1, Finite(s[n - 1])) else (k, b)
  }

  function NearestIndex(s: seq<real>, start: Bound): nat {
    Scan(s, |s|, start).0
  }

  method NearestScan(s: seq<real>, start: Bound) returns (nearest: nat)
    ensures nearest == NearestIndex(s, start)
  {
    nearest := 0;
    var minDis := start;
    for i := 0 to |s|
      invariant (nearest, minDis) == Scan(s, i, start)
    {
      if Below(s[i], minDis) {
        minDis, nearest := Finite(s[i]), i;
      }
    }
  }

  lemma {:induction false} ScanMeaning(s: seq<real>, n: nat, start: Bound)
    requires n <= |s|
    ensures
      var (k, b) := Scan(s, n, start);
      if exists i :: 0 <= i < n && Below(s[i], start) then
        IsFirstMin(s[..n], k) && b == Finite(s[k]) && Below(s[k], start)
      else k == 0 && b == start
  {
    if n > 0 {
      ScanMeaning(s, n - 1, start);
      var (k, b) := Scan(s, n - 1, start);
      if exists i :: 0 <= i < n - 1 && Below(s[i], start) {
        var j :| 0 <= j < n - 1 && Below(s[j], start);
        assert forall i :: 0 <= i < n - 1 ==> s[..n - 1][i] == s[i];
      }
    }
  }

  /** With an infinite start the scan returns the first index of the minimum. */
  lemma NearestFromInfinity(s: seq<real>)
    requires |s| > 0
    ensures IsFirstMin(s, NearestIndex(s, Infinite))
  {
    ScanMeaning(s, |s|, Infinite);
    assert Below(s[0], Infinite);
    assert s[..|s|] == s;
  }

  /** With a finite start it does so exactly when some distance is below the start, or
      index zero happens to be the minimum. */
  lemma NearestFromLimit(s: seq<real>, limit: real)
    requires |s| > 0
    ensures IsFirstMin(s, NearestIndex(s, Finite(limit)))
       <==> (exists i :: 0 <= i < |s| && s[i] < limit) || (forall i :: 0 <= i < |s| ==> s[0] <= s[i])
  {
    ScanMeaning(s, |s|, Finite(limit));
    assert s[..|s|] == s;
    if exists i :: 0 <= i < |s| && s[i] < limit {
      var j :| 0 <= j < |s| && s[j] < limit;
      assert Below(s[j], Finite(limit));
    }
  }
}
