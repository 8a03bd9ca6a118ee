/** The distances the kernels are for, coordinate by coordinate, and the laws that make them
    distances. Nothing here is shared with a kernel.
 */
module Metrics {

  ghost function Dot(x: seq<real>, y: seq<real>): real
    requires |x| == |y|
  {
    if |x| == 0 then 0.0 else Dot(x[..|x| - 1], y[..|y| - 1]) + x[|x| - 1] * y[|y| - 1]
  }

  ghost function SquaredDistance(x: seq<real>, y: seq<real>): real
    requires |x| == |y|
  {
    if |x| == 0 then 0.0
    else
      var n := |x| - 1;
      SquaredDistance(x[..n], y[..n]) + (x[n] - y[n]) * (x[n] - y[n])
  }

  ghost function Manhattan(x: seq<real>, y: seq<real>): real
    requires |x| == |y|
  {
    if |x| == 0 then 0.0
    else
      var n := |x| - 1;
      Manhattan(x[..n], y[..n]) + if x[n] < y[n] then y[n] - x[n] else x[n] - y[n]
  }

  /** r bounds the difference of every coordinate, and is that of some coordinate or zero. */
  ghost predicate IsChebyshev(x: seq<real>, y: seq<real>, r: real)
    requires |x| == |y|
  {
    && r >= 0.0 && (forall i :: 0 <= i < |x| ==> -r <= x[i] - y[i] <= r)
    && (r == 0.0 || exists i :: 0 <= i < |x| && (r == x[i] - y[i] || r == y[i] - x[i]))
  }

  lemma SameOrDifferent(x: seq<real>, y: seq<real>)
    requires |x| == |y| > 0
    ensures x == y <==> x[..|x| - 1] == y[..|x| - 1] && x[|x| - 1] == y[|x| - 1]
  {
    var n := |x| - 1;
    assert x == x[..n] + [x[n]] && y == y[..n] + [y[n]];
  }

  lemma {:induction false} DotSymmetric(x: seq<real>, y: seq<real>)
    requires |x| == |y|
    ensures Dot(x, y) == Dot(y, x)
  {
    if |x| > 0 {
      DotSymmetric(x[..|x| - 1], y[..|x| - 1]);
    }
  }

  lemma SquareNotNegative(a: real)
    ensures a * a >= 0.0
  {
  }

  lemma {:induction false} SquaredDistanceNotNegative(x: seq<real>, y: seq<real>)
    requires |x| == |y|
    ensures SquaredDistance(x, y) >= 0.0
  {
    if |x| > 0 {
      SquaredDistanceNotNegative(x[..|x| - 1], y[..|x| - 1]);
      SquareNotNegative(x[|x| - 1] - y[|x| - 1]);
    }
  }

  lemma {:induction false} SquaredDistanceExpands(x: seq<real>, y: seq<real>)
    requires |x| == |y|
    ensures SquaredDistance(x, y) == SquaredDistance(y, x)
    ensures SquaredDistance(x, y) == Dot(x, x) + Dot(y, y) - 2.0 * Dot(x, y)
  {
    if |x| > 0 {
      var n := |x| - 1;
      SquaredDistanceExpands(x[..n], y[..n]);
      Expand(x[n], y[n]);
    }
  }

  lemma Expand(a: real, b: real)
    ensures (a - b) * (a - b) == (b - a) * (b - a) == a * a + b * b - 2.0 * (a * b)
  {
  }

  lemma {:induction false} ManhattanLaws(x: seq<real>, y: seq<real>)
    requires |x| == |y|
    ensures Manhattan(x, y) >= 0.0 && (Manhattan(x, y) == 0.0 <==> x == y)
    ensures Manhattan(x, y) == Manhattan(y, x)
    ensures forall i :: 0 <= i < |x| ==> x[i] - y[i] <= Manhattan(x, y) && y[i] - x[i] <= Manhattan(x, y)
  {
    if |x| > 0 {
      var n := |x| - 1;
      ManhattanLaws(x[..n], y[..n]);
      SameOrDifferent(x, y);
      forall i | 0 <= i < |x| ensures x[i] - y[i] <= Manhattan(x, y) && y[i] - x[i] <= Manhattan(x, y) {
        assert i < n ==> x[..n][i] == x[i] && y[..n][i] == y[i];
      }
    }
  }

  lemma {:induction false} ManhattanTriangle(x: seq<real>, y: seq<real>, z: seq<real>)
    requires |x| == |y| == |z|
    ensures Manhattan(x, z) <= Manhattan(x, y) + Manhattan(y, z)
  {
    if |x| > 0 {
      var n := |x| - 1;
      ManhattanTriangle(x[..n], y[..n], z[..n]);
    }
  }

  lemma ChebyshevUnique(x: seq<real>, y: seq<real>, r: real, s: real)
    requires |x| == |y| && IsChebyshev(x, y, r) && IsChebyshev(x, y, s)
    ensures r == s
  {
  }
}
