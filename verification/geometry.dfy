/**
 * Points, sizes and offsets of the drawing board, and the pixel rounding the
 * board applies before every draw call.
 */
module Geometry {

  /** A two-component tuple: a point (x, y), a size (width, height) or an offset. */
  datatype Pair = Pair(first: real, second: real)

  /** `Math.round`: the nearest integer, halves rounded towards +infinity. */
  function Round(x: real): (r: int)
    ensures x - 0.5 < r as real <= x + 0.5
  {
    (x + 0.5).Floor
  }

  /** `Math.round(x)` as a drawing coordinate. */
  function RoundR(x: real): real
  {
    Round(x) as real
  }

  /** Rounding leaves integral coordinates where they are. */
  lemma RoundIntegral(n: int)
    ensures Round(n as real) == n
  {
  }

  /** `size` is at least `bound` in both dimensions. */
  predicate Covers(size: Pair, bound: Pair)
  {
    size.first >= bound.first && size.second >= bound.second
  }

  /** Component-wise sum of a list of points. */
  function Sum(points: seq<Pair>): Pair
  {
    if points == [] then Pair(0.0, 0.0)
    else
      var rest := Sum(points[1..]);
      Pair(points[0].first + rest.first, points[0].second + rest.second)
  }

  /** The centre of a list of touch points: their mean position. */
  function Centroid(points: seq<Pair>): (r: Pair)
    requires |points| > 0
    ensures |points| == 1 ==> r == points[0]
  {
    var s := Sum(points);
    assert |points| == 1 ==> points[1..] == [] && Sum(points[1..]) == Pair(0.0, 0.0);
    Pair(s.first / |points| as real, s.second / |points| as real)
  }

  /** Every point of `points` moved by `delta`. */
  function Translate(points: seq<Pair>, delta: Pair): seq<Pair>
  {
    seq(|points|, i requires 0 <= i < |points| =>
      Pair(points[i].first + delta.first, points[i].second + delta.second))
  }

  lemma {:induction false} SumTranslate(points: seq<Pair>, delta: Pair)
    ensures Sum(Translate(points, delta))
         == Pair(Sum(points).first + |points| as real * delta.first,
                 Sum(points).second + |points| as real * delta.second)
    decreases |points|
  {
    if points != [] {
      assert Translate(points, delta)[1..] == Translate(points[1..], delta);
      SumTranslate(points[1..], delta);
    }
  }

  /** Moving every finger by `delta` moves their centre by exactly `delta`. */
  lemma CentroidTranslate(points: seq<Pair>, delta: Pair)
    requires |points| > 0
    ensures Centroid(Translate(points, delta))
         == Pair(Centroid(points).first + delta.first, Centroid(points).second + delta.second)
  {
    var t := Translate(points, delta);
    var n := |points| as real;
    var s := Sum(points);
    SumTranslate(points, delta);
    assert |t| == |points|;
    var c, ct := Centroid(points), Centroid(t);
    assert c.first == s.first / n && c.second == s.second / n;
    assert ct.first == Sum(t).first / n && ct.second == Sum(t).second / n;
    MeanShift(s.first, n, delta.first);
    MeanShift(s.second, n, delta.second);
  }

  /** A lower bound on every point, times the number of points, bounds their sum from below. */
  lemma {:induction false} SumAbove(points: seq<Pair>, lo: Pair)
    requires forall i :: 0 <= i < |points| ==> Covers(points[i], lo)
    ensures Covers(Sum(points), Pair(|points| as real * lo.first, |points| as real * lo.second))
    decreases |points|
  {
    if points != [] {
      var k := |points[1..]| as real;
      assert Covers(points[0], lo);
      assert forall i :: 0 <= i < |points[1..]| ==> points[1..][i] == points[i + 1];
      SumAbove(points[1..], lo);
      OneMore(k, lo.first);
      OneMore(k, lo.second);
    }
  }

  /** An upper bound on every point, times the number of points, bounds their sum from above. */
  lemma {:induction false} SumBelow(points: seq<Pair>, hi: Pair)
    requires forall i :: 0 <= i < |points| ==> Covers(hi, points[i])
    ensures Covers(Pair(|points| as real * hi.first, |points| as real * hi.second), Sum(points))
    decreases |points|
  {
    if points != [] {
      var k := |points[1..]| as real;
      assert Covers(hi, points[0]);
      assert forall i :: 0 <= i < |points[1..]| ==> points[1..][i] == points[i + 1];
      SumBelow(points[1..], hi);
      OneMore(k, hi.first);
      OneMore(k, hi.second);
    }
  }

  lemma OneMore(k: real, x: real)
    ensures (k + 1.0) * x == k * x + x
  {
  }

  /** The centre of the fingers lies inside any box that holds every finger. */
  lemma CentroidWithin(points: seq<Pair>, lo: Pair, hi: Pair)
    requires |points| > 0
    requires forall i :: 0 <= i < |points| ==> Covers(points[i], lo) && Covers(hi, points[i])
    ensures Covers(Centroid(points), lo) && Covers(hi, Centroid(points))
  {
    SumAbove(points, lo);
    SumBelow(points, hi);
    var n := |points| as real;
    var s := Sum(points);
    MeanWithin(s.first, n, lo.first, hi.first);
    MeanWithin(s.second, n, lo.second, hi.second);
  }

  /** A sum between n times two bounds has its mean between those bounds. */
  lemma MeanWithin(s: real, n: real, lo: real, hi: real)
    requires n > 0.0 && n * lo <= s <= n * hi
    ensures lo <= s / n <= hi
  {
    assert s / n * n == s;
  }

  /** The product of two non-negative numbers is non-negative. */
  lemma ProductNonNegative(x: real, y: real)
    ensures x >= 0.0 && y >= 0.0 ==> x * y >= 0.0
  {
  }

  /** A non-negative number divided by a positive one is non-negative. */
  lemma QuotientNonNegative(x: real, y: real)
    ensures x >= 0.0 && y > 0.0 ==> x / y >= 0.0
  {
  }

  /** A number at least as large as a positive divisor gives a quotient of at least 1. */
  lemma QuotientAtLeastOne(x: real, y: real)
    ensures y > 0.0 && x >= y ==> x / y >= 1.0
  {
  }

  /** Dividing a sum shifted by `n` times `d` by `n` shifts the mean by `d`. */
  lemma MeanShift(s: real, n: real, d: real)
    requires n > 0.0
    ensures (s + n * d) / n == s / n + d
  {
    assert (s + n * d) / n == s / n + (n * d) / n;
  }
}
