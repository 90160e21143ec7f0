/**
 * Points of the plane and the distance both clustering components use.
 *
 * Coordinates are `real`s. The distance is the SQUARED Euclidean distance:
 * the square root the program applies is strictly monotone on non-negative
 * reals, so every comparison the program makes between distances (the
 * nearest centroid, the first minimum, "strictly greater than the threshold")
 * has the same outcome on squared distances, provided the threshold is given
 * in the same units.
 */
module Geometry {

  /** A 2-D point, the `[x, y]` pair the program reads from its CSV input. */
  datatype Point = Point(x: real, y: real)

  /**
   * Real multiplication as a named function. The squares in the distance are
   * written with it, and `MulSign` states once the sign rules the proofs
   * about distances use.
   */
  function Mul(a: real, b: real): real
  {
    a * b
  }

  /** Sign rules for a product. */
  lemma MulSign(a: real, b: real)
    ensures a > 0.0 && b > 0.0 ==> Mul(a, b) > 0.0
    ensures a < 0.0 && b < 0.0 ==> Mul(a, b) > 0.0
    ensures a == 0.0 || b == 0.0 ==> Mul(a, b) == 0.0
  {
  }

  /**
   * Squared Euclidean distance between two points: `euclidean_distance`
   * without its final square root. It is a non-negative quantity that is zero
   * exactly for identical points.
   */
  function SqDist(p: Point, q: Point): (d: real)
    ensures d >= 0.0
    ensures d == 0.0 <==> p == q
  {
    var dx, dy := p.x - q.x, p.y - q.y;
    MulSign(dx, dx);
    MulSign(dy, dy);
    Mul(dx, dx) + Mul(dy, dy)
  }

  /** The distance does not depend on the order of its arguments. */
  lemma SqDistSymmetric(p: Point, q: Point)
    ensures SqDist(p, q) == SqDist(q, p)
  {
    assert Mul(p.x - q.x, p.x - q.x) == Mul(q.x - p.x, q.x - p.x);
    assert Mul(p.y - q.y, p.y - q.y) == Mul(q.y - p.y, q.y - p.y);
  }

  /** The distance in terms of given coordinate differences. */
  lemma SqDistOf(p: Point, q: Point, dx: real, dy: real)
    requires dx == p.x - q.x && dy == p.y - q.y
    ensures SqDist(p, q) == Mul(dx, dx) + Mul(dy, dy)
  {
  }

  /** The distances from `p` to each of `cs`, in the order of `cs`. */
  function Distances(p: Point, cs: seq<Point>): seq<real>
  {
    seq(|cs|, i requires 0 <= i < |cs| => SqDist(p, cs[i]))
  }

  /**
   * The smallest element of a non-empty sequence (Python's `min`): the first
   * element compared with the smallest of the rest.
   */
  function Min(ds: seq<real>): (m: real)
    requires ds != []
    ensures m in ds
    ensures forall i :: 0 <= i < |ds| ==> m <= ds[i]
  {
    if |ds| == 1 then ds[0]
    else
      var rest := Min(ds[1..]);
      if rest < ds[0] then rest else ds[0]
  }

  /** The first index at which `v` occurs in `ds` (Python's `list.index`). */
  function FirstIndexOf(ds: seq<real>, v: real): (i: nat)
    requires v in ds
    ensures i < |ds| && ds[i] == v
    ensures forall j :: 0 <= j < i ==> ds[j] != v
  {
    if ds[0] == v then 0 else 1 + FirstIndexOf(ds[1..], v)
  }

  /**
   * The index of the centroid nearest to `p`, ties going to the lowest index:
   * `distances.index(min(distances))`.
   */
  function Nearest(p: Point, cs: seq<Point>): (n: nat)
    requires cs != []
    ensures n < |cs|
    ensures forall j :: 0 <= j < |cs| ==> SqDist(p, cs[n]) <= SqDist(p, cs[j])
    ensures forall j :: 0 <= j < n ==> SqDist(p, cs[j]) > SqDist(p, cs[n])
  {
    var ds := Distances(p, cs);
    var n := FirstIndexOf(ds, Min(ds));
    assert forall j :: 0 <= j < |cs| ==> ds[j] == SqDist(p, cs[j]);
    n
  }

  /** The distance from `p` to its nearest centroid: `min(distance_to_centroids)`. */
  function NearestDistance(p: Point, cs: seq<Point>): (d: real)
    requires cs != []
    ensures exists i :: 0 <= i < |cs| && d == SqDist(p, cs[i])
    ensures forall i :: 0 <= i < |cs| ==> d <= SqDist(p, cs[i])
  {
    var ds := Distances(p, cs);
    var d := Min(ds);
    assert forall j :: 0 <= j < |cs| ==> ds[j] == SqDist(p, cs[j]);
    var i := FirstIndexOf(ds, d);
    assert d == SqDist(p, cs[i]);
    d
  }

  lemma NearestDistanceIsNearest(p: Point, cs: seq<Point>)
    requires cs != []
    ensures NearestDistance(p, cs) == SqDist(p, cs[Nearest(p, cs)])
  {
    var n := Nearest(p, cs);
    var d := NearestDistance(p, cs);
    var i :| 0 <= i < |cs| && d == SqDist(p, cs[i]);
    assert SqDist(p, cs[n]) <= d;
  }
}
