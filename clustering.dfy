/**
 * K-means clustering of 2-D points (`KMeans` in Credit_Card_Customer/kMeans.py).
 *
 * The class keeps the program's three fields: the points `data`, the current
 * `centroids` and the `clusters` built by the last assignment step. Each of
 * its state-changing methods is proved against a specification function
 * (`Buckets` for the assignment step, `Updated` for the update step, `Lloyd`
 * for the whole bounded loop), and the properties of the algorithm are
 * proved as lemmas about those functions.
 */
module Clustering {
  import opened Geometry
  import opened Indices

  // ---------------------------------------------------------------------------
  // Means
  // ---------------------------------------------------------------------------

  /** `sum(point[0] for point in c)`. */
  function SumX(c: seq<Point>): real
  {
    if c == [] then 0.0 else c[0].x + SumX(c[1..])
  }

  /** `sum(point[1] for point in c)`. */
  function SumY(c: seq<Point>): real
  {
    if c == [] then 0.0 else c[0].y + SumY(c[1..])
  }

  /** The componentwise mean of a non-empty cluster. */
  function Mean(c: seq<Point>): Point
    requires c != []
  {
    Point(SumX(c) / (|c| as real), SumY(c) / (|c| as real))
  }

  lemma MulSucc(n: real, a: real)
    ensures Mul(n + 1.0, a) == Mul(n, a) + a
  {
  }

  /** Sums of values lying in `[lo, hi]` lie in `[n * lo, n * hi]`. */
  lemma {:induction false} SumXBounds(c: seq<Point>, lo: real, hi: real)
    requires forall p :: p in c ==> lo <= p.x <= hi
    ensures Mul(|c| as real, lo) <= SumX(c) <= Mul(|c| as real, hi)
  {
    if c != [] {
      SumXBounds(c[1..], lo, hi);
      assert c[0] in c;
      var n := |c[1..]| as real;
      assert |c| as real == n + 1.0;
      MulSucc(n, lo);
      MulSucc(n, hi);
    }
  }

  lemma {:induction false} SumYBounds(c: seq<Point>, lo: real, hi: real)
    requires forall p :: p in c ==> lo <= p.y <= hi
    ensures Mul(|c| as real, lo) <= SumY(c) <= Mul(|c| as real, hi)
  {
    if c != [] {
      SumYBounds(c[1..], lo, hi);
      assert c[0] in c;
      var n := |c[1..]| as real;
      assert |c| as real == n + 1.0;
      MulSucc(n, lo);
      MulSucc(n, hi);
    }
  }

  /** Division by a positive count keeps a value between the scaled bounds. */
  lemma DivideBounds(s: real, n: real, lo: real, hi: real)
    requires n > 0.0
    requires Mul(n, lo) <= s <= Mul(n, hi)
    ensures lo <= s / n <= hi
  {
    var q := s / n;
    assert Mul(n, q) == s;
    MulSign(n, lo - q);
    MulSign(n, q - hi);
  }

  /**
   * The mean of a cluster lies in the cluster's bounding box: each coordinate
   * of the new centroid is between the smallest and the largest coordinate
   * of the cluster's points.
   */
  lemma MeanWithinBounds(c: seq<Point>, xlo: real, xhi: real, ylo: real, yhi: real)
    requires c != []
    requires forall p :: p in c ==> xlo <= p.x <= xhi && ylo <= p.y <= yhi
    ensures xlo <= Mean(c).x <= xhi && ylo <= Mean(c).y <= yhi
  {
    SumXBounds(c, xlo, xhi);
    SumYBounds(c, ylo, yhi);
    DivideBounds(SumX(c), |c| as real, xlo, xhi);
    DivideBounds(SumY(c), |c| as real, ylo, yhi);
  }

  /** A cluster whose points all coincide has that point as its mean. */
  lemma MeanOfCoincidentPoints(c: seq<Point>, p: Point)
    requires c != []
    requires forall q :: q in c ==> q == p
    ensures Mean(c) == p
  {
    MeanWithinBounds(c, p.x, p.x, p.y, p.y);
  }

  // ---------------------------------------------------------------------------
  // Assignment step
  // ---------------------------------------------------------------------------

  /**
   * The clusters `assign_clusters` builds: `k` lists, filled by visiting the
   * points in order and appending each to the list of its nearest centroid.
   */
  function Buckets(data: seq<Point>, cs: seq<Point>, k: nat): (b: seq<seq<Point>>)
    requires |cs| == k
    requires k > 0 || data == []
    ensures |b| == k
    decreases |data|
  {
    if data == [] then seq(k, _ => [])
    else
      var b := Buckets(data[..|data| - 1], cs, k);
      var p := data[|data| - 1];
      var n := Nearest(p, cs);
      b[n := b[n] + [p]]
  }

  /**
   * Reference definition of cluster `i`: the points of `data` whose nearest
   * centroid is `i`, in the order they have in `data`.
   */
  function ClusterOf(data: seq<Point>, cs: seq<Point>, i: nat): (r: seq<Point>)
    requires cs != []
    ensures forall p :: p in r <==> p in data && Nearest(p, cs) == i
  {
    if data == [] then []
    else (if Nearest(data[0], cs) == i then [data[0]] else []) + ClusterOf(data[1..], cs, i)
  }

  lemma {:induction false} ClusterOfAppend(data: seq<Point>, p: Point, cs: seq<Point>, i: nat)
    requires cs != []
    ensures ClusterOf(data + [p], cs, i)
         == ClusterOf(data, cs, i) + (if Nearest(p, cs) == i then [p] else [])
  {
    if data == [] {
      assert [p][1..] == [];
      assert ClusterOf([p], cs, i) == (if Nearest(p, cs) == i then [p] else []) + ClusterOf([], cs, i);
    } else {
      var d := data + [p];
      assert d[0] == data[0];
      assert d[1..] == data[1..] + [p];
      ClusterOfAppend(data[1..], p, cs, i);
    }
  }

  /** Cluster `i` of the assignment step is exactly the reference `ClusterOf(data, cs, i)`. */
  lemma {:induction false} BucketsAreClusters(data: seq<Point>, cs: seq<Point>, k: nat, i: nat)
    requires |cs| == k && k > 0
    requires i < k
    ensures Buckets(data, cs, k)[i] == ClusterOf(data, cs, i)
    decreases |data|
  {
    if data != [] {
      var init, p := data[..|data| - 1], data[|data| - 1];
      BucketsAreClusters(init, cs, k, i);
      assert data == init + [p];
      ClusterOfAppend(init, p, cs, i);
    }
  }

  /** `a` is `b` with some elements left out, the rest keeping their order. */
  predicate IsSubsequence(a: seq<Point>, b: seq<Point>)
    decreases |b|
  {
    if a == [] then true
    else if b == [] then false
    else (a[0] == b[0] && IsSubsequence(a[1..], b[1..])) || IsSubsequence(a, b[1..])
  }

  lemma {:induction false} ClusterOfIsSubsequence(data: seq<Point>, cs: seq<Point>, i: nat)
    requires cs != []
    ensures IsSubsequence(ClusterOf(data, cs, i), data)
  {
    if data != [] {
      ClusterOfIsSubsequence(data[1..], cs, i);
      var rest := ClusterOf(data[1..], cs, i);
      if Nearest(data[0], cs) == i {
        assert ClusterOf(data, cs, i) == [data[0]] + rest;
        assert ([data[0]] + rest)[1..] == rest;
      } else {
        assert ClusterOf(data, cs, i) == rest;
      }
    }
  }

  /**
   * Where the assignment step puts a point: cluster `i` holds only points of
   * `data`, no centroid is strictly closer to them than centroid `i`, every
   * centroid with a smaller index is strictly farther, and within the cluster
   * the points keep their relative order from `data`.
   */
  lemma AssignedToNearest(data: seq<Point>, cs: seq<Point>, k: nat, i: nat)
    requires |cs| == k && i < k
    ensures forall p :: p in Buckets(data, cs, k)[i] ==>
      && p in data
      && (forall j :: 0 <= j < k ==> SqDist(p, cs[i]) <= SqDist(p, cs[j]))
      && (forall j :: 0 <= j < i ==> SqDist(p, cs[j]) > SqDist(p, cs[i]))
    ensures forall p :: p in data && Nearest(p, cs) == i ==> p in Buckets(data, cs, k)[i]
    ensures IsSubsequence(Buckets(data, cs, k)[i], data)
  {
    BucketsAreClusters(data, cs, k, i);
    ClusterOfIsSubsequence(data, cs, i);
  }

  /** The multiset union of a list of clusters. */
  function Union(b: seq<seq<Point>>): multiset<Point>
  {
    if b == [] then multiset{} else multiset(b[0]) + Union(b[1..])
  }

  /** The sum of the cluster sizes. */
  function TotalSize(b: seq<seq<Point>>): nat
  {
    if b == [] then 0 else |b[0]| + TotalSize(b[1..])
  }

  lemma {:induction false} UnionOfEmpty(k: nat)
    ensures Union(seq(k, _ => [])) == multiset{}
  {
    if k > 0 {
      var e: seq<seq<Point>> := seq(k, _ => []);
      assert e[1..] == seq(k - 1, _ => []);
      UnionOfEmpty(k - 1);
    }
  }

  lemma {:induction false} UnionAppendTo(b: seq<seq<Point>>, n: nat, p: Point)
    requires n < |b|
    ensures Union(b[n := b[n] + [p]]) == Union(b) + multiset{p}
  {
    var b' := b[n := b[n] + [p]];
    if n == 0 {
      assert b'[1..] == b[1..];
    } else {
      assert b'[1..] == b[1..][n - 1 := b[1..][n - 1] + [p]];
      UnionAppendTo(b[1..], n - 1, p);
    }
  }

  lemma {:induction false} TotalSizeIsCardinality(b: seq<seq<Point>>)
    ensures TotalSize(b) == |Union(b)|
  {
    if b != [] {
      TotalSizeIsCardinality(b[1..]);
    }
  }

  /**
   * The assignment step places every point in exactly one cluster: the
   * multiset union of the clusters is the multiset of points, so the cluster
   * sizes add up to the number of points.
   */
  lemma {:induction false} BucketsPartition(data: seq<Point>, cs: seq<Point>, k: nat)
    requires |cs| == k
    requires k > 0 || data == []
    ensures Union(Buckets(data, cs, k)) == multiset(data)
    ensures TotalSize(Buckets(data, cs, k)) == |data|
    decreases |data|
  {
    if data == [] {
      UnionOfEmpty(k);
    } else {
      var init, p := data[..|data| - 1], data[|data| - 1];
      BucketsPartition(init, cs, k);
      UnionAppendTo(Buckets(init, cs, k), Nearest(p, cs), p);
      assert data == init + [p];
    }
    TotalSizeIsCardinality(Buckets(data, cs, k));
  }

  // ---------------------------------------------------------------------------
  // Update step and the whole loop
  // ---------------------------------------------------------------------------

  /**
   * The centroids after `update_centroids`: centroid `i` becomes the mean of
   * cluster `i` when that cluster is non-empty and stays as it was otherwise.
   */
  function Updated(cs: seq<Point>, clusters: seq<seq<Point>>): seq<Point>
    requires |clusters| <= |cs|
  {
    seq(|cs|, i requires 0 <= i < |cs| =>
      if i < |clusters| && clusters[i] != [] then Mean(clusters[i]) else cs[i])
  }

  /** Re-running the update step on an unchanged assignment changes nothing. */
  lemma UpdateIdempotent(cs: seq<Point>, clusters: seq<seq<Point>>)
    requires |clusters| <= |cs|
    ensures Updated(Updated(cs, clusters), clusters) == Updated(cs, clusters)
  {
  }

  /** One round of the loop: assign, then update. */
  function Step(data: seq<Point>, k: nat, cs: seq<Point>): seq<Point>
    requires |cs| == k
    requires k > 0 || data == []
  {
    Updated(cs, Buckets(data, cs, k))
  }

  /** The state `run` leaves behind, with the number of rounds it took. */
  datatype Trace = Trace(centroids: seq<Point>, clusters: seq<seq<Point>>, rounds: nat, converged: bool)

  /**
   * The loop of `run` from round `done` on, for at most `max` rounds in all:
   * each round assigns, updates, and stops early when the updated centroids
   * equal those the round started from.
   */
  function Lloyd(data: seq<Point>, k: nat, cs: seq<Point>, cl: seq<seq<Point>>, done: nat, max: nat): (t: Trace)
    requires |cs| == k
    requires done < max ==> k > 0 || data == []
    requires done <= max
    ensures done <= t.rounds <= max
    ensures |t.centroids| == k
    ensures !t.converged ==> t.rounds == max
    ensures t.rounds == done ==> t.centroids == cs && t.clusters == cl
    decreases max - done
  {
    if done == max then Trace(cs, cl, done, false)
    else
      var cl' := Buckets(data, cs, k);
      var cs' := Updated(cs, cl');
      if cs' == cs then Trace(cs', cl', done + 1, true)
      else Lloyd(data, k, cs', cl', done + 1, max)
  }

  /**
   * With no points and no centroids the first round reproduces the empty
   * centroid list, so the loop stops after one round.
   */
  lemma EmptyDataStopsAfterOneRound(max: nat)
    requires max > 0
    ensures Lloyd([], 0, [], [], 0, max) == Trace([], [], 1, true)
  {
    var none: seq<Point> := [];
    assert Buckets([], none, 0) == [];
    assert Updated(none, []) == none;
  }

  /**
   * When the loop stops early, the centroids are a fixed point: the clusters
   * are the assignment for the final centroids, and one more round would
   * reproduce the same centroids.
   */
  lemma {:induction false} LloydConvergedIsFixedPoint(data: seq<Point>, k: nat, cs: seq<Point>, cl: seq<seq<Point>>, done: nat, max: nat)
    requires |cs| == k
    requires done < max ==> k > 0 || data == []
    requires done <= max
    ensures var t := Lloyd(data, k, cs, cl, done, max);
      t.converged ==>
        && t.clusters == Buckets(data, t.centroids, k)
        && Step(data, k, t.centroids) == t.centroids
    decreases max - done
  {
    if done < max {
      var cl' := Buckets(data, cs, k);
      var cs' := Updated(cs, cl');
      if cs' != cs {
        LloydConvergedIsFixedPoint(data, k, cs', cl', done + 1, max);
      }
    }
  }

  /**
   * After at least one round, the clusters partition the points, and every
   * centroid with a non-empty cluster is the mean of that cluster.
   */
  lemma {:induction false} LloydCentroidsAreMeans(data: seq<Point>, k: nat, cs: seq<Point>, cl: seq<seq<Point>>, done: nat, max: nat)
    requires |cs| == k
    requires done < max ==> k > 0 || data == []
    requires done <= max
    ensures var t := Lloyd(data, k, cs, cl, done, max);
      t.rounds > done ==>
        && |t.clusters| == k
        && Union(t.clusters) == multiset(data)
        && forall i :: 0 <= i < k && t.clusters[i] != [] ==> t.centroids[i] == Mean(t.clusters[i])
    decreases max - done
  {
    if done < max {
      var cl' := Buckets(data, cs, k);
      var cs' := Updated(cs, cl');
      BucketsPartition(data, cs, k);
      if cs' != cs {
        LloydCentroidsAreMeans(data, k, cs', cl', done + 1, max);
      }
    }
  }

  // ---------------------------------------------------------------------------
  // A worked run: two pairs of points
  //
  // Four points in two well-separated pairs, started from the first point of
  // each pair. The points are lemma parameters fixed by `requires` rather than
  // literals: on literal arguments the verifier unfolds `Buckets`, `Nearest`
  // and the distance all the way down, which makes the proofs far too costly.
  // Each distance comparison is instead stated once, from literal coordinate
  // differences (`NearestOfTwoBy`), and the rounds are assembled from the
  // assignment of one point at a time.
  // ---------------------------------------------------------------------------

  /** Nearest centroid of `p` among two centroids, by direct comparison. */
  lemma NearestOfTwo(p: Point, a: Point, b: Point)
    ensures SqDist(p, a) <= SqDist(p, b) ==> Nearest(p, [a, b]) == 0
    ensures SqDist(p, a) > SqDist(p, b) ==> Nearest(p, [a, b]) == 1
  {
    var n := Nearest(p, [a, b]);
    assert [a, b][0] == a && [a, b][1] == b;
  }

  /**
   * Nearest centroid of `p` among two centroids, from the coordinate
   * differences `(dax, day)` to the first and `(dbx, dby)` to the second.
   */
  lemma NearestOfTwoBy(p: Point, a: Point, b: Point, dax: real, day: real, dbx: real, dby: real)
    requires dax == p.x - a.x && day == p.y - a.y && dbx == p.x - b.x && dby == p.y - b.y
    ensures Mul(dax, dax) + Mul(day, day) <= Mul(dbx, dbx) + Mul(dby, dby) ==> Nearest(p, [a, b]) == 0
    ensures Mul(dax, dax) + Mul(day, day) > Mul(dbx, dbx) + Mul(dby, dby) ==> Nearest(p, [a, b]) == 1
  {
    SqDistOf(p, a, dax, day);
    SqDistOf(p, b, dbx, dby);
    NearestOfTwo(p, a, b);
  }

  /** One more point: the assignment step appends it to its nearest centroid's cluster. */
  lemma BucketsSnoc(init: seq<Point>, p: Point, cs: seq<Point>, k: nat)
    requires |cs| == k && k > 0
    ensures var b := Buckets(init, cs, k); var n := Nearest(p, cs);
      Buckets(init + [p], cs, k) == b[n := b[n] + [p]]
  {
    assert (init + [p])[..|init|] == init;
  }

  /** With two centroids, a point nearest the first joins the first cluster. */
  lemma SnocToFirst(init: seq<Point>, p: Point, a: Point, b: Point, c0: seq<Point>, c1: seq<Point>)
    requires Buckets(init, [a, b], 2) == [c0, c1]
    requires Nearest(p, [a, b]) == 0
    ensures Buckets(init + [p], [a, b], 2) == [c0 + [p], c1]
  {
    BucketsSnoc(init, p, [a, b], 2);
    var e := [c0, c1];
    assert e[0 := e[0] + [p]] == [c0 + [p], c1];
  }

  /** With two centroids, a point nearest the second joins the second cluster. */
  lemma SnocToSecond(init: seq<Point>, p: Point, a: Point, b: Point, c0: seq<Point>, c1: seq<Point>)
    requires Buckets(init, [a, b], 2) == [c0, c1]
    requires Nearest(p, [a, b]) == 1
    ensures Buckets(init + [p], [a, b], 2) == [c0, c1 + [p]]
  {
    BucketsSnoc(init, p, [a, b], 2);
    var e := [c0, c1];
    assert e[1 := e[1] + [p]] == [c0, c1 + [p]];
  }

  /** The assignment step groups two pairs of points when each pair is nearest its own centroid. */
  lemma PairsAssigned(p0: Point, p1: Point, p2: Point, p3: Point, a: Point, b: Point)
    requires Nearest(p0, [a, b]) == 0 && Nearest(p1, [a, b]) == 0
    requires Nearest(p2, [a, b]) == 1 && Nearest(p3, [a, b]) == 1
    ensures Buckets([p0, p1, p2, p3], [a, b], 2) == [[p0, p1], [p2, p3]]
  {
    var none: seq<Point> := [];
    var ab := [a, b];
    assert Buckets([], ab, 2) == [none, none];
    assert Buckets([p0], ab, 2) == [[p0], none] by {
      SnocToFirst([], p0, a, b, none, none);
      assert [] + [p0] == [p0] && none + [p0] == [p0];
    }
    assert Buckets([p0, p1], ab, 2) == [[p0, p1], none] by {
      SnocToFirst([p0], p1, a, b, [p0], none);
      assert [p0] + [p1] == [p0, p1];
    }
    assert Buckets([p0, p1, p2], ab, 2) == [[p0, p1], [p2]] by {
      SnocToSecond([p0, p1], p2, a, b, [p0, p1], none);
      assert [p0, p1] + [p2] == [p0, p1, p2] && none + [p2] == [p2];
    }
    SnocToSecond([p0, p1, p2], p3, a, b, [p0, p1], [p2]);
    assert [p0, p1, p2] + [p3] == [p0, p1, p2, p3] && [p2] + [p3] == [p2, p3];
  }

  /** The mean of two points is their midpoint. */
  lemma MeanOfTwo(p: Point, q: Point)
    ensures Mean([p, q]) == Point((p.x + q.x) / 2.0, (p.y + q.y) / 2.0)
  {
    assert [p, q][1..] == [q];
    assert [q][1..] == [];
    assert SumX([]) == 0.0 && SumY([]) == 0.0;
    assert SumX([q]) == q.x + SumX([]);
    assert SumY([q]) == q.y + SumY([]);
    assert SumX([p, q]) == p.x + q.x;
    assert SumY([p, q]) == p.y + q.y;
  }

  /** The update step on two non-empty clusters moves both centroids to the means. */
  lemma UpdatedOfTwo(a: Point, b: Point, c0: seq<Point>, c1: seq<Point>)
    requires c0 != [] && c1 != []
    ensures Updated([a, b], [c0, c1]) == [Mean(c0), Mean(c1)]
  {
    var u := Updated([a, b], [c0, c1]);
    assert u[0] == Mean(c0) && u[1] == Mean(c1);
  }

  /** In the first round each point is nearest the first point of its own pair. */
  lemma FirstRoundNearest(p0: Point, p1: Point, p2: Point, p3: Point)
    requires p0 == Point(0.0, 0.0) && p1 == Point(0.0, 1.0)
    requires p2 == Point(10.0, 10.0) && p3 == Point(10.0, 11.0)
    ensures Nearest(p0, [p0, p2]) == 0 && Nearest(p1, [p0, p2]) == 0
    ensures Nearest(p2, [p0, p2]) == 1 && Nearest(p3, [p0, p2]) == 1
  {
    assert Nearest(p0, [p0, p2]) == 0 by { NearestOfTwoBy(p0, p0, p2, 0.0, 0.0, -10.0, -10.0); }
    assert Nearest(p1, [p0, p2]) == 0 by { NearestOfTwoBy(p1, p0, p2, 0.0, 1.0, -10.0, -9.0); }
    assert Nearest(p2, [p0, p2]) == 1 by { NearestOfTwoBy(p2, p0, p2, 10.0, 10.0, 0.0, 0.0); }
    assert Nearest(p3, [p0, p2]) == 1 by { NearestOfTwoBy(p3, p0, p2, 10.0, 11.0, 0.0, 1.0); }
  }

  /** In the second round each point is nearest the midpoint of its own pair. */
  lemma SecondRoundNearest(p0: Point, p1: Point, p2: Point, p3: Point, m0: Point, m1: Point)
    requires p0 == Point(0.0, 0.0) && p1 == Point(0.0, 1.0)
    requires p2 == Point(10.0, 10.0) && p3 == Point(10.0, 11.0)
    requires m0 == Point(0.0, 0.5) && m1 == Point(10.0, 10.5)
    ensures Nearest(p0, [m0, m1]) == 0 && Nearest(p1, [m0, m1]) == 0
    ensures Nearest(p2, [m0, m1]) == 1 && Nearest(p3, [m0, m1]) == 1
  {
    assert Nearest(p0, [m0, m1]) == 0 by { NearestOfTwoBy(p0, m0, m1, 0.0, -0.5, -10.0, -10.5); }
    assert Nearest(p1, [m0, m1]) == 0 by { NearestOfTwoBy(p1, m0, m1, 0.0, 0.5, -10.0, -9.5); }
    assert Nearest(p2, [m0, m1]) == 1 by { NearestOfTwoBy(p2, m0, m1, 10.0, 9.5, 0.0, -0.5); }
    assert Nearest(p3, [m0, m1]) == 1 by { NearestOfTwoBy(p3, m0, m1, 10.0, 10.5, 0.0, 0.5); }
  }

  /** The update step on the two pairs moves the centroids to the pairs' midpoints. */
  lemma TwoPairsMidpoints(p0: Point, p1: Point, p2: Point, p3: Point, a: Point, b: Point)
    requires p0 == Point(0.0, 0.0) && p1 == Point(0.0, 1.0)
    requires p2 == Point(10.0, 10.0) && p3 == Point(10.0, 11.0)
    ensures Updated([a, b], [[p0, p1], [p2, p3]]) == [Point(0.0, 0.5), Point(10.0, 10.5)]
  {
    UpdatedOfTwo(a, b, [p0, p1], [p2, p3]);
    MeanOfTwo(p0, p1);
    MeanOfTwo(p2, p3);
  }

  /** The first round on two pairs moves the centroids from two data points to the midpoints. */
  lemma TwoPairsFirstRound(p0: Point, p1: Point, p2: Point, p3: Point)
    requires p0 == Point(0.0, 0.0) && p1 == Point(0.0, 1.0)
    requires p2 == Point(10.0, 10.0) && p3 == Point(10.0, 11.0)
    ensures Buckets([p0, p1, p2, p3], [p0, p2], 2) == [[p0, p1], [p2, p3]]
    ensures Updated([p0, p2], [[p0, p1], [p2, p3]]) == [Point(0.0, 0.5), Point(10.0, 10.5)]
  {
    FirstRoundNearest(p0, p1, p2, p3);
    PairsAssigned(p0, p1, p2, p3, p0, p2);
    TwoPairsMidpoints(p0, p1, p2, p3, p0, p2);
  }

  /** The second round on two pairs reproduces the midpoints. */
  lemma TwoPairsSecondRound(p0: Point, p1: Point, p2: Point, p3: Point, m0: Point, m1: Point)
    requires p0 == Point(0.0, 0.0) && p1 == Point(0.0, 1.0)
    requires p2 == Point(10.0, 10.0) && p3 == Point(10.0, 11.0)
    requires m0 == Point(0.0, 0.5) && m1 == Point(10.0, 10.5)
    ensures Buckets([p0, p1, p2, p3], [m0, m1], 2) == [[p0, p1], [p2, p3]]
    ensures Updated([m0, m1], [[p0, p1], [p2, p3]]) == [m0, m1]
  {
    SecondRoundNearest(p0, p1, p2, p3, m0, m1);
    PairsAssigned(p0, p1, p2, p3, m0, m1);
    TwoPairsMidpoints(p0, p1, p2, p3, m0, m1);
  }

  /**
   * The scenario of four points in two well-separated pairs, started from the
   * first point of each pair: the first round moves the centroids to the
   * midpoints, the second reproduces them, and the loop stops after two rounds.
   */
  lemma TwoPairsConvergeInTwoRounds(p0: Point, p1: Point, p2: Point, p3: Point)
    requires p0 == Point(0.0, 0.0) && p1 == Point(0.0, 1.0)
    requires p2 == Point(10.0, 10.0) && p3 == Point(10.0, 11.0)
    ensures Lloyd([p0, p1, p2, p3], 2, [p0, p2], [], 0, 100)
      == Trace([Point(0.0, 0.5), Point(10.0, 10.5)], [[p0, p1], [p2, p3]], 2, true)
  {
    var data := [p0, p1, p2, p3];
    var m0, m1 := Point(0.0, 0.5), Point(10.0, 10.5);
    var cl := [[p0, p1], [p2, p3]];
    assert Lloyd(data, 2, [p0, p2], [], 0, 100) == Lloyd(data, 2, [m0, m1], cl, 1, 100) by {
      TwoPairsFirstRound(p0, p1, p2, p3);
      assert [m0, m1] != [p0, p2] by { assert [m0, m1][0] != [p0, p2][0]; }
    }
    TwoPairsSecondRound(p0, p1, p2, p3, m0, m1);
  }

  // ---------------------------------------------------------------------------
  // The class
  // ---------------------------------------------------------------------------

  /** Why `run` stops without clustering. */
  datatype RunError =
    | SampleLargerThanPopulation  // `random.sample(data, k)` with `k > len(data)`
    | MinOfEmptySequence          // `min(distances)` with no centroids to measure against

  datatype Outcome = Completed | Failed(error: RunError)

  /**
   * `sample` is a draw of `random.sample(range(n), k)`: `k` distinct indices
   * below `n`.
   */
  predicate IsSample(sample: seq<nat>, n: nat, k: nat)
  {
    && |sample| == k
    && (forall i :: 0 <= i < |sample| ==> sample[i] < n)
    && Distinct(sample)
  }

  /** The points at the drawn indices, in draw order. */
  function Draw(data: seq<Point>, sample: seq<nat>): (cs: seq<Point>)
    requires forall i :: 0 <= i < |sample| ==> sample[i] < |data|
    ensures |cs| == |sample|
    ensures forall p :: p in cs ==> p in data
  {
    seq(|sample|, i requires 0 <= i < |sample| => data[sample[i]])
  }

  /** Taking the last index out of a full draw leaves a full draw of the other indices. */
  lemma DrawWithoutLast(sample: seq<nat>, n: nat, i: nat)
    requires IsSample(sample, n, n) && i < n && sample[i] == n - 1
    ensures IsSample(sample[..i] + sample[i + 1..], n - 1, n - 1)
  {
    var sample' := sample[..i] + sample[i + 1..];
    assert forall j :: 0 <= j < i ==> sample'[j] == sample[j];
    assert forall j :: i <= j < n - 1 ==> sample'[j] == sample[j + 1];
  }

  /**
   * The points a full draw picks are the points the remaining indices pick
   * among the others, with the last point at the position of its index.
   */
  lemma DrawSplitsAtLast(data: seq<Point>, sample: seq<nat>, i: nat)
    requires IsSample(sample, |data|, |data|) && i < |data| && sample[i] == |data| - 1
    requires IsSample(sample[..i] + sample[i + 1..], |data| - 1, |data| - 1)
    ensures var e := Draw(data[..|data| - 1], sample[..i] + sample[i + 1..]);
      Draw(data, sample) == e[..i] + [data[|data| - 1]] + e[i..]
  {
    var n := |data|;
    var data', sample' := data[..n - 1], sample[..i] + sample[i + 1..];
    var d, e := Draw(data, sample), Draw(data', sample');
    var f := e[..i] + [data[n - 1]] + e[i..];
    forall j | 0 <= j < n
      ensures d[j] == f[j]
    {
      if j < i {
        assert sample'[j] == sample[j];
      } else if i < j {
        assert sample'[j - 1] == sample[j];
      }
    }
  }

  /** By pigeonhole, a full draw of a non-empty list contains its last index. */
  lemma LastIndexDrawn(sample: seq<nat>, n: nat) returns (i: nat)
    requires IsSample(sample, n, n) && n > 0
    ensures i < n && sample[i] == n - 1
  {
    DistinctIndicesCoverRange(sample, n);
    assert n - 1 in Elements(sample);
    i :| 0 <= i < n && sample[i] == n - 1;
  }

  lemma MultisetInsert(e: seq<Point>, i: nat, p: Point)
    requires i <= |e|
    ensures multiset(e[..i] + [p] + e[i..]) == multiset(e) + multiset{p}
  {
    assert e == e[..i] + e[i..];
  }

  /**
   * A draw of as many indices as there are points takes every point exactly
   * once: the centroids are the points, in some order.
   */
  lemma {:induction false} DrawAll(data: seq<Point>, sample: seq<nat>)
    requires IsSample(sample, |data|, |data|)
    ensures multiset(Draw(data, sample)) == multiset(data)
    decreases |data|
  {
    var n := |data|;
    if n > 0 {
      var i := LastIndexDrawn(sample, n);
      var data', sample' := data[..n - 1], sample[..i] + sample[i + 1..];
      DrawWithoutLast(sample, n, i);
      DrawAll(data', sample');
      DrawSplitsAtLast(data, sample, i);
      MultisetInsert(Draw(data', sample'), i, data[n - 1]);
      assert data == data' + [data[n - 1]];
    }
  }

  class KMeans {
    const k: nat
    var data: seq<Point>
    var centroids: seq<Point>
    var clusters: seq<seq<Point>>

    /** The state `initialise_centroids` establishes and every round keeps. */
    ghost predicate Initialised()
      reads this
    {
      |centroids| == k && (k > 0 || data == [])
    }

    constructor (k: nat, data: seq<Point>)
      ensures this.k == k && this.data == data
      ensures centroids == [] && clusters == []
    {
      this.k := k;
      this.data := data;
      centroids := [];
      clusters := [];
    }

    /**
     * `initialise_centroids`: the centroids become the points at the drawn
     * indices; a sample larger than the data set fails and changes nothing.
     */
    method InitialiseCentroids(sample: seq<nat>) returns (ok: bool)
      requires k <= |data| ==> IsSample(sample, |data|, k)
      modifies this`centroids
      ensures ok <==> k <= |data|
      ensures ok ==> centroids == Draw(data, sample)
      ensures !ok ==> centroids == old(centroids)
      ensures k == |data| ==> multiset(centroids) == multiset(data)
    {
      if k > |data| {
        return false;
      }
      centroids := Draw(data, sample);
      if k == |data| {
        DrawAll(data, sample);
      }
      return true;
    }

    /** `assign_clusters`: rebuild the `k` clusters from the current centroids. */
    method AssignClusters()
      requires Initialised()
      modifies this`clusters
      ensures clusters == Buckets(data, centroids, k)
    {
      clusters := seq(k, _ => []);
      for j := 0 to |data|
        invariant clusters == Buckets(data[..j], centroids, k)
      {
        var point := data[j];
        var clusterIndex := Nearest(point, centroids);
        assert data[..j + 1][..j] == data[..j];
        clusters := clusters[clusterIndex := clusters[clusterIndex] + [point]];
      }
      assert data[..|data|] == data;
    }

    /** `update_centroids`: move each centroid with a non-empty cluster to its mean. */
    method UpdateCentroids()
      requires |clusters| <= |centroids|
      modifies this`centroids
      ensures centroids == Updated(old(centroids), clusters)
    {
      for i := 0 to |clusters|
        invariant |centroids| == |old(centroids)|
        invariant forall j :: 0 <= j < |centroids| ==>
          centroids[j] == if j < i && clusters[j] != [] then Mean(clusters[j]) else old(centroids)[j]
      {
        var cluster := clusters[i];
        if cluster != [] {
          centroids := centroids[i := Mean(cluster)];
        }
      }
    }

    /** `has_converged`: the snapshot equals the current centroids, point by point. */
    function HasConverged(oldCentroids: seq<Point>): (r: bool)
      reads this
      ensures r <==> (|oldCentroids| == |centroids|
        && forall i :: 0 <= i < |centroids| ==>
             oldCentroids[i].x == centroids[i].x && oldCentroids[i].y == centroids[i].y)
    {
      oldCentroids == centroids
    }

    /**
     * `run`: draw the initial centroids, then at most `maxIterations` rounds of
     * assignment and update, stopping after the first round that leaves the
     * centroids as they were. The points are never changed.
     */
    method Run(maxIterations: nat, sample: seq<nat>) returns (outcome: Outcome)
      requires k <= |data| ==> IsSample(sample, |data|, k)
      modifies this`centroids, this`clusters
      ensures data == old(data)
      ensures k > |data| ==>
        outcome == Failed(SampleLargerThanPopulation)
        && centroids == old(centroids) && clusters == old(clusters)
      ensures k <= |data| && k == 0 && data != [] && maxIterations > 0 ==>
        outcome == Failed(MinOfEmptySequence) && centroids == [] && clusters == []
      ensures k <= |data| && (k > 0 || data == [] || maxIterations == 0) ==>
        && outcome == Completed
        && var t := Lloyd(data, k, Draw(data, sample), old(clusters), 0, maxIterations);
           centroids == t.centroids && clusters == t.clusters
    {
      var ok := InitialiseCentroids(sample);
      if !ok {
        return Failed(SampleLargerThanPopulation);
      }
      if k == 0 && data != [] && maxIterations > 0 {
        clusters := [];
        return Failed(MinOfEmptySequence);
      }
      ghost var target := Lloyd(data, k, centroids, clusters, 0, maxIterations);
      for i := 0 to maxIterations
        invariant |centroids| == k && data == old(data)
        invariant i < maxIterations ==> k > 0 || data == []
        invariant Lloyd(data, k, centroids, clusters, i, maxIterations) == target
      {
        var oldCentroids := centroids;
        AssignClusters();
        UpdateCentroids();
        assert centroids == Updated(oldCentroids, Buckets(data, oldCentroids, k));
        if HasConverged(oldCentroids) {
          assert centroids == oldCentroids;
          assert target == Trace(centroids, clusters, i + 1, true);
          break;
        }
        assert Lloyd(data, k, centroids, clusters, i + 1, maxIterations) == target;
      }
      assert centroids == target.centroids && clusters == target.clusters;
      return Completed;
    }
  }
}
