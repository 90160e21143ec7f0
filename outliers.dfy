/**
 * The centroid-distance outlier detector.
 *
 * Every point is measured against its nearest centroid; the points whose
 * distance is strictly greater than a percentile of all those distances are
 * the outliers, and the remaining indices are the inliers. The distance list
 * is built by a loop, so the detector is a class whose methods are proved
 * against the specification functions below; the index lists are
 * comprehensions, so they are functions with their properties proved as
 * lemmas.
 *
 * The percentile is a parameter: a function from the distance list and the
 * configured percentile to a threshold. Every property here holds whatever
 * threshold it returns.
 */
module Outliers {
  import opened Geometry
  import opened Indices

  /** The `ValueError` messages the detector raises. */
  const DetectWithoutData := "Data is empty. Load data before trying to detect outliers"
  const DetectWithoutCentroids := "Centroids are empty. Trying running k-means to detect the centroids before"
  const SplitWithoutData := "Data is empty. Load data before processing."

  /** A value, or the `ValueError` raised instead of it. */
  datatype Result<T> = Ok(value: T) | ValueError(message: string)

  /** What `split_the_data` returns: inlier indices, outlier indices, centroids. */
  datatype Split = Split(inliers: seq<nat>, outliers: seq<nat>, centroids: seq<Point>)

  // ---------------------------------------------------------------------------
  // Distances
  // ---------------------------------------------------------------------------

  /**
   * For every point, the distance to the centroid nearest to it, in the order
   * of the points.
   */
  function NearestDistances(data: seq<Point>, cs: seq<Point>): (ds: seq<real>)
    requires cs != []
    ensures |ds| == |data|
    ensures forall j :: 0 <= j < |data| ==>
      (exists i :: 0 <= i < |cs| && ds[j] == SqDist(data[j], cs[i]))
    ensures forall j, i :: 0 <= j < |data| && 0 <= i < |cs| ==> ds[j] <= SqDist(data[j], cs[i])
  {
    var ds := seq(|data|, j requires 0 <= j < |data| => NearestDistance(data[j], cs));
    assert forall j :: 0 <= j < |data| ==> ds[j] == NearestDistance(data[j], cs);
    ds
  }

  // ---------------------------------------------------------------------------
  // Index lists
  // ---------------------------------------------------------------------------

  predicate Increasing(s: seq<nat>)
  {
    forall i, j :: 0 <= i < j < |s| ==> s[i] < s[j]
  }

  /** The indices `j` with `ds[j] > t`, in increasing order. */
  function Flagged(ds: seq<real>, t: real): (r: seq<nat>)
    ensures Increasing(r)
    ensures forall x :: x in r ==> x < |ds|
    ensures forall j :: 0 <= j < |ds| ==> (j in r <==> ds[j] > t)
    decreases |ds|
  {
    if ds == [] then []
    else
      var r := Flagged(ds[..|ds| - 1], t);
      assert forall i :: 0 <= i < |r| ==> r[i] in r;
      if ds[|ds| - 1] > t then r + [|ds| - 1] else r
  }

  /** The indices below `n` that are not in `outs`, in increasing order. */
  function Unflagged(n: nat, outs: seq<nat>): (r: seq<nat>)
    ensures Increasing(r)
    ensures forall x :: x in r ==> x < n
    ensures forall i :: 0 <= i < n ==> (i in r <==> i !in outs)
  {
    if n == 0 then []
    else
      var r := Unflagged(n - 1, outs);
      assert forall i :: 0 <= i < |r| ==> r[i] in r;
      if n - 1 in outs then r else r + [n - 1]
  }

  /**
   * The inliers and the outliers partition the indices: no index is both,
   * every index below `n` is one of them, and the two lists together are
   * exactly `n` long.
   */
  lemma SplitIsPartition(n: nat, outs: seq<nat>)
    requires Increasing(outs)
    requires forall x :: x in outs ==> x < n
    ensures var ins := Unflagged(n, outs);
      && (forall i :: i in ins ==> i !in outs)
      && Elements(ins) + Elements(outs) == Range(n)
      && |ins| + |outs| == n
  {
    var ins := Unflagged(n, outs);
    assert Elements(ins) + Elements(outs) == Range(n);
    assert Elements(ins) * Elements(outs) == {};
    assert Distinct(ins) && Distinct(outs);
    DistinctElements(ins);
    DistinctElements(outs);
    RangeSize(n);
  }

  /** Raising the threshold can only remove outliers. */
  lemma FlaggedAntitone(ds: seq<real>, t: real, u: real)
    requires t <= u
    ensures forall x :: x in Flagged(ds, u) ==> x in Flagged(ds, t)
  {
  }

  /**
   * A point is flagged exactly when every centroid is farther from it than
   * the threshold.
   */
  lemma FlaggedMeansFarFromEveryCentroid(data: seq<Point>, cs: seq<Point>, t: real, j: nat)
    requires cs != [] && j < |data|
    ensures j in Flagged(NearestDistances(data, cs), t)
      <==> forall i :: 0 <= i < |cs| ==> SqDist(data[j], cs[i]) > t
  {
    var ds := NearestDistances(data, cs);
    var i0 :| 0 <= i0 < |cs| && ds[j] == SqDist(data[j], cs[i0]);
  }

  // ---------------------------------------------------------------------------
  // The class
  // ---------------------------------------------------------------------------

  class OutlierDetector {
    const clusters: int
    const outlierPercentile: real
    var data: seq<Point>

    constructor (clusters: int, outlierPercentile: real, data: seq<Point>)
      ensures this.clusters == clusters && this.outlierPercentile == outlierPercentile
      ensures this.data == data
    {
      this.clusters := clusters;
      this.outlierPercentile := outlierPercentile;
      this.data := data;
    }

    /**
     * `outliers_detection`: an error for missing data, then for missing
     * centroids; otherwise the indices whose nearest-centroid distance is
     * strictly above the percentile threshold of all those distances.
     */
    method OutliersDetection(centroids: seq<Point>, percentile: (seq<real>, real) -> real)
      returns (r: Result<seq<nat>>)
      ensures data == [] ==> r == ValueError(DetectWithoutData)
      ensures data != [] && centroids == [] ==> r == ValueError(DetectWithoutCentroids)
      ensures data != [] && centroids != [] ==>
        var ds := NearestDistances(data, centroids);
        r == Ok(Flagged(ds, percentile(ds, outlierPercentile)))
    {
      if data == [] {
        return ValueError(DetectWithoutData);
      }
      if centroids == [] {
        return ValueError(DetectWithoutCentroids);
      }
      var distances: seq<real> := [];
      for j := 0 to |data|
        invariant distances == NearestDistances(data[..j], centroids)
      {
        distances := distances + [NearestDistance(data[j], centroids)];
        assert data[..j + 1] == data[..j] + [data[j]];
      }
      assert data[..|data|] == data;
      var threshold := percentile(distances, outlierPercentile);
      return Ok(Flagged(distances, threshold));
    }

    /**
     * `split_the_data`: an error for missing data, then the errors of the
     * detection; otherwise the outliers, the complementary inliers and the
     * centroids it was given.
     */
    method SplitTheData(centroids: seq<Point>, percentile: (seq<real>, real) -> real)
      returns (r: Result<Split>)
      ensures data == [] ==> r == ValueError(SplitWithoutData)
      ensures data != [] && centroids == [] ==> r == ValueError(DetectWithoutCentroids)
      ensures data != [] && centroids != [] ==>
        var ds := NearestDistances(data, centroids);
        var outs := Flagged(ds, percentile(ds, outlierPercentile));
        r == Ok(Split(Unflagged(|data|, outs), outs, centroids))
      ensures r.Ok? ==>
        && (forall i :: 0 <= i < |data| ==> (i in r.value.inliers <==> i !in r.value.outliers))
        && Elements(r.value.inliers) + Elements(r.value.outliers) == Range(|data|)
        && |r.value.inliers| + |r.value.outliers| == |data|
    {
      if data == [] {
        return ValueError(SplitWithoutData);
      }
      var detected := OutliersDetection(centroids, percentile);
      if detected.ValueError? {
        return ValueError(detected.message);
      }
      var outliers := detected.value;
      var inliers := Unflagged(|data|, outliers);
      SplitIsPartition(|data|, outliers);
      return Ok(Split(inliers, outliers, centroids));
    }
  }
}
