# K-means clustering and centroid-distance outlier detection

This project models the two hand-written algorithms of the credit-card
customer analysis in the Data-Mining repository, and proves their properties.

- **`KMeans`** (Credit_Card_Customer/kMeans.py) clusters 2-D points.
  - It draws `k` initial centroids from the data.
  - Each round assigns every point to its nearest centroid, ties going to
    the lowest index.
  - Each round then moves every centroid with a non-empty cluster to the
    mean of that cluster.
  - It stops after `max_iterations` rounds, or earlier, after a round that
    leaves the centroids exactly as they were.
- **`OutlierDetector`** (Credit_Card_Customer/find_outliers.py) measures
  every point against its nearest centroid.
  - It flags the points whose distance is strictly above a percentile of
    all those distances.
  - It splits the indices into inliers and outliers.

The model has four modules, one per file:

- `Geometry` (geometry.dfy): the point, the distance, and the nearest
  centroid with the first-minimum tie-break.
- `Clustering` (clustering.dfy): the class `KMeans`. Its methods are proved
  against three specification functions:
  - `Buckets` for `assign_clusters`;
  - `Updated` for `update_centroids`;
  - `Lloyd` for the loop of `run`.

  The lemmas about these functions state the algorithm's properties.
- `Indices` (indices.dfy): sets of list indices, shared by the initial draw
  and by the split into inliers and outliers.
- `Outliers` (outliers.dfy): the class `OutlierDetector`. Its detection
  method is proved against `NearestDistances` and `Flagged`. The split is
  proved against `Unflagged`, with the partition of the indices proved as a
  lemma.

Coordinates are `real`s. The distance is the squared Euclidean distance.
The square root is strictly increasing on non-negative reals, so the
nearest centroid and every "distance greater than" comparison come out the
same. The points of `data` are given to the constructors instead of being
read from a CSV file.

## Model

| member | source | states |
|---|---|---|
| Geometry.SqDist | Credit_Card_Customer/kMeans.py:7-14 | the distance is non-negative and is zero exactly when the two points are identical |
| Geometry.SqDistSymmetric | Credit_Card_Customer/kMeans.py:7-14 | the distance does not depend on the order of its two arguments |
| Geometry.Min | Credit_Card_Customer/kMeans.py:56 | `min` of a non-empty list is one of its elements and no element is smaller |
| Geometry.FirstIndexOf | Credit_Card_Customer/kMeans.py:56 | `list.index` returns a position holding the value, with no earlier position holding it |
| Geometry.Nearest | Credit_Card_Customer/kMeans.py:55-56 | the chosen centroid index is in range, no centroid is strictly closer, and every lower-indexed centroid is strictly farther |
| Geometry.NearestDistance | Credit_Card_Customer/find_outliers.py:55-56 | the distance to the closest centroid is the distance to some centroid and is at most the distance to every centroid |
| Geometry.NearestDistanceIsNearest | Credit_Card_Customer/find_outliers.py:55-56 | the detector's minimum distance is the distance to the centroid the assignment step picks |
| Clustering.MeanWithinBounds | Credit_Card_Customer/kMeans.py:66-68 | each coordinate of a cluster's mean lies between the smallest and largest coordinate of the cluster's points |
| Clustering.MeanOfCoincidentPoints | Credit_Card_Customer/kMeans.py:66-68 | a cluster of copies of one point has that point as its mean |
| Clustering.Buckets | Credit_Card_Customer/kMeans.py:53-57 | the assignment step produces exactly `k` clusters |
| Clustering.ClusterOf | Credit_Card_Customer/kMeans.py:54-57 | reference cluster `i`: a point is in it exactly when it is in the data and its nearest centroid is `i` |
| Clustering.BucketsAreClusters | Credit_Card_Customer/kMeans.py:53-57 | each cluster the loop builds equals the reference cluster |
| Clustering.AssignedToNearest | Credit_Card_Customer/kMeans.py:54-57 | cluster `i` holds exactly the points whose nearest centroid is `i` (first-index tie-break), in their order in the data |
| Clustering.BucketsPartition | Credit_Card_Customer/kMeans.py:53-57 | every point lands in exactly one cluster: the multiset union of the clusters is the data and the sizes sum to its length |
| Clustering.UpdateIdempotent | Credit_Card_Customer/kMeans.py:64-68 | updating twice from the same clusters gives the same centroids as updating once |
| Clustering.Lloyd | Credit_Card_Customer/kMeans.py:85-91 | the loop runs at most `max_iterations` rounds, keeps `k` centroids, runs all rounds unless it converged, and with no round leaves the state as it was |
| Clustering.EmptyDataStopsAfterOneRound | Credit_Card_Customer/kMeans.py:85-91 | with no points and `k = 0` the first round leaves the empty centroid list unchanged and the loop stops after that round |
| Clustering.LloydConvergedIsFixedPoint | Credit_Card_Customer/kMeans.py:86-91 | on an early exit the clusters are the assignment for the final centroids and one more round would reproduce those centroids |
| Clustering.LloydCentroidsAreMeans | Credit_Card_Customer/kMeans.py:64-68 | after at least one round the clusters partition the data and every centroid with a non-empty cluster is that cluster's mean |
| Clustering.TwoPairsConvergeInTwoRounds | Credit_Card_Customer/kMeans.py:85-91 | the points (0,0), (0,1), (10,10), (10,11), started from (0,0) and (10,10), reach centroids (0,0.5) and (10,10.5) and stop after two rounds |
| Clustering.Draw | Credit_Card_Customer/kMeans.py:46 | the initial centroids are `k` points taken from the data |
| Clustering.DrawAll | Credit_Card_Customer/kMeans.py:46 | a draw without replacement of as many points as there are takes every point exactly once: the centroids' multiset is the data's |
| Clustering.KMeans.constructor | Credit_Card_Customer/kMeans.py:18-28 | a new instance has its `k` and points, and no centroids or clusters yet |
| Clustering.KMeans.InitialiseCentroids | Credit_Card_Customer/kMeans.py:41-46 | succeeds exactly when `k` is at most the number of points, setting the drawn centroids; with `k` equal to the number of points every point becomes a centroid exactly once; otherwise nothing changes |
| Clustering.KMeans.AssignClusters | Credit_Card_Customer/kMeans.py:48-57 | the clusters become the assignment of the points to the current centroids |
| Clustering.KMeans.UpdateCentroids | Credit_Card_Customer/kMeans.py:59-68 | each centroid with a non-empty cluster becomes that cluster's mean; the others, and the number of centroids, stay |
| Clustering.KMeans.HasConverged | Credit_Card_Customer/kMeans.py:70-75 | true exactly when the snapshot and the current centroids have the same length and agree coordinate by coordinate |
| Clustering.KMeans.Run | Credit_Card_Customer/kMeans.py:77-91 | a sample larger than the data fails and changes nothing; `k = 0` with points fails at `min`; otherwise the final state is the one the bounded loop specifies; the points never change |
| Outliers.NearestDistances | Credit_Card_Customer/find_outliers.py:52-56 | one distance per point, each equal to the distance to some centroid and at most the distance to every centroid |
| Outliers.Flagged | Credit_Card_Customer/find_outliers.py:61-63 | the reported indices are strictly increasing, in range, and contain index `j` exactly when its distance is strictly greater than the threshold |
| Outliers.Unflagged | Credit_Card_Customer/find_outliers.py:79 | the inlier indices are strictly increasing, below the number of points, and contain index `i` exactly when it is not an outlier |
| Outliers.SplitIsPartition | Credit_Card_Customer/find_outliers.py:78-79 | inliers and outliers are disjoint, together make up all indices, and their lengths add up to the number of points |
| Outliers.FlaggedAntitone | Credit_Card_Customer/find_outliers.py:59-63 | a higher threshold reports a subset of the outliers |
| Outliers.FlaggedMeansFarFromEveryCentroid | Credit_Card_Customer/find_outliers.py:53-63 | a point is an outlier exactly when every centroid is farther from it than the threshold |
| Outliers.OutlierDetector.constructor | Credit_Card_Customer/find_outliers.py:13-24 | a new detector keeps its cluster count, percentile and points |
| Outliers.OutlierDetector.OutliersDetection | Credit_Card_Customer/find_outliers.py:38-65 | an error for empty data comes first, then one for empty centroids; otherwise the result is the indices above the percentile threshold of the nearest-centroid distances |
| Outliers.OutlierDetector.SplitTheData | Credit_Card_Customer/find_outliers.py:67-81 | empty data fails before the centroids are looked at; otherwise it returns the outliers, the complementary inliers (a partition of all indices) and the centroids unchanged |

## Left out

- `load_data` of both classes reads a CSV file. The points are a constructor parameter instead. Because `run` calls `load_data`, a second call of the original `run` appends the file's rows again; the model does not have that effect.
- `random.sample` in `initialise_centroids` is random. The draw is a parameter: `k` distinct indices into the data. A `k` larger than the data makes `random.sample` raise; the model reports that as a failure.
- `np.percentile` is a library call. It is a function parameter: it receives the distance list and the configured percentile and returns a threshold. Its range check on the percentile is not modelled.
- Floating point: coordinates, sums and means are exact `real`s, so exact-equality convergence is modelled on reals, not on floats.
- The square root in `euclidean_distance` and `np.linalg.norm` is dropped: distances are squared. The outlier threshold is then a percentile of squared distances, which for an interpolating percentile can differ from the square of the percentile of distances.
- Python's negative `k` (which makes `random.sample` raise) cannot be expressed: `k` is a natural number.
- Plotting (`plot_results`, `plot`), `OutlierDetector.run`, which chains loading, splitting and plotting, and the module-level script are not modelled; they are I/O.
- The other files of the repository are library wrappers and scripts and are not part of this model.
- `KMeans.run` has no check for an empty data set and `has_converged` has no initialisation check. On empty data with `k = 0`, `random.sample(data, 0)` succeeds; if `max_iterations` is positive, the first round finds `[] == []` and the loop stops after that round. The model follows the code and adds no such checks. `OutlierDetector.run` does fail on empty data, through the check in `split_the_data`, which `SplitTheData` models.
