# Beaconify positioning core in Dafny

Beaconify is an Android app that locates a phone indoors from Bluetooth
beacons. This project models two parts of it and proves properties about
the model.

**The beacon scanner's observation cache** (`BeaconScanning`).
- Each ranging callback delivers a batch of sighted beacons.
- Each sighting of a registered beacon is upserted into a cache keyed by
  `uuid:major:minor` and stamped with the batch's clock reading.
- Entries older than ten seconds are then swept out.
- The surviving entries are published in the cache's insertion order.
- The registry of known beacons is replaced wholesale when a fetch
  succeeds, and kept when it fails.

**The position calculators.**
- `WeightedCentroid`: the weighted-centroid calculator.
  - It keeps beacons whose coordinates are valid.
  - It needs at least three of them.
  - Each beacon is weighted by `1 / (d² + 0.1)`.
  - The weighted average must itself be a valid coordinate.
  - The accuracy is the clamped standard deviation of the distances.
- `Fingerprints`: the pieces of the indoor calculator that are pure
  functions:
  - exponential smoothing of RSSI per beacon;
  - top-4 ranking;
  - fingerprint creation;
  - RSSI similarity and beacon match score;
  - distance;
  - refinement weights and accuracy;
  - capacity trimming.
- `AffinityPropagation`: the clustering of stored fingerprint positions.
  - Similarity matrix: the diagonal is a median, as the code computes it.
  - Responsibility, availability and damping updates.
  - Convergence.
  - Exemplar selection and label assignment.
  - The matrices are `array2<real>`, updated in place as in the source.
- `IndoorPositioning`: the stateful indoor calculator, a class with the
  smoothing map and the fingerprint list as fields.
  - Its methods are proved equal to the specification functions `Refine`
    and `Estimate`.
  - A state invariant is proved about those functions: every stored
    fingerprint has a valid coordinate, an accuracy in [0.1, 1000],
    distinct reading ids and at most four ranked ids.
- `Factory`: the calculator factory and the dispatch of
  `calculatePosition`.

**Modelling choices.**
- `Double` is `real`.
- `sqrt` is a parameter that must satisfy `IsSquareRoot`. It returns a
  non-negative root that squares back.
- Clock readings are `int` parameters.
- Insertion-ordered Kotlin maps are sequences of readings with distinct
  keys, or a map paired with a key-order sequence.
- Kotlin's sorts are one insertion sort, `Support.SortBy`.

**Where the code's own names and comments suggest otherwise, the model
follows the code:**
- `getValidDistance` checks only coordinates. Despite its name and the
  comment "Validate the final distance" (PositionCalculator.kt:562), it
  never checks the [0.1, 1000] distance band. `CentroidDefinedWhen` states the condition
  exactly as coded.
- The centroid's default accuracy (10.0) is used only for an empty list.
  That list cannot reach the accuracy computation.
- The diagonal of the similarity matrix is the median of the non-zero
  entries filled so far, in row-major order. The comment at
  PositionCalculator.kt:267 speaks of "the median of similarities", but the
  code never takes the median of all of them. In particular `s[0][0]` is always -1000 (`FirstDiagonal`).
- The refined accuracy averages:
  - the clamped mean of the positive raw distances;
  - the cluster's mean accuracy.

  It ignores the bootstrap's accuracy.
- The refined position is never re-validated (`RefinedNotRevalidated`).
- Only the successful refinement trims the list to 1000. The warm-up
  append and the empty-cluster append do not trim, so the list can
  transiently exceed 1000.
- A beacon at (0, 0) is rejected by the coordinate check.
  `OriginBeaconLeavesTooFew` shows three beacons that then give no
  estimate.

## Model

| member | source | states |
|---|---|---|
| BeaconScanning.BeaconKeyInjective | app/src/main/java/com/iiitl/locateme/utils/beacon/BeaconScanner.kt:105-107 | when uuid and major contain no colon, two keys are equal exactly when their three parts are equal |
| BeaconScanning.KeysCanCollide | app/src/main/java/com/iiitl/locateme/utils/beacon/BeaconScanner.kt:105-107 | without that condition two different beacons can share a key |
| BeaconScanning.RegistryKeys | app/src/main/java/com/iiitl/locateme/utils/beacon/BeaconScanner.kt:140-143 | the registry's keys are exactly the keys of the fetched beacons |
| BeaconScanning.RegistryLastWins | app/src/main/java/com/iiitl/locateme/utils/beacon/BeaconScanner.kt:140-143 | a fetched beacon whose key does not recur later is the registry's entry for that key |
| BeaconScanning.Sweep | app/src/main/java/com/iiitl/locateme/utils/beacon/BeaconScanner.kt:98-103 | keeps exactly the unexpired entries, unchanged |
| BeaconScanning.Retain | app/src/main/java/com/iiitl/locateme/utils/beacon/BeaconScanner.kt:98-103 | the key order keeps exactly the keys still cached |
| BeaconScanning.RetainKeepsOrder | app/src/main/java/com/iiitl/locateme/utils/beacon/BeaconScanner.kt:98-103 | the surviving keys keep their relative order: of two kept keys, the earlier one comes first in the old insertion order |
| BeaconScanning.Snapshot | app/src/main/java/com/iiitl/locateme/utils/beacon/BeaconScanner.kt:92 | `values.toList()`: under the scanner invariant `Valid` (a duplicate-free insertion order listing exactly the cached keys) the published list holds every cached value exactly once: as many entries as cached keys, and each key's value at the one position where the insertion order lists it |
| BeaconScanning.RetainDistinct | app/src/main/java/com/iiitl/locateme/utils/beacon/BeaconScanner.kt:98-103 | sweeping keeps the key order free of duplicates |
| BeaconScanning.UpsertInStep | app/src/main/java/com/iiitl/locateme/utils/beacon/BeaconScanner.kt:67-85 | after an upsert the key order is duplicate-free and lists exactly the cached keys |
| BeaconScanning.UpsertOrderAppends | app/src/main/java/com/iiitl/locateme/utils/beacon/BeaconScanner.kt:73-85 | an upsert only appends to the insertion order: the old order is a prefix of the new one, and every added key is registered and was sighted in the batch |
| BeaconScanning.UnregisteredNeverCached | app/src/main/java/com/iiitl/locateme/utils/beacon/BeaconScanner.kt:73-85 | an unregistered key is neither added nor changed |
| BeaconScanning.UnsightedKept | app/src/main/java/com/iiitl/locateme/utils/beacon/BeaconScanner.kt:67-85 | an entry not sighted in the batch is kept unchanged |
| BeaconScanning.RegisteredUpserted | app/src/main/java/com/iiitl/locateme/utils/beacon/BeaconScanner.kt:73-84 | the last sighting of a registered beacon is cached with the sighting's rssi and distance and the registry's coordinates |
| BeaconScanning.SightedStamped | app/src/main/java/com/iiitl/locateme/utils/beacon/BeaconScanner.kt:65-84 | every sighted registered beacon carries the batch's clock reading |
| BeaconScanning.BatchSurvivesSweep | app/src/main/java/com/iiitl/locateme/utils/beacon/BeaconScanner.kt:63-96 | a registered beacon sighted in the batch survives a sweep made within ten seconds |
| BeaconScanning.BeaconScanner.constructor | app/src/main/java/com/iiitl/locateme/utils/beacon/BeaconScanner.kt:29-40 | registry, cache and published list start empty |
| BeaconScanning.BeaconScanner.ProcessBeacons | app/src/main/java/com/iiitl/locateme/utils/beacon/BeaconScanner.kt:63-96 | the new cache is the upsert followed by the sweep, and the published list is its snapshot in insertion order; the registry is unchanged |
| BeaconScanning.BeaconScanner.CleanExpiredBeacons | app/src/main/java/com/iiitl/locateme/utils/beacon/BeaconScanner.kt:98-103 | removes exactly the entries older than ten seconds |
| BeaconScanning.BeaconScanner.StopScanning | app/src/main/java/com/iiitl/locateme/utils/beacon/BeaconScanner.kt:123-133 | the cache and the published list become empty |
| BeaconScanning.BeaconScanner.UpdateKnownBeacons | app/src/main/java/com/iiitl/locateme/utils/beacon/BeaconScanner.kt:135-152 | a successful fetch replaces the registry by the fetched beacons keyed by `uuid:major:minor`; a failed one leaves it as it was |
| WeightedCentroid.ValidIndices | app/src/main/java/com/iiitl/locateme/utils/positioning/PositionCalculator.kt:476-478 | the positions of the beacons that `getValidDistance` accepts: strictly increasing, each with a valid coordinate, and every beacon with a valid coordinate listed |
| WeightedCentroid.Filtered | app/src/main/java/com/iiitl/locateme/utils/positioning/PositionCalculator.kt:476-494 | the `mapNotNull` filter: entry p is the beacon at the p-th valid position paired with its distance, and there are exactly as many entries as valid positions |
| WeightedCentroid.ValidBeacons | app/src/main/java/com/iiitl/locateme/utils/positioning/PositionCalculator.kt:476-494 | exactly the beacons with valid coordinates, in input order and with their multiplicity: entry p is the beacon at the p-th valid position, paired with its own distance; as a consequence every entry is a valid input beacon and every valid input beacon is listed |
| WeightedCentroid.Weight | app/src/main/java/com/iiitl/locateme/utils/positioning/PositionCalculator.kt:508 | every weight is positive |
| WeightedCentroid.WeightDecreasesWithDistance | app/src/main/java/com/iiitl/locateme/utils/positioning/PositionCalculator.kt:507-508 | a nearer beacon weighs strictly more |
| WeightedCentroid.TotalWeightPositive | app/src/main/java/com/iiitl/locateme/utils/positioning/PositionCalculator.kt:523-526 | with any valid beacon the total weight is positive, so that guard never fires |
| WeightedCentroid.CalculateAccuracy | app/src/main/java/com/iiitl/locateme/utils/positioning/PositionCalculator.kt:567-584 | the default 10.0 for no beacons, otherwise within [0.1, 1000] |
| WeightedCentroid.EqualDistancesGiveFloorAccuracy | app/src/main/java/com/iiitl/locateme/utils/positioning/PositionCalculator.kt:572-579 | equal distances have zero spread and give accuracy 0.1 |
| WeightedCentroid.WeightedTotals | app/src/main/java/com/iiitl/locateme/utils/positioning/PositionCalculator.kt:502-521 | the loop's totals are the sum of the weights and the weighted sums of latitudes and longitudes |
| WeightedCentroid.CalculatePosition | app/src/main/java/com/iiitl/locateme/utils/positioning/PositionCalculator.kt:470-550 | returns the centroid specification's result |
| WeightedCentroid.CentroidDefinedWhen | app/src/main/java/com/iiitl/locateme/utils/positioning/PositionCalculator.kt:470-534 | an estimate exists exactly when there is input, at least three beacons have valid coordinates and the weighted average is a valid coordinate |
| WeightedCentroid.CentroidInsideBeacons | app/src/main/java/com/iiitl/locateme/utils/positioning/PositionCalculator.kt:528-541 | an estimate is a valid coordinate inside the bounding box of the contributing beacons, with accuracy in [0.1, 1000] and the current time |
| WeightedCentroid.CentroidWithinBox | app/src/main/java/com/iiitl/locateme/utils/positioning/PositionCalculator.kt:528-529 | the weighted averages of latitudes and longitudes lie between the smallest and largest contributing coordinate |
| WeightedCentroid.OriginBeaconLeavesTooFew | app/src/main/java/com/iiitl/locateme/utils/positioning/PositionCalculator.kt:586-591 | a beacon at (0, 0) is rejected, so three beacons including it give no estimate |
| WeightedCentroid.ThreeBeaconsGiveAverage | app/src/main/java/com/iiitl/locateme/utils/positioning/PositionCalculator.kt:470-549 | a concrete input that does give an estimate: three valid beacons at equal distance yield their plain average (40/3, 40/3) |
| Support.Clamp | app/src/main/java/com/iiitl/locateme/utils/positioning/PositionCalculator.kt:209 | `coerceIn`: the result lies in the band and equals the input when the input does |
| Support.SortBy | app/src/main/java/com/iiitl/locateme/utils/positioning/PositionCalculator.kt:69-70 | the sort's result is ordered by the key and is a permutation of its input |
| Support.IndexOf | app/src/main/java/com/iiitl/locateme/utils/positioning/PositionCalculator.kt:324 | `indexOf`: a value in [-1, size), -1 exactly when absent, otherwise the first position holding the element |
| Fingerprints.PutValues | app/src/main/java/com/iiitl/locateme/utils/positioning/PositionCalculator.kt:53-54 | writing a key into an insertion-ordered map sets that key and leaves the others and distinctness intact |
| Fingerprints.PutIds | app/src/main/java/com/iiitl/locateme/utils/positioning/PositionCalculator.kt:48-54 | an existing key keeps its place; a new key goes last |
| Fingerprints.SmoothedValueBetween | app/src/main/java/com/iiitl/locateme/utils/positioning/PositionCalculator.kt:51-52 | a smoothed value lies between the raw reading and the previous value, and is the raw reading for a new beacon |
| Fingerprints.SmoothStateAppend | app/src/main/java/com/iiitl/locateme/utils/positioning/PositionCalculator.kt:47-56 | smoothing two batches in turn gives the same state as smoothing them together |
| Fingerprints.SmoothUntouched | app/src/main/java/com/iiitl/locateme/utils/positioning/PositionCalculator.kt:47-56 | a beacon not sighted keeps its smoothed value |
| Fingerprints.SmoothSighted | app/src/main/java/com/iiitl/locateme/utils/positioning/PositionCalculator.kt:47-56 | a sighted beacon's new value is `0.5·rssi + 0.5·previous`, or the rssi when first seen |
| Fingerprints.SmoothReadings | app/src/main/java/com/iiitl/locateme/utils/positioning/PositionCalculator.kt:47-56 | the returned map has one entry per sighted beacon, each equal to the persistent state's value; the state's keys grow by exactly those ids |
| Fingerprints.RankBeaconsTopK | app/src/main/java/com/iiitl/locateme/utils/positioning/PositionCalculator.kt:68-73 | min(4, n) distinct ids from the readings, in non-increasing RSSI order, none weaker than an unranked reading |
| Fingerprints.CommonElements | app/src/main/java/com/iiitl/locateme/utils/positioning/PositionCalculator.kt:123 | the common ids are exactly those in both maps, without repeats |
| Fingerprints.GapsNonNegative | app/src/main/java/com/iiitl/locateme/utils/positioning/PositionCalculator.kt:126-129 | the sum of squared differences is non-negative and zero exactly when all common values agree |
| Fingerprints.RssiSimilarityRange | app/src/main/java/com/iiitl/locateme/utils/positioning/PositionCalculator.kt:119-132 | 0 with no common beacon; otherwise in (0, 1], and 1 exactly when every common beacon has the same value |
| Fingerprints.RssiSimilaritySymmetric | app/src/main/java/com/iiitl/locateme/utils/positioning/PositionCalculator.kt:119-132 | the similarity does not depend on argument order |
| Fingerprints.BeaconMatchScoreRange | app/src/main/java/com/iiitl/locateme/utils/positioning/PositionCalculator.kt:134-140 | non-negative, at most 1 for a top-4 list, 0 exactly when the lists share no id, symmetric |
| Fingerprints.DistanceProperties | app/src/main/java/com/iiitl/locateme/utils/positioning/PositionCalculator.kt:142-147 | non-negative, symmetric, squares back to the sum of squared differences, 0 exactly between equal coordinates |
| Fingerprints.RefinementWeightsNonNegative | app/src/main/java/com/iiitl/locateme/utils/positioning/PositionCalculator.kt:165-177 | every weight and the total weight are non-negative |
| Fingerprints.IndoorAccuracyWithin | app/src/main/java/com/iiitl/locateme/utils/positioning/PositionCalculator.kt:202-218 | cluster accuracies within [0.1, 1000] give a refined accuracy within it |
| Fingerprints.TrimmedKeepsNewest | app/src/main/java/com/iiitl/locateme/utils/positioning/PositionCalculator.kt:220-229 | within capacity the list is unchanged; otherwise exactly `maxSize` fingerprints from the list remain, sorted by timestamp, none older than a dropped one |
| AffinityPropagation.MedianWithin | app/src/main/java/com/iiitl/locateme/utils/positioning/PositionCalculator.kt:405-413 | the median of a non-empty list lies between its minimum and maximum |
| AffinityPropagation.MedianNegative | app/src/main/java/com/iiitl/locateme/utils/positioning/PositionCalculator.kt:405-413 | the median of negative values is negative (an empty list gives -1000) |
| AffinityPropagation.OffDiagonalProperties | app/src/main/java/com/iiitl/locateme/utils/positioning/PositionCalculator.kt:264-265 | an off-diagonal similarity is minus the squared distance: non-positive, symmetric, 0 exactly for equal coordinates |
| AffinityPropagation.FirstDiagonal | app/src/main/java/com/iiitl/locateme/utils/positioning/PositionCalculator.kt:266-271 | the first preference is always -1000, because no non-zero entry precedes it |
| AffinityPropagation.DiagonalNegative | app/src/main/java/com/iiitl/locateme/utils/positioning/PositionCalculator.kt:266-271 | every preference is negative |
| AffinityPropagation.SimilarityNonPositive | app/src/main/java/com/iiitl/locateme/utils/positioning/PositionCalculator.kt:260-274 | every similarity is at most 0, and strictly negative on the diagonal |
| AffinityPropagation.BuildSimilarities | app/src/main/java/com/iiitl/locateme/utils/positioning/PositionCalculator.kt:260-274 | the n×n matrix the nested loops fill holds the similarity specification, the diagonal computed from the entries filled so far |
| AffinityPropagation.FillRow | app/src/main/java/com/iiitl/locateme/utils/positioning/PositionCalculator.kt:263-272 | the inner loop fills row i with the similarity specification and leaves the rows below it at zero |
| AffinityPropagation.MaxBelow | app/src/main/java/com/iiitl/locateme/utils/positioning/PositionCalculator.kt:342-347 | the running maximum over the competing columns exists exactly when such a column exists |
| AffinityPropagation.MaxBelowIsMaximum | app/src/main/java/com/iiitl/locateme/utils/positioning/PositionCalculator.kt:342-347 | the running maximum is at least every competing `s + a` and equals one of them |
| AffinityPropagation.BestCompetitor | app/src/main/java/com/iiitl/locateme/utils/positioning/PositionCalculator.kt:342-347 | the inner loop computes that maximum |
| AffinityPropagation.ResponsibilityIsMargin | app/src/main/java/com/iiitl/locateme/utils/positioning/PositionCalculator.kt:339-349 | r(i,k) is at most `s(i,k) - (s(i,c) + a(i,c))` for every competitor c, with equality for one |
| AffinityPropagation.UpdateResponsibilities | app/src/main/java/com/iiitl/locateme/utils/positioning/PositionCalculator.kt:334-351 | the array ends holding `Responsibilities` of the similarity and availability matrices: every entry is `s(i,k)` minus the largest `a(i,k') + s(i,k')` over `k' != k` |
| AffinityPropagation.Availability | app/src/main/java/com/iiitl/locateme/utils/positioning/PositionCalculator.kt:353-379 | off-diagonal availabilities are at most 0, self-availabilities at least 0 |
| AffinityPropagation.AvailabilityFromSelf | app/src/main/java/com/iiitl/locateme/utils/positioning/PositionCalculator.kt:360-375 | a(i,k) equals `min(0, r(k,k) + a(k,k) - max(0, r(i,k)))` |
| AffinityPropagation.UpdateAvailabilities | app/src/main/java/com/iiitl/locateme/utils/positioning/PositionCalculator.kt:353-379 | the array ends holding `Availabilities` of the responsibility matrix, each entry the `Availability` below |
| AffinityPropagation.Damped | app/src/main/java/com/iiitl/locateme/utils/positioning/PositionCalculator.kt:387-388 | the damped value lies between old and new and moves 40% of the way |
| AffinityPropagation.ApplyDamping | app/src/main/java/com/iiitl/locateme/utils/positioning/PositionCalculator.kt:381-391 | the array ends holding every entry damped 40% of the way towards the previous matrix's entry |
| AffinityPropagation.DampedSettles | app/src/main/java/com/iiitl/locateme/utils/positioning/PositionCalculator.kt:393-402 | a damped entry moves less than 1e-6 exactly when the undamped update moved it less than 2.5e-6 |
| AffinityPropagation.HasConvergedMeans | app/src/main/java/com/iiitl/locateme/utils/positioning/PositionCalculator.kt:393-402 | the convergence test holds exactly when every entry moved by less than 1e-6 |
| AffinityPropagation.CloneMatrix | app/src/main/java/com/iiitl/locateme/utils/positioning/PositionCalculator.kt:286 | the copy is fresh and equal entry by entry |
| AffinityPropagation.MessageRound | app/src/main/java/com/iiitl/locateme/utils/positioning/PositionCalculator.kt:285-299 | one pass of the loop body leaves `r` and `a` holding `Round` of the old messages (responsibilities, then availabilities from them, both damped), and `converged` is true exactly when both matrices moved by less than 1e-6 |
| AffinityPropagation.RoundSigns | app/src/main/java/com/iiitl/locateme/utils/positioning/PositionCalculator.kt:353-391 | a round keeps off-diagonal availabilities at most 0 and self-availabilities at least 0 |
| AffinityPropagation.PassMessagesKeeps | app/src/main/java/com/iiitl/locateme/utils/positioning/PositionCalculator.kt:284-302 | any property that every round preserves holds of the messages the loop ends with |
| AffinityPropagation.FinalSigns | app/src/main/java/com/iiitl/locateme/utils/positioning/PositionCalculator.kt:277-302 | the loop started from zero matrices ends with off-diagonal availabilities at most 0 and self-availabilities at least 0 |
| AffinityPropagation.RunMessagePassing | app/src/main/java/com/iiitl/locateme/utils/positioning/PositionCalculator.kt:281-302 | `r` and `a` end holding `PassMessages` of their initial values: rounds repeated until one settles or 100 have run; 1 to 100 iterations, converged unless 100 ran |
| AffinityPropagation.Exemplars | app/src/main/java/com/iiitl/locateme/utils/positioning/PositionCalculator.kt:305-313 | increasing, in range, and a point is an exemplar exactly when `r(i,i) + a(i,i) > 0` |
| AffinityPropagation.FindExemplars | app/src/main/java/com/iiitl/locateme/utils/positioning/PositionCalculator.kt:305-313 | the loop over the diagonal collects `Exemplars` of the two arrays |
| AffinityPropagation.BestUpToIsFirst | app/src/main/java/com/iiitl/locateme/utils/positioning/PositionCalculator.kt:316-328 | the scan's label after `p` centers is a center of largest similarity among them, the first among ties |
| AffinityPropagation.LabelIsFirstBest | app/src/main/java/com/iiitl/locateme/utils/positioning/PositionCalculator.kt:316-328 | the scan over all centers yields the first center of largest similarity, or -1 without centers |
| AffinityPropagation.IndexOfIncreasing | app/src/main/java/com/iiitl/locateme/utils/positioning/PositionCalculator.kt:324 | in a strictly increasing list `indexOf` finds each element at its own position |
| AffinityPropagation.AssignLabel | app/src/main/java/com/iiitl/locateme/utils/positioning/PositionCalculator.kt:316-328 | the inner loop computes the scan's label over all centers for row `i` |
| AffinityPropagation.IdentifyClusters | app/src/main/java/com/iiitl/locateme/utils/positioning/PositionCalculator.kt:304-331 | the centers are `Exemplars` of the final arrays and each point's label is the scan's label for its similarity row |
| AffinityPropagation.AffinityClusters | app/src/main/java/com/iiitl/locateme/utils/positioning/PositionCalculator.kt:254-332 | no points give an empty result; otherwise one label per point and strictly increasing in-range centers |
| AffinityPropagation.AffinityClustersProperties | app/src/main/java/com/iiitl/locateme/utils/positioning/PositionCalculator.kt:254-332 | for the messages the loop ends with from zero matrices, the centers are exactly the points with `r(i,i) + a(i,i) > 0`, and each label is the first center of largest similarity to its point |
| AffinityPropagation.PerformAffinityPropagation | app/src/main/java/com/iiitl/locateme/utils/positioning/PositionCalculator.kt:254-332 | returns `AffinityClusters` of the points: the exemplars of the final messages of the loop and every point's label among them |
| IndoorPositioning.NearestCenter | app/src/main/java/com/iiitl/locateme/utils/positioning/PositionCalculator.kt:431-436 | no result exactly when there are no centers; otherwise one of the centers |
| IndoorPositioning.NearestCenterIsFirstClosest | app/src/main/java/com/iiitl/locateme/utils/positioning/PositionCalculator.kt:431-436 | the chosen center is closest to the bootstrap, and the first in the list among equally close ones |
| IndoorPositioning.LabelledWith | app/src/main/java/com/iiitl/locateme/utils/positioning/PositionCalculator.kt:439-441 | the indices whose label is the target, all of them, in ascending order |
| IndoorPositioning.ClusterMembers | app/src/main/java/com/iiitl/locateme/utils/positioning/PositionCalculator.kt:439-441 | exactly the fingerprints at the indices labelled with the target, in stored order |
| IndoorPositioning.EstimateWithoutBootstrap | app/src/main/java/com/iiitl/locateme/utils/positioning/PositionCalculator.kt:418 | without a centroid, nothing is returned and the state is unchanged |
| IndoorPositioning.EstimateWarmUp | app/src/main/java/com/iiitl/locateme/utils/positioning/PositionCalculator.kt:421-424 | with fewer than four fingerprints the centroid is returned and exactly one fingerprint of it is appended |
| IndoorPositioning.EstimateWithoutExemplar | app/src/main/java/com/iiitl/locateme/utils/positioning/PositionCalculator.kt:431-436 | without exemplars the centroid is returned and neither field changes |
| IndoorPositioning.RefineFallbacks | app/src/main/java/com/iiitl/locateme/utils/positioning/PositionCalculator.kt:154-178 | an empty cluster returns the bootstrap and appends without trimming; a non-positive total returns it and leaves the list alone; smoothing happens either way |
| IndoorPositioning.ZeroTotalMeansZeroWeights | app/src/main/java/com/iiitl/locateme/utils/positioning/PositionCalculator.kt:177-178 | the total weight is non-positive exactly when every weight is 0 |
| IndoorPositioning.RefinedInsideCluster | app/src/main/java/com/iiitl/locateme/utils/positioning/PositionCalculator.kt:180-197 | a refined position lies in the cluster's bounding box, carries the current time, and the list gets the new fingerprint and is trimmed to 1000 |
| IndoorPositioning.RefinedNotRevalidated | app/src/main/java/com/iiitl/locateme/utils/positioning/PositionCalculator.kt:189-199 | two fingerprints at (1, 1) and (-1, -1) with equal readings, both valid coordinates, refine to (0, 0), which the coordinate check rejects; refinement returns it unchecked |
| IndoorPositioning.NewFingerprintStored | app/src/main/java/com/iiitl/locateme/utils/positioning/PositionCalculator.kt:75-86 | a fingerprint of a centroid has a valid coordinate, an accuracy in band, distinct reading ids and at most four ranked ids |
| IndoorPositioning.RefineKeepsValid | app/src/main/java/com/iiitl/locateme/utils/positioning/PositionCalculator.kt:149-200 | refinement from a valid state keeps it valid, and a refined accuracy is in [0.1, 1000] |
| IndoorPositioning.EstimateKeepsValid | app/src/main/java/com/iiitl/locateme/utils/positioning/PositionCalculator.kt:416-445 | every estimate keeps the stored-fingerprint invariant and returns an accuracy in [0.1, 1000] |
| IndoorPositioning.IndoorPositioningCalculator.constructor | app/src/main/java/com/iiitl/locateme/utils/positioning/PositionCalculator.kt:35-36 | the smoothing map and the fingerprint list start empty |
| IndoorPositioning.IndoorPositioningCalculator.ExponentialSmoothing | app/src/main/java/com/iiitl/locateme/utils/positioning/PositionCalculator.kt:47-56 | the new smoothing map and the returned readings are those of the smoothing specification |
| IndoorPositioning.IndoorPositioningCalculator.CreateFingerprint | app/src/main/java/com/iiitl/locateme/utils/positioning/PositionCalculator.kt:75-86 | the fingerprint holds the smoothed readings, their top-4 ranking and their mean, stamped now |
| IndoorPositioning.IndoorPositioningCalculator.AddFingerprint | app/src/main/java/com/iiitl/locateme/utils/positioning/PositionCalculator.kt:452-454 | appends without trimming |
| IndoorPositioning.IndoorPositioningCalculator.MaintainFingerprintDatabase | app/src/main/java/com/iiitl/locateme/utils/positioning/PositionCalculator.kt:220-229 | sorting and then removing from the front leaves the trimmed list |
| IndoorPositioning.IndoorPositioningCalculator.WeightedSums | app/src/main/java/com/iiitl/locateme/utils/positioning/PositionCalculator.kt:181-187 | the loop's sums are the weighted sums of the cluster's latitudes and longitudes |
| IndoorPositioning.IndoorPositioningCalculator.RefinePosition | app/src/main/java/com/iiitl/locateme/utils/positioning/PositionCalculator.kt:149-200 | the returned position and the new fields are those of the refinement specification |
| IndoorPositioning.IndoorPositioningCalculator.CalculatePosition | app/src/main/java/com/iiitl/locateme/utils/positioning/PositionCalculator.kt:416-445 | the result and the new fields are those of `Estimate`, which clusters the stored positions with `AffinityClusters` |
| Factory.GetCalculator | app/src/main/java/com/iiitl/locateme/utils/positioning/PositionCalculator.kt:596-601 | the requested kind of calculator; an indoor one is new and empty |
| Factory.CalculatePosition | app/src/main/java/com/iiitl/locateme/utils/positioning/PositionCalculator.kt:16-18 | dispatch: the centroid calculator returns the centroid; the indoor one behaves as its estimate specification |
| Factory.CalculatorsAgreeWhileWarmingUp | app/src/main/java/com/iiitl/locateme/utils/positioning/PositionCalculator.kt:418-424 | both calculators return nothing exactly when the centroid fails, and the same position while fewer than four fingerprints are stored |

## Left out

- Platform I/O is not modelled: the ranging service, the AltBeacon parser
  setup, `startScanning`, coroutines, `cleanup`'s cancellation and
  logging. Their inputs are parameters.
- The HTTP fetch of the registry is a parameter `Option<seq<VirtualBeacon>>`.
- Concurrent access is not modelled. The registry is a
  `ConcurrentHashMap` updated from a coroutine; each method here runs
  atomically.
- Floating point, NaN and infinities are not modelled. `Double` is `real`,
  and `isFinite()` always holds.
- The `try`/`catch` blocks of the centroid calculator are not modelled.
  They guard floating-point arithmetic and logging, which do not throw.
- BeaconScanning.BeaconScanner.StopScanning: models only the path where
  `stopRangingBeacons` returns. When it throws, the source skips clearing
  the cache and publishing the empty list.
- BeaconScanning.BeaconScanner.UpdateKnownBeacons: a failed fetch and a
  fetch that throws are both `None` and keep the registry. An exception
  after `clear()`, part-way through installing the list, is not modelled.
- BeaconScanning.BeaconScanner.ProcessBeacons: models only the path where
  nothing throws. When reading a beacon's identifiers throws, the source
  keeps the upserts already made and skips the sweep and the publish.
- `findSimilarFingerprints` (PositionCalculator.kt lines 88-117) is not
  modelled. `refinePosition` is only ever called with a non-null cluster
  list, so that path is unreachable.
- AffinityPropagation.PerformAffinityPropagation: requires at least two
  points or none. With one point the responsibility update subtracts
  negative infinity. The clustering only runs once four fingerprints are
  stored.
- Support.SortBy: stability is not proved. Ties therefore have no stated
  order. The ranking, trimming and median contracts do not depend on it.
- Support.Mean: the average of an empty list is 0 rather than NaN. This
  affects the `averageRssi` of an empty fingerprint. It also affects the
  positive-distance mean in the refined accuracy, which is then clamped
  to 0.1.
- Fingerprints.SquaredGap: drops the `abs` before squaring, since
  `|x|² = x²` over the reals.
- Each `calculatePosition` call reads the clock once (`now`). The source
  reads it separately for the centroid, the fingerprint and the refined
  position.
- AffinityPropagation.HasConverged: the nested `all` test is a predicate
  over the two matrices, not a loop.
- The ViewModels, the location manager and the activities are not part
  of this model. They only call the calculators and the scanner.
