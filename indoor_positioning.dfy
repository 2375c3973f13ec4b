/**
  * `IndoorPositioningCalculator`: the stateful estimator. It owns the
  * smoothing map and the fingerprint list; each estimate bootstraps with the
  * weighted centroid, stores fingerprints while warming up, and afterwards
  * clusters the stored positions, picks the exemplar nearest the bootstrap
  * and refines by a similarity-weighted average of that cluster.
  */
module IndoorPositioning {
  import opened Support
  import opened BeaconScanning
  import opened WeightedCentroid
  import opened Fingerprints
  import opened AffinityPropagation

  /** The calculator's two fields. */
  datatype State = State(smoothedRssi: map<string, real>, fingerprints: seq<Fingerprint>)

  /** What one call returns, and the state it leaves behind. */
  datatype Outcome = Outcome(position: Option<Position>, state: State)

  /** `fingerprints.map { it.position }`. */
  function Positions(fps: seq<Fingerprint>): seq<Position> {
    seq(|fps|, i requires 0 <= i < |fps| => fps[i].position)
  }

  /** `centerIndices.minByOrNull { distance(ps[it], basic) }`. */
  function NearestCenter(ps: seq<Position>, centers: seq<int>, basic: Position, sqrt: real -> real): (r: Option<int>)
    requires forall p :: 0 <= p < |centers| ==> 0 <= centers[p] < |ps|
    ensures r.None? <==> centers == []
    ensures r.Some? ==> r.value in centers
  {
    if centers == [] then None
    else
      var n := |centers| - 1;
      var prior := NearestCenter(ps, centers[..n], basic, sqrt);
      var last := centers[n];
      if prior.None? || Distance(ps[last], basic, sqrt) < Distance(ps[prior.value], basic, sqrt) then
        Some(last)
      else
        prior
  }

  /**
    * The chosen exemplar is closest to the bootstrap, and it is the first one
    * in the list among equally close ones: every exemplar listed before
    * some occurrence of it is strictly farther.
    */
  lemma {:induction false} NearestCenterIsFirstClosest(ps: seq<Position>, centers: seq<int>, basic: Position,
                                                       sqrt: real -> real)
    requires forall p :: 0 <= p < |centers| ==> 0 <= centers[p] < |ps|
    requires centers != []
    ensures var r := NearestCenter(ps, centers, basic, sqrt).value;
      && (forall q :: 0 <= q < |centers| ==> Distance(ps[r], basic, sqrt) <= Distance(ps[centers[q]], basic, sqrt))
      && exists p :: 0 <= p < |centers| && centers[p] == r &&
           forall q :: 0 <= q < p ==> Distance(ps[r], basic, sqrt) < Distance(ps[centers[q]], basic, sqrt)
  {
    var n := |centers| - 1;
    var r := NearestCenter(ps, centers, basic, sqrt).value;
    if n == 0 {
      assert centers[0] == r;
    } else {
      var init := centers[..n];
      assert forall q :: 0 <= q < n ==> init[q] == centers[q];
      NearestCenterIsFirstClosest(ps, init, basic, sqrt);
      var prior := NearestCenter(ps, init, basic, sqrt).value;
      if r != prior || Distance(ps[centers[n]], basic, sqrt) < Distance(ps[prior], basic, sqrt) {
        assert r == centers[n];
        assert forall q :: 0 <= q < n ==> Distance(ps[r], basic, sqrt) < Distance(ps[centers[q]], basic, sqrt);
      } else {
        var p :| 0 <= p < n && init[p] == prior &&
          forall q :: 0 <= q < p ==> Distance(ps[prior], basic, sqrt) < Distance(ps[init[q]], basic, sqrt);
        assert centers[p] == r;
      }
    }
  }

  /** The indices `i` with `labels[i] == target`, in ascending order. */
  function LabelledWith(labels: seq<int>, target: int): (idx: seq<int>)
    ensures StrictlyIncreasing(idx)
    ensures forall p :: 0 <= p < |idx| ==> 0 <= idx[p] < |labels| && labels[idx[p]] == target
    ensures forall i :: 0 <= i < |labels| && labels[i] == target ==> i in idx
  {
    if labels == [] then []
    else
      var n := |labels| - 1;
      var prior := LabelledWith(labels[..n], target);
      if labels[n] == target then prior + [n] else prior
  }

  /**
    * `fingerprints.filterIndexed { i, _ -> labels[i] == target }`: exactly
    * the fingerprints whose label is `target`, in their stored order.
    */
  function ClusterMembers(fps: seq<Fingerprint>, labels: seq<int>, target: int): (r: seq<Fingerprint>)
    requires |labels| == |fps|
    ensures var idx := LabelledWith(labels, target);
      |r| == |idx| && forall p :: 0 <= p < |r| ==> r[p] == fps[idx[p]]
    ensures |r| <= |fps|
    ensures forall f :: f in r ==> f in fps
    ensures forall i :: 0 <= i < |fps| && labels[i] == target ==> fps[i] in r
  {
    if fps == [] then []
    else
      var n := |fps| - 1;
      var prior := ClusterMembers(fps[..n], labels[..n], target);
      assert forall i :: 0 <= i < n ==> fps[..n][i] == fps[i] && labels[..n][i] == labels[i];
      prior + (if labels[n] == target then [fps[n]] else [])
  }

  /** `refinePosition` with the cluster passed in. */
  function Refine(st: State, basic: Position, beacons: seq<BeaconData>, cluster: seq<Fingerprint>, now: int,
                  sqrt: real -> real): Outcome
    requires IsSquareRoot(sqrt)
  {
    var sm := Smooth(st.smoothedRssi, beacons);
    var current := MakeFingerprint(basic, sm.readings, now);
    if cluster == [] then
      Outcome(Some(basic), State(sm.state, st.fingerprints + [current]))
    else
      var ws := RefinementWeights(cluster, current, sqrt);
      var total := Sum(ws);
      if total <= 0.0 then
        Outcome(Some(basic), State(sm.state, st.fingerprints))
      else
        var refined := Position(Dot(ClusterLatitudes(cluster), ws) / total,
                                Dot(ClusterLongitudes(cluster), ws) / total,
                                IndoorAccuracy(beacons, cluster), now);
        Outcome(Some(refined), State(sm.state, Trimmed(st.fingerprints + [current], MAX_FINGERPRINTS)))
  }

  /** The indoor `calculatePosition`. */
  function Estimate(st: State, beacons: seq<BeaconData>, now: int, sqrt: real -> real): Outcome
    requires IsSquareRoot(sqrt)
  {
    match CentroidOf(beacons, now, sqrt)
    case None => Outcome(None, st)
    case Some(basic) =>
      if |st.fingerprints| < TOP_K_BEACONS then
        var sm := Smooth(st.smoothedRssi, beacons);
        Outcome(Some(basic), State(sm.state, st.fingerprints + [MakeFingerprint(basic, sm.readings, now)]))
      else
        EstimateClustered(st, basic, beacons, AffinityClusters(Positions(st.fingerprints), sqrt), now, sqrt)
  }

  /**
    * The part of `calculatePosition` after clustering: the exemplar nearest
    * the bootstrap picks the cluster that refinement uses; with no exemplar
    * the bootstrap is returned.
    */
  function EstimateClustered(st: State, basic: Position, beacons: seq<BeaconData>, clusters: ClusterResult, now: int,
                             sqrt: real -> real): Outcome
    requires IsSquareRoot(sqrt)
    requires |clusters.labels| == |st.fingerprints|
    requires forall p :: 0 <= p < |clusters.centerIndices| ==> 0 <= clusters.centerIndices[p] < |st.fingerprints|
  {
    var ps := Positions(st.fingerprints);
    match NearestCenter(ps, clusters.centerIndices, basic, sqrt)
    case None => Outcome(Some(basic), st)
    case Some(nearest) =>
      var target := IndexOf(clusters.centerIndices, nearest);
      Refine(st, basic, beacons, ClusterMembers(st.fingerprints, clusters.labels, target), now, sqrt)
  }

  // ---------------------------------------------------------------------
  // Properties of one estimate
  // ---------------------------------------------------------------------

  /** Without a bootstrap position nothing is returned and nothing changes. */
  lemma EstimateWithoutBootstrap(st: State, beacons: seq<BeaconData>, now: int, sqrt: real -> real)
    requires IsSquareRoot(sqrt)
    requires CentroidOf(beacons, now, sqrt).None?
    ensures Estimate(st, beacons, now, sqrt) == Outcome(None, st)
  {
  }

  /**
    * While fewer than four fingerprints are stored, the bootstrap is
    * returned as is and exactly one fingerprint — of the bootstrap, stamped
    * `now` — is appended.
    */
  lemma EstimateWarmUp(st: State, beacons: seq<BeaconData>, now: int, sqrt: real -> real)
    requires IsSquareRoot(sqrt)
    requires CentroidOf(beacons, now, sqrt).Some? && |st.fingerprints| < TOP_K_BEACONS
    ensures var o := Estimate(st, beacons, now, sqrt);
      && o.position == CentroidOf(beacons, now, sqrt)
      && |o.state.fingerprints| == |st.fingerprints| + 1
      && o.state.fingerprints[..|st.fingerprints|] == st.fingerprints
      && o.state.fingerprints[|st.fingerprints|].position == CentroidOf(beacons, now, sqrt).value
      && o.state.fingerprints[|st.fingerprints|].timestamp == now
      && o.state.smoothedRssi == Smooth(st.smoothedRssi, beacons).state
  {
    var o := Estimate(st, beacons, now, sqrt);
    assert o.state.fingerprints[..|st.fingerprints|] == st.fingerprints;
  }

  /** With no exemplar the bootstrap is returned and neither field changes. */
  lemma EstimateWithoutExemplar(st: State, beacons: seq<BeaconData>, now: int, sqrt: real -> real)
    requires IsSquareRoot(sqrt)
    requires |st.fingerprints| >= TOP_K_BEACONS
    requires CentroidOf(beacons, now, sqrt).Some? && AffinityClusters(Positions(st.fingerprints), sqrt).centerIndices == []
    ensures Estimate(st, beacons, now, sqrt) == Outcome(CentroidOf(beacons, now, sqrt), st)
  {
  }

  /**
    * The two early exits of refinement return the bootstrap: an empty
    * cluster appends the new fingerprint without trimming; a total weight
    * ≤ 0 leaves the list as it was (the smoothing map is updated either way).
    */
  lemma RefineFallbacks(st: State, basic: Position, beacons: seq<BeaconData>, cluster: seq<Fingerprint>, now: int,
                        sqrt: real -> real)
    requires IsSquareRoot(sqrt)
    ensures var o := Refine(st, basic, beacons, cluster, now, sqrt);
      var sm := Smooth(st.smoothedRssi, beacons);
      var current := MakeFingerprint(basic, sm.readings, now);
      && o.state.smoothedRssi == sm.state
      && (cluster == [] ==> o == Outcome(Some(basic), State(sm.state, st.fingerprints + [current])))
      && (cluster != [] && Sum(RefinementWeights(cluster, current, sqrt)) <= 0.0 ==>
            o == Outcome(Some(basic), State(sm.state, st.fingerprints)))
  {
  }

  /** A total weight ≤ 0 happens exactly when every cluster fingerprint has weight 0. */
  lemma ZeroTotalMeansZeroWeights(cluster: seq<Fingerprint>, current: Fingerprint, sqrt: real -> real)
    requires IsSquareRoot(sqrt)
    ensures var ws := RefinementWeights(cluster, current, sqrt);
      Sum(ws) <= 0.0 <==> forall i :: 0 <= i < |ws| ==> ws[i] == 0.0
  {
    var ws := RefinementWeights(cluster, current, sqrt);
    RefinementWeightsNonNegative(cluster, current, sqrt);
    SumZero(ws);
  }

  lemma {:induction false} SumZero(xs: seq<real>)
    requires forall i :: 0 <= i < |xs| ==> 0.0 <= xs[i]
    ensures Sum(xs) == 0.0 <==> forall i :: 0 <= i < |xs| ==> xs[i] == 0.0
  {
    if xs != [] {
      var n := |xs| - 1;
      SumZero(xs[..n]);
      SumNonNegative(xs[..n]);
      assert forall i :: 0 <= i < n ==> xs[..n][i] == xs[i];
    }
  }

  /**
    * A successful refinement lies inside the bounding box of the cluster's
    * positions, is stamped `now`, and the list gets the new fingerprint and
    * is then trimmed to 1000.
    */
  lemma RefinedInsideCluster(st: State, basic: Position, beacons: seq<BeaconData>, cluster: seq<Fingerprint>, now: int,
                             sqrt: real -> real)
    requires IsSquareRoot(sqrt)
    requires cluster != []
    requires var current := MakeFingerprint(basic, Smooth(st.smoothedRssi, beacons).readings, now);
      Sum(RefinementWeights(cluster, current, sqrt)) > 0.0
    ensures var o := Refine(st, basic, beacons, cluster, now, sqrt);
      var current := MakeFingerprint(basic, Smooth(st.smoothedRssi, beacons).readings, now);
      && o.position.Some?
      && Min(ClusterLatitudes(cluster)) <= o.position.value.latitude <= Max(ClusterLatitudes(cluster))
      && Min(ClusterLongitudes(cluster)) <= o.position.value.longitude <= Max(ClusterLongitudes(cluster))
      && o.position.value.timestamp == now
      && o.state.fingerprints == Trimmed(st.fingerprints + [current], MAX_FINGERPRINTS)
  {
    var current := MakeFingerprint(basic, Smooth(st.smoothedRssi, beacons).readings, now);
    var ws := RefinementWeights(cluster, current, sqrt);
    RefinementWeightsNonNegative(cluster, current, sqrt);
    WeightedMeanWithin(ClusterLatitudes(cluster), ws);
    WeightedMeanWithin(ClusterLongitudes(cluster), ws);
  }

  /**
    * The refined position is not checked again: two stored fingerprints at
    * (1, 1) and (-1, -1) with the same readings weigh the same, so a
    * cluster of the two refines to (0, 0), which the coordinate check
    * rejects.
    */
  lemma RefinedNotRevalidated(st: State, basic: Position, beacons: seq<BeaconData>, now: int, sqrt: real -> real,
                              f: Fingerprint, g: Fingerprint)
    requires IsSquareRoot(sqrt)
    requires f.position.latitude == 1.0 && f.position.longitude == 1.0
    requires g.position.latitude == -1.0 && g.position.longitude == -1.0
    requires f.rssiValues == g.rssiValues && f.rankedBeacons == g.rankedBeacons
    requires var current := MakeFingerprint(basic, Smooth(st.smoothedRssi, beacons).readings, now);
      FingerprintWeight(f, current, sqrt) > 0.0
    ensures IsValidCoordinate(f.position.latitude, f.position.longitude)
    ensures IsValidCoordinate(g.position.latitude, g.position.longitude)
    ensures var o := Refine(st, basic, beacons, [f, g], now, sqrt);
      && o.position.Some?
      && o.position.value.latitude == 0.0 && o.position.value.longitude == 0.0
      && !IsValidCoordinate(o.position.value.latitude, o.position.value.longitude)
  {
    var current := MakeFingerprint(basic, Smooth(st.smoothedRssi, beacons).readings, now);
    MirroredPairCancels(f, g, current, sqrt);
    var total := Sum(RefinementWeights([f, g], current, sqrt));
    assert 0.0 / total == 0.0;
    assert Refine(st, basic, beacons, [f, g], now, sqrt).position ==
      Some(Position(0.0 / total, 0.0 / total, IndoorAccuracy(beacons, [f, g]), now));
  }

  /** Two equally weighted fingerprints at (1, 1) and (-1, -1): positive total, zero weighted sums. */
  lemma MirroredPairCancels(f: Fingerprint, g: Fingerprint, current: Fingerprint, sqrt: real -> real)
    requires IsSquareRoot(sqrt)
    requires f.position.latitude == 1.0 && f.position.longitude == 1.0
    requires g.position.latitude == -1.0 && g.position.longitude == -1.0
    requires f.rssiValues == g.rssiValues && f.rankedBeacons == g.rankedBeacons
    requires FingerprintWeight(f, current, sqrt) > 0.0
    ensures var ws := RefinementWeights([f, g], current, sqrt);
      && Sum(ws) > 0.0
      && Dot(ClusterLatitudes([f, g]), ws) == 0.0
      && Dot(ClusterLongitudes([f, g]), ws) == 0.0
  {
    var w := FingerprintWeight(f, current, sqrt);
    assert FingerprintWeight(g, current, sqrt) == w;
    var ws := RefinementWeights([f, g], current, sqrt);
    assert ws == [w, w];
    PairSums(1.0, w);
    assert ClusterLatitudes([f, g]) == [1.0, -1.0];
    assert ClusterLongitudes([f, g]) == [1.0, -1.0];
  }

  /** Sum and weighted sum of two points mirrored about 0 with equal weights. */
  lemma PairSums(x: real, w: real)
    ensures Sum([w, w]) == w + w
    ensures Dot([x, -x], [w, w]) == 0.0
  {
    assert [w][..0] == [] && [x][..0] == [];
    assert Sum([w]) == w && Dot([x], [w]) == x * w;
    assert [w, w][..1] == [w] && [x, -x][..1] == [x];
    assert Sum([w, w]) == Sum([w]) + w;
    assert Dot([x, -x], [w, w]) == Dot([x], [w]) + -x * w;
  }

  // ---------------------------------------------------------------------
  // What the fingerprint list always holds
  // ---------------------------------------------------------------------

  /** A stored fingerprint: a bootstrap position and a well-formed top-4 reading. */
  ghost predicate StoredFingerprint(f: Fingerprint) {
    && IsValidCoordinate(f.position.latitude, f.position.longitude)
    && MIN_VALID_DISTANCE <= f.position.accuracy <= MAX_VALID_DISTANCE
    && DistinctBy(f.rssiValues, Id)
    && |f.rankedBeacons| <= TOP_K_BEACONS
  }

  ghost predicate ValidState(st: State) {
    forall i :: 0 <= i < |st.fingerprints| ==> StoredFingerprint(st.fingerprints[i])
  }

  lemma NewFingerprintStored(st: State, beacons: seq<BeaconData>, now: int, sqrt: real -> real)
    requires CentroidOf(beacons, now, sqrt).Some?
    ensures StoredFingerprint(MakeFingerprint(CentroidOf(beacons, now, sqrt).value, Smooth(st.smoothedRssi, beacons).readings, now))
  {
    var readings := Smooth(st.smoothedRssi, beacons).readings;
    CentroidInsideBeacons(beacons, now, sqrt);
    SmoothReadings(st.smoothedRssi, beacons);
    RankBeaconsTopK(readings);
  }

  lemma AppendStored(fps: seq<Fingerprint>, f: Fingerprint)
    requires forall i :: 0 <= i < |fps| ==> StoredFingerprint(fps[i])
    requires StoredFingerprint(f)
    ensures forall i :: 0 <= i < |fps + [f]| ==> StoredFingerprint((fps + [f])[i])
  {
  }

  lemma TrimmedStored(fps: seq<Fingerprint>)
    requires forall i :: 0 <= i < |fps| ==> StoredFingerprint(fps[i])
    ensures var r := Trimmed(fps, MAX_FINGERPRINTS);
      forall i :: 0 <= i < |r| ==> StoredFingerprint(r[i])
  {
    var r := Trimmed(fps, MAX_FINGERPRINTS);
    TrimmedKeepsNewest(fps, MAX_FINGERPRINTS);
    forall i | 0 <= i < |r| ensures StoredFingerprint(r[i]) {
      assert r[i] in multiset(r);
      assert r[i] in multiset(fps);
    }
  }

  /** Refining from a valid state with a cluster drawn from it keeps the state valid. */
  lemma RefineKeepsValid(st: State, basic: Position, beacons: seq<BeaconData>, cluster: seq<Fingerprint>, now: int,
                         sqrt: real -> real)
    requires IsSquareRoot(sqrt)
    requires ValidState(st)
    requires StoredFingerprint(MakeFingerprint(basic, Smooth(st.smoothedRssi, beacons).readings, now))
    requires forall f :: f in cluster ==> f in st.fingerprints
    ensures var o := Refine(st, basic, beacons, cluster, now, sqrt);
      && ValidState(o.state)
      && (o.position.Some? && o.position.value != basic ==>
            MIN_VALID_DISTANCE <= o.position.value.accuracy <= MAX_VALID_DISTANCE)
  {
    var current := MakeFingerprint(basic, Smooth(st.smoothedRssi, beacons).readings, now);
    var grown := st.fingerprints + [current];
    AppendStored(st.fingerprints, current);
    if cluster != [] {
      forall i | 0 <= i < |cluster|
        ensures MIN_VALID_DISTANCE <= cluster[i].position.accuracy <= MAX_VALID_DISTANCE
      {
        assert cluster[i] in st.fingerprints;
      }
      IndoorAccuracyWithin(beacons, cluster);
      TrimmedStored(grown);
    }
  }

  /**
    * Every stored fingerprint holds a bootstrap position (valid coordinates,
    * accuracy in [0.1, 1000]), distinct reading ids and at most four ranked
    * ids; so every returned position has accuracy in [0.1, 1000].
    */
  lemma EstimateKeepsValid(st: State, beacons: seq<BeaconData>, now: int, sqrt: real -> real)
    requires IsSquareRoot(sqrt)
    requires ValidState(st)
    ensures var o := Estimate(st, beacons, now, sqrt);
      && ValidState(o.state)
      && (o.position.Some? ==> MIN_VALID_DISTANCE <= o.position.value.accuracy <= MAX_VALID_DISTANCE)
  {
    var o := Estimate(st, beacons, now, sqrt);
    if CentroidOf(beacons, now, sqrt).Some? {
      var basic := CentroidOf(beacons, now, sqrt).value;
      CentroidInsideBeacons(beacons, now, sqrt);
      NewFingerprintStored(st, beacons, now, sqrt);
      if |st.fingerprints| < TOP_K_BEACONS {
        var sm := Smooth(st.smoothedRssi, beacons);
        var fp := MakeFingerprint(basic, sm.readings, now);
        assert o == Outcome(Some(basic), State(sm.state, st.fingerprints + [fp]));
        AppendStored(st.fingerprints, fp);
      } else {
        var clusters := AffinityClusters(Positions(st.fingerprints), sqrt);
        assert o == EstimateClustered(st, basic, beacons, clusters, now, sqrt);
        ClusteredKeepsValid(st, basic, beacons, clusters, now, sqrt);
      }
    } else {
      assert o == Outcome(None, st);
    }
  }

  /** The clustered step keeps the invariant, whatever clustering it is given. */
  lemma ClusteredKeepsValid(st: State, basic: Position, beacons: seq<BeaconData>, clusters: ClusterResult, now: int,
                            sqrt: real -> real)
    requires IsSquareRoot(sqrt)
    requires ValidState(st)
    requires |clusters.labels| == |st.fingerprints|
    requires forall p :: 0 <= p < |clusters.centerIndices| ==> 0 <= clusters.centerIndices[p] < |st.fingerprints|
    requires StoredFingerprint(MakeFingerprint(basic, Smooth(st.smoothedRssi, beacons).readings, now))
    ensures var o := EstimateClustered(st, basic, beacons, clusters, now, sqrt);
      && ValidState(o.state)
      && (o.position.Some? ==> MIN_VALID_DISTANCE <= o.position.value.accuracy <= MAX_VALID_DISTANCE)
  {
    var nearest := NearestCenter(Positions(st.fingerprints), clusters.centerIndices, basic, sqrt);
    if nearest.Some? {
      var target := IndexOf(clusters.centerIndices, nearest.value);
      var cluster := ClusterMembers(st.fingerprints, clusters.labels, target);
      RefineKeepsValid(st, basic, beacons, cluster, now, sqrt);
    }
  }

  // ---------------------------------------------------------------------
  // The calculator object
  // ---------------------------------------------------------------------

  class IndoorPositioningCalculator {
    var smoothedRssi: map<string, real>
    var fingerprints: seq<Fingerprint>

    function Snapshot(): State
      reads this
    {
      State(smoothedRssi, fingerprints)
    }

    constructor()
      ensures Snapshot() == State(map[], [])
    {
      smoothedRssi := map[];
      fingerprints := [];
    }

    /** `exponentialSmoothing`: updates the smoothing map sighting by sighting and returns the call's map. */
    method ExponentialSmoothing(beacons: seq<BeaconData>) returns (smoothedData: seq<Reading>)
      modifies this
      ensures Smoothing(smoothedRssi, smoothedData) == Smooth(old(smoothedRssi), beacons)
      ensures fingerprints == old(fingerprints)
    {
      smoothedData := [];
      for i := 0 to |beacons|
        invariant Smoothing(smoothedRssi, smoothedData) == Smooth(old(smoothedRssi), beacons[..i])
        invariant fingerprints == old(fingerprints)
      {
        var beacon := beacons[i];
        var beaconId := BeaconKey(beacon.uuid, beacon.major, beacon.minor);
        var currentRssi := beacon.rssi as real;
        var smoothedValue := SMOOTHING_FACTOR * currentRssi +
          (1.0 - SMOOTHING_FACTOR) * (if beaconId in smoothedRssi then smoothedRssi[beaconId] else currentRssi);
        assert beaconId == BeaconId(beacon) && smoothedValue == SmoothedValue(smoothedRssi, beacon);
        assert beacons[..i + 1][..i] == beacons[..i] && beacons[..i + 1][i] == beacon;
        smoothedRssi := smoothedRssi[beaconId := smoothedValue];
        smoothedData := Put(smoothedData, beaconId, smoothedValue);
      }
      assert beacons[..|beacons|] == beacons;
    }

    /** `createFingerprint`: smooths, ranks and averages; the fingerprint is stamped `now`. */
    method CreateFingerprint(position: Position, beacons: seq<BeaconData>, now: int) returns (fp: Fingerprint)
      modifies this
      ensures var sm := Smooth(old(smoothedRssi), beacons);
        fp == MakeFingerprint(position, sm.readings, now) && smoothedRssi == sm.state
      ensures fingerprints == old(fingerprints)
    {
      var smoothedData := ExponentialSmoothing(beacons);
      var rankedBeacons := RankBeacons(smoothedData);
      var averageRssi := Mean(Values(smoothedData));
      fp := Fingerprint(position, smoothedData, rankedBeacons, averageRssi, now);
    }

    /** `addFingerprint`: appends without trimming. */
    method AddFingerprint(fp: Fingerprint)
      modifies this
      ensures fingerprints == old(fingerprints) + [fp]
      ensures smoothedRssi == old(smoothedRssi)
    {
      fingerprints := fingerprints + [fp];
    }

    /** `maintainFingerprintDatabase`: sort by timestamp in place, then drop from the front. */
    method MaintainFingerprintDatabase(maxSize: nat)
      modifies this
      ensures fingerprints == Trimmed(old(fingerprints), maxSize)
      ensures smoothedRssi == old(smoothedRssi)
    {
      if |fingerprints| > maxSize {
        fingerprints := SortBy(fingerprints, Timestamp);
        var removeCount := |fingerprints| - maxSize;
        ghost var sorted := fingerprints;
        for k := 0 to removeCount
          invariant fingerprints == sorted[k..]
          invariant smoothedRssi == old(smoothedRssi)
        {
          fingerprints := fingerprints[1..];
        }
      }
    }

    /** The `forEachIndexed` accumulation of `refinePosition`. */
    static method WeightedSums(cluster: seq<Fingerprint>, weights: seq<real>) returns (refinedLat: real, refinedLon: real)
      requires |weights| == |cluster|
      ensures refinedLat == Dot(ClusterLatitudes(cluster), weights)
      ensures refinedLon == Dot(ClusterLongitudes(cluster), weights)
    {
      var lats, lons := ClusterLatitudes(cluster), ClusterLongitudes(cluster);
      refinedLat, refinedLon := 0.0, 0.0;
      for index := 0 to |cluster|
        invariant refinedLat == Dot(lats[..index], weights[..index])
        invariant refinedLon == Dot(lons[..index], weights[..index])
      {
        var fingerprint := cluster[index];
        DotPrefixStep(refinedLat, fingerprint.position.latitude, weights[index], lats, weights, index);
        DotPrefixStep(refinedLon, fingerprint.position.longitude, weights[index], lons, weights, index);
        refinedLat := refinedLat + fingerprint.position.latitude * weights[index];
        refinedLon := refinedLon + fingerprint.position.longitude * weights[index];
      }
      assert lats[..|cluster|] == lats && lons[..|cluster|] == lons && weights[..|cluster|] == weights;
    }

    /** `refinePosition` with a cluster list. */
    method RefinePosition(basic: Position, beacons: seq<BeaconData>, cluster: seq<Fingerprint>, now: int,
                          sqrt: real -> real) returns (p: Position)
      requires IsSquareRoot(sqrt)
      modifies this
      ensures Outcome(Some(p), Snapshot()) == Refine(old(Snapshot()), basic, beacons, cluster, now, sqrt)
    {
      var currentFingerprint := CreateFingerprint(basic, beacons, now);
      if cluster == [] {
        fingerprints := fingerprints + [currentFingerprint];
        return basic;
      }
      var weights := RefinementWeights(cluster, currentFingerprint, sqrt);
      var totalWeight := Sum(weights);
      if totalWeight <= 0.0 {
        return basic;
      }
      var refinedLat, refinedLon := WeightedSums(cluster, weights);
      p := Position(refinedLat / totalWeight, refinedLon / totalWeight, IndoorAccuracy(beacons, cluster), now);
      fingerprints := fingerprints + [currentFingerprint];
      MaintainFingerprintDatabase(MAX_FINGERPRINTS);
    }

    /** `calculatePosition`. */
    method CalculatePosition(beacons: seq<BeaconData>, now: int, sqrt: real -> real) returns (r: Option<Position>)
      requires IsSquareRoot(sqrt)
      modifies this
      ensures Outcome(r, Snapshot()) == Estimate(old(Snapshot()), beacons, now, sqrt)
    {
      var basicPosition := WeightedCentroid.CalculatePosition(beacons, now, sqrt);
      if basicPosition.None? {
        return None;
      }
      var basic := basicPosition.value;
      if |fingerprints| < TOP_K_BEACONS {
        var fp := CreateFingerprint(basic, beacons, now);
        AddFingerprint(fp);
        return Some(basic);
      }
      var fingerprintPositions := Positions(fingerprints);
      var clusterResult := PerformAffinityPropagation(fingerprintPositions, sqrt);
      var nearestClusterIndex := NearestCenter(fingerprintPositions, clusterResult.centerIndices, basic, sqrt);
      if nearestClusterIndex.None? {
        return Some(basic);
      }
      var target := IndexOf(clusterResult.centerIndices, nearestClusterIndex.value);
      var clusterFingerprints := ClusterMembers(fingerprints, clusterResult.labels, target);
      var refined := RefinePosition(basic, beacons, clusterFingerprints, now, sqrt);
      return Some(refined);
    }
  }
}
