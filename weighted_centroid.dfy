/**
  * `WeightedCentroidCalculator` and the `Position` it produces: the
  * inverse-square-distance weighted average of the registered coordinates
  * of the beacons in view.
  */
module WeightedCentroid {
  import opened Support
  import opened BeaconScanning

  /** A position estimate; `timestamp` is the clock reading at construction. */
  datatype Position = Position(latitude: real, longitude: real, accuracy: real, timestamp: int)

  const MIN_BEACONS: nat := 3
  const MAX_VALID_DISTANCE: real := 1000.0
  const MIN_VALID_DISTANCE: real := 0.1
  const DEFAULT_ACCURACY: real := 10.0

  /** Latitude and longitude in range and not both zero (the finiteness tests have no counterpart over reals). */
  predicate IsValidCoordinate(lat: real, lon: real) {
    -90.0 <= lat <= 90.0 && -180.0 <= lon <= 180.0 && (lat != 0.0 || lon != 0.0)
  }

  /** The distance a beacon contributes: its own reported distance, whenever its coordinates are valid. */
  function GetValidDistance(b: BeaconData): Option<real> {
    if !IsValidCoordinate(b.latitude, b.longitude) then None else Some(b.distance)
  }

  /** The positions of the beacons with valid coordinates, ascending. */
  function ValidIndices(bs: seq<BeaconData>): (idx: seq<int>)
    ensures StrictlyIncreasing(idx) && |idx| <= |bs|
    ensures forall p :: 0 <= p < |idx| ==> 0 <= idx[p] < |bs| && IsValidCoordinate(bs[idx[p]].latitude, bs[idx[p]].longitude)
    ensures forall i :: 0 <= i < |bs| && IsValidCoordinate(bs[i].latitude, bs[i].longitude) ==> i in idx
  {
    if bs == [] then []
    else
      var n := |bs| - 1;
      var prior := ValidIndices(bs[..n]);
      if IsValidCoordinate(bs[n].latitude, bs[n].longitude) then prior + [n] else prior
  }

  /** The in-order filter itself: each beacon that passes `GetValidDistance`, paired with that distance. */
  function Filtered(bs: seq<BeaconData>): (r: seq<(BeaconData, real)>)
    ensures var idx := ValidIndices(bs);
      |r| == |idx| && forall p :: 0 <= p < |r| ==> r[p] == (bs[idx[p]], bs[idx[p]].distance)
  {
    if bs == [] then []
    else
      var n := |bs| - 1;
      var prior := Filtered(bs[..n]);
      assert forall i :: 0 <= i < n ==> bs[..n][i] == bs[i];
      match GetValidDistance(bs[n])
      case Some(d) => prior + [(bs[n], d)]
      case None => prior
  }

  /**
    * The beacons that pass `GetValidDistance`, paired with their distance:
    * exactly the beacons at `ValidIndices`, in input order.
    */
  function ValidBeacons(bs: seq<BeaconData>): (r: seq<(BeaconData, real)>)
    ensures var idx := ValidIndices(bs);
      |r| == |idx| && forall p :: 0 <= p < |r| ==> r[p] == (bs[idx[p]], bs[idx[p]].distance)
    ensures |r| <= |bs|
    ensures forall p :: p in r ==> p.0 in bs && IsValidCoordinate(p.0.latitude, p.0.longitude) && p.1 == p.0.distance
    ensures forall b :: b in bs && IsValidCoordinate(b.latitude, b.longitude) ==> (b, b.distance) in r
  {
    var r := Filtered(bs);
    var idx := ValidIndices(bs);
    assert forall p :: p in r ==> p.0 in bs && IsValidCoordinate(p.0.latitude, p.0.longitude) && p.1 == p.0.distance by {
      forall p | p in r ensures p.0 in bs && IsValidCoordinate(p.0.latitude, p.0.longitude) && p.1 == p.0.distance {
        var q :| 0 <= q < |r| && r[q] == p;
        assert bs[idx[q]] in bs;
      }
    }
    assert forall b :: b in bs && IsValidCoordinate(b.latitude, b.longitude) ==> (b, b.distance) in r by {
      forall b | b in bs && IsValidCoordinate(b.latitude, b.longitude) ensures (b, b.distance) in r {
        var i :| 0 <= i < |bs| && bs[i] == b;
        assert i in idx;
        var q :| 0 <= q < |idx| && idx[q] == i;
        assert r[q] == (b, b.distance);
      }
    }
    r
  }

  /** Inverse-square weight; the additive 0.1 keeps it finite at distance 0. */
  function Weight(distance: real): (w: real)
    ensures w > 0.0
  {
    assert distance * distance >= 0.0;
    1.0 / (distance * distance + 0.1)
  }

  function Weights(vb: seq<(BeaconData, real)>): seq<real> {
    seq(|vb|, i requires 0 <= i < |vb| => Weight(vb[i].1))
  }

  function Latitudes(vb: seq<(BeaconData, real)>): seq<real> {
    seq(|vb|, i requires 0 <= i < |vb| => vb[i].0.latitude)
  }

  function Longitudes(vb: seq<(BeaconData, real)>): seq<real> {
    seq(|vb|, i requires 0 <= i < |vb| => vb[i].0.longitude)
  }

  function Distances(vb: seq<(BeaconData, real)>): seq<real> {
    seq(|vb|, i requires 0 <= i < |vb| => vb[i].1)
  }

  /** Population variance of the contributing distances. */
  function Variance(ds: seq<real>): real {
    var mean := Mean(ds);
    Mean(seq(|ds|, i requires 0 <= i < |ds| => Square(ds[i] - mean)))
  }

  /** Standard deviation of the distances, clamped to the valid distance band. */
  function CalculateAccuracy(vb: seq<(BeaconData, real)>, sqrt: real -> real): (r: real)
    ensures |vb| == 0 ==> r == DEFAULT_ACCURACY
    ensures MIN_VALID_DISTANCE <= r <= MAX_VALID_DISTANCE
  {
    if |vb| == 0 then DEFAULT_ACCURACY
    else Clamp(sqrt(Variance(Distances(vb))), MIN_VALID_DISTANCE, MAX_VALID_DISTANCE)
  }

  /** The weighted average of the contributors' latitudes. */
  function CentroidLatitude(vb: seq<(BeaconData, real)>): real
    requires |vb| > 0
  {
    TotalWeightPositive(vb);
    Dot(Latitudes(vb), Weights(vb)) / Sum(Weights(vb))
  }

  /** The weighted average of the contributors' longitudes. */
  function CentroidLongitude(vb: seq<(BeaconData, real)>): real
    requires |vb| > 0
  {
    TotalWeightPositive(vb);
    Dot(Longitudes(vb), Weights(vb)) / Sum(Weights(vb))
  }

  /** What `calculatePosition` returns, as a value. */
  function CentroidOf(beacons: seq<BeaconData>, now: int, sqrt: real -> real): Option<Position> {
    if |beacons| == 0 then None
    else
      var vb := ValidBeacons(beacons);
      if |vb| < MIN_BEACONS then None
      else
        var total := Sum(Weights(vb));
        if total <= 0.0 then None
        else
          var lat := CentroidLatitude(vb);
          var lon := CentroidLongitude(vb);
          if !IsValidCoordinate(lat, lon) then None
          else Some(Position(lat, lon, CalculateAccuracy(vb, sqrt), now))
  }

  /** The loop of `calculatePosition` that sums the weights and the weighted coordinates. */
  method WeightedTotals(validBeacons: seq<(BeaconData, real)>) returns (totalWeight: real, weightedLat: real, weightedLon: real)
    ensures totalWeight == Sum(Weights(validBeacons))
    ensures weightedLat == Dot(Latitudes(validBeacons), Weights(validBeacons))
    ensures weightedLon == Dot(Longitudes(validBeacons), Weights(validBeacons))
  {
    ghost var ws, lats, lons := Weights(validBeacons), Latitudes(validBeacons), Longitudes(validBeacons);
    totalWeight, weightedLat, weightedLon := 0.0, 0.0, 0.0;
    var i := 0;
    while i < |validBeacons|
      invariant 0 <= i <= |validBeacons|
      invariant totalWeight == Sum(ws[..i])
      invariant weightedLat == Dot(lats[..i], ws[..i])
      invariant weightedLon == Dot(lons[..i], ws[..i])
    {
      var beacon, distance := validBeacons[i].0, validBeacons[i].1;
      var weight := Weight(distance);
      SumPrefixStep(totalWeight, weight, ws, i);
      DotPrefixStep(weightedLat, beacon.latitude, weight, lats, ws, i);
      DotPrefixStep(weightedLon, beacon.longitude, weight, lons, ws, i);
      weightedLat := weightedLat + beacon.latitude * weight;
      weightedLon := weightedLon + beacon.longitude * weight;
      totalWeight := totalWeight + weight;
      i := i + 1;
    }
    assert ws[..i] == ws && lats[..i] == lats && lons[..i] == lons;
  }

  /** The weighted centroid; `now` stands for the clock reading stamped on the result. */
  method CalculatePosition(beacons: seq<BeaconData>, now: int, sqrt: real -> real) returns (r: Option<Position>)
    ensures r == CentroidOf(beacons, now, sqrt)
  {
    if |beacons| == 0 {
      return None;
    }
    var validBeacons := ValidBeacons(beacons);
    if |validBeacons| < MIN_BEACONS {
      return None;
    }
    var totalWeight, weightedLat, weightedLon := WeightedTotals(validBeacons);
    if totalWeight <= 0.0 {
      return None;
    }
    var finalLat := weightedLat / totalWeight;
    var finalLon := weightedLon / totalWeight;
    assert finalLat == CentroidLatitude(validBeacons) && finalLon == CentroidLongitude(validBeacons);
    if !IsValidCoordinate(finalLat, finalLon) {
      return None;
    }
    var accuracy := CalculateAccuracy(validBeacons, sqrt);
    r := Some(Position(finalLat, finalLon, accuracy, now));
  }

  // ---------------------------------------------------------------------
  // Properties of the estimate
  // ---------------------------------------------------------------------

  /** Every weight is positive, so any non-empty set of contributors has a positive total. */
  lemma {:induction false} TotalWeightPositive(vb: seq<(BeaconData, real)>)
    requires |vb| > 0
    ensures Sum(Weights(vb)) > 0.0
  {
    var ws := Weights(vb);
    var n := |vb| - 1;
    assert ws[..n] == Weights(vb[..n]);
    SumNonNegative(ws[..n]);
  }

  lemma SquareIncreasing(x: real, y: real)
    requires 0.0 <= x < y
    ensures x * x < y * y
  {
    MulPositive(y - x, y + x);
    assert (y - x) * (y + x) == y * y - x * x;
  }

  lemma ReciprocalDecreasing(a: real, b: real)
    requires 0.0 < a < b
    ensures 1.0 / a > 1.0 / b
  {
    assert a * (1.0 / a) == 1.0 && b * (1.0 / b) == 1.0;
    assert b * (1.0 / a) > a * (1.0 / a);
  }

  /** A closer beacon weighs more than a farther one. */
  lemma WeightDecreasesWithDistance(d1: real, d2: real)
    requires 0.0 <= d1 < d2
    ensures Weight(d1) > Weight(d2)
  {
    SquareIncreasing(d1, d2);
    assert d1 * d1 >= 0.0;
    ReciprocalDecreasing(d1 * d1 + 0.1, d2 * d2 + 0.1);
  }

  /**
    * The estimate exists exactly when there is input, at least three beacons
    * have valid coordinates (distances play no part) and the weighted
    * average itself is a valid coordinate.
    */
  lemma {:induction false} CentroidDefinedWhen(beacons: seq<BeaconData>, now: int, sqrt: real -> real)
    ensures var vb := ValidBeacons(beacons);
      CentroidOf(beacons, now, sqrt).Some? <==>
        |beacons| > 0 && |vb| >= MIN_BEACONS &&
        IsValidCoordinate(CentroidLatitude(vb), CentroidLongitude(vb))
  {
    var vb := ValidBeacons(beacons);
    if |vb| > 0 {
      TotalWeightPositive(vb);
    }
  }

  /**
    * A computed estimate is a valid coordinate inside the bounding box of
    * the contributing beacons, with accuracy in [0.1, 1000] and the
    * current clock reading.
    */
  lemma {:induction false} CentroidInsideBeacons(beacons: seq<BeaconData>, now: int, sqrt: real -> real)
    requires CentroidOf(beacons, now, sqrt).Some?
    ensures var p := CentroidOf(beacons, now, sqrt).value;
      var vb := ValidBeacons(beacons);
      && |vb| >= MIN_BEACONS
      && IsValidCoordinate(p.latitude, p.longitude)
      && Min(Latitudes(vb)) <= p.latitude <= Max(Latitudes(vb))
      && Min(Longitudes(vb)) <= p.longitude <= Max(Longitudes(vb))
      && MIN_VALID_DISTANCE <= p.accuracy <= MAX_VALID_DISTANCE
      && p.timestamp == now
  {
    CentroidWithinBox(ValidBeacons(beacons));
  }

  /** The weighted averages lie within the range of the contributors' coordinates. */
  lemma CentroidWithinBox(vb: seq<(BeaconData, real)>)
    requires |vb| > 0
    ensures Min(Latitudes(vb)) <= CentroidLatitude(vb) <= Max(Latitudes(vb))
    ensures Min(Longitudes(vb)) <= CentroidLongitude(vb) <= Max(Longitudes(vb))
  {
    var ws := Weights(vb);
    forall i | 0 <= i < |ws| ensures 0.0 <= ws[i] {
    }
    TotalWeightPositive(vb);
    WeightedMeanWithin(Latitudes(vb), ws);
    WeightedMeanWithin(Longitudes(vb), ws);
  }

  lemma {:induction false} MeanOfConstant(xs: seq<real>, c: real)
    requires forall i :: 0 <= i < |xs| ==> xs[i] == c
    ensures |xs| > 0 ==> Mean(xs) == c
  {
    if |xs| > 0 {
      MeanWithin(xs, c, c);
    }
  }

  /** Equal distances have zero spread, so the accuracy sits at the clamp's floor of 0.1. */
  lemma {:induction false} EqualDistancesGiveFloorAccuracy(vb: seq<(BeaconData, real)>, d: real, sqrt: real -> real)
    requires IsSquareRoot(sqrt)
    requires |vb| > 0
    requires forall i :: 0 <= i < |vb| ==> vb[i].1 == d
    ensures CalculateAccuracy(vb, sqrt) == MIN_VALID_DISTANCE
  {
    var ds := Distances(vb);
    MeanOfConstant(ds, d);
    var devs := seq(|ds|, i requires 0 <= i < |ds| => Square(ds[i] - Mean(ds)));
    MeanOfConstant(devs, 0.0);
    assert Variance(ds) == 0.0;
    assert sqrt(0.0) * sqrt(0.0) == 0.0;
  }

  /**
    * Three beacons at (10,10), (10,20) and (20,10), 5 m away each: all pass
    * the coordinate check, weigh the same, and give their plain average.
    */
  lemma ThreeBeaconsGiveAverage(sqrt: real -> real)
    ensures var bs := [BeaconData("u", "1", "1", -60, 5.0, 10.0, 10.0, 0),
                       BeaconData("u", "1", "2", -60, 5.0, 10.0, 20.0, 0),
                       BeaconData("u", "1", "3", -60, 5.0, 20.0, 10.0, 0)];
      CentroidOf(bs, 7, sqrt).Some? &&
      CentroidOf(bs, 7, sqrt).value.latitude == 40.0 / 3.0 &&
      CentroidOf(bs, 7, sqrt).value.longitude == 40.0 / 3.0
  {
    var bs := [BeaconData("u", "1", "1", -60, 5.0, 10.0, 10.0, 0),
               BeaconData("u", "1", "2", -60, 5.0, 10.0, 20.0, 0),
               BeaconData("u", "1", "3", -60, 5.0, 20.0, 10.0, 0)];
    ThreeValid(bs);
    ThreeAverage(bs[0], bs[1], bs[2]);
    TotalWeightPositive(ValidBeacons(bs));
  }

  /** Three beacons with valid coordinates all pass the filter, in order. */
  lemma ThreeValid(bs: seq<BeaconData>)
    requires |bs| == 3
    requires forall i :: 0 <= i < 3 ==> IsValidCoordinate(bs[i].latitude, bs[i].longitude)
    ensures ValidBeacons(bs) == [(bs[0], bs[0].distance), (bs[1], bs[1].distance), (bs[2], bs[2].distance)]
  {
    var idx := ValidIndices(bs);
    assert 0 in idx && 1 in idx && 2 in idx;
    assert idx == [0, 1, 2];
  }

  /** Equal weights reduce the weighted averages to plain ones. */
  lemma ThreeAverage(b0: BeaconData, b1: BeaconData, b2: BeaconData)
    requires b0.distance == b1.distance == b2.distance == 5.0
    requires b0.latitude == 10.0 && b1.latitude == 10.0 && b2.latitude == 20.0
    requires b0.longitude == 10.0 && b1.longitude == 20.0 && b2.longitude == 10.0
    ensures var vb := [(b0, 5.0), (b1, 5.0), (b2, 5.0)];
      CentroidLatitude(vb) == 40.0 / 3.0 && CentroidLongitude(vb) == 40.0 / 3.0
  {
    var vb := [(b0, 5.0), (b1, 5.0), (b2, 5.0)];
    var w := Weight(5.0);
    assert w == 10.0 / 251.0;
    var ws := Weights(vb);
    assert ws == [w, w, w];
    assert ws[..2] == [w, w] && ws[..2][..1] == [w] && ws[..2][..1][..0] == [];
    assert Sum(ws[..2][..1]) == 10.0 / 251.0;
    assert Sum(ws[..2]) == 20.0 / 251.0;
    assert Sum(ws) == 30.0 / 251.0;
    var lats, lons := Latitudes(vb), Longitudes(vb);
    assert lats == [10.0, 10.0, 20.0] && lons == [10.0, 20.0, 10.0];
    assert lats[..2] == [10.0, 10.0] && lats[..2][..1] == [10.0] && lats[..2][..1][..0] == [];
    assert lons[..2] == [10.0, 20.0] && lons[..2][..1] == [10.0] && lons[..2][..1][..0] == [];
    assert Dot(lats[..2][..1], ws[..2][..1]) == 100.0 / 251.0;
    assert Dot(lats[..2], ws[..2]) == 200.0 / 251.0;
    assert Dot(lats, ws) == 400.0 / 251.0;
    assert Dot(lons[..2][..1], ws[..2][..1]) == 100.0 / 251.0;
    assert Dot(lons[..2], ws[..2]) == 300.0 / 251.0;
    assert Dot(lons, ws) == 400.0 / 251.0;
  }

  /**
    * Three beacons at (0,0), (0,10) and (10,0), 5 m away each: the beacon
    * at the origin fails the coordinate check, leaving two, so there is
    * no estimate.
    */
  lemma OriginBeaconLeavesTooFew(sqrt: real -> real)
    ensures CentroidOf([BeaconData("u", "1", "1", -60, 5.0, 0.0, 0.0, 0),
                        BeaconData("u", "1", "2", -60, 5.0, 0.0, 10.0, 0),
                        BeaconData("u", "1", "3", -60, 5.0, 10.0, 0.0, 0)], 0, sqrt) == None
  {
    var bs := [BeaconData("u", "1", "1", -60, 5.0, 0.0, 0.0, 0),
               BeaconData("u", "1", "2", -60, 5.0, 0.0, 10.0, 0),
               BeaconData("u", "1", "3", -60, 5.0, 10.0, 0.0, 0)];
    assert bs[..2][..1] == [bs[0]];
    assert bs[..2] == [bs[0], bs[1]];
    assert |ValidBeacons(bs)| == 2;
  }
}
