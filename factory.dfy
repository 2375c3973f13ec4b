/**
  * `PositionCalculatorFactory` and the `PositionCalculator` interface: a
  * calculator is either the stateless weighted centroid or an indoor
  * calculator object; the factory's default is the indoor one.
  */
module Factory {
  import opened Support
  import opened BeaconScanning
  import opened WeightedCentroid
  import Fingerprints
  import opened AffinityPropagation
  import opened IndoorPositioning

  datatype CalculatorType = WeightedCentroidType | IndoorPositioningType

  /** The type `getCalculator()` uses when called without an argument. */
  const DEFAULT_TYPE: CalculatorType := IndoorPositioningType

  /** A `PositionCalculator`: the centroid calculator holds no state. */
  datatype Calculator = CentroidCalculator | IndoorCalculator(indoor: IndoorPositioningCalculator)

  /** `getCalculator(type)`: a new calculator of the requested kind; an indoor one starts empty. */
  method GetCalculator(t: CalculatorType) returns (c: Calculator)
    ensures t == WeightedCentroidType <==> c.CentroidCalculator?
    ensures c.IndoorCalculator? ==> fresh(c.indoor) && c.indoor.Snapshot() == State(map[], [])
  {
    match t
    case WeightedCentroidType =>
      c := CentroidCalculator;
    case IndoorPositioningType =>
      var indoor := new IndoorPositioningCalculator();
      c := IndoorCalculator(indoor);
  }

  /** `calculator.calculatePosition(beacons)`, dispatched on the kind of calculator. */
  method CalculatePosition(c: Calculator, beacons: seq<BeaconData>, now: int, sqrt: real -> real)
    returns (r: Option<Position>)
    requires IsSquareRoot(sqrt)
    modifies if c.IndoorCalculator? then {c.indoor} else {}
    ensures c.CentroidCalculator? ==> r == CentroidOf(beacons, now, sqrt)
    ensures c.IndoorCalculator? ==>
      Outcome(r, c.indoor.Snapshot()) == Estimate(old(c.indoor.Snapshot()), beacons, now, sqrt)
  {
    match c
    case CentroidCalculator =>
      r := WeightedCentroid.CalculatePosition(beacons, now, sqrt);
    case IndoorCalculator(indoor) =>
      r := indoor.CalculatePosition(beacons, now, sqrt);
  }

  /**
    * Both kinds of calculator return nothing exactly when the centroid has
    * no position; while an indoor calculator warms up (fewer than four
    * fingerprints stored) the two return the same position.
    */
  lemma CalculatorsAgreeWhileWarmingUp(st: State, beacons: seq<BeaconData>, now: int, sqrt: real -> real)
    requires IsSquareRoot(sqrt)
    ensures Estimate(st, beacons, now, sqrt).position.None? <==> CentroidOf(beacons, now, sqrt).None?
    ensures |st.fingerprints| < Fingerprints.TOP_K_BEACONS ==>
      Estimate(st, beacons, now, sqrt).position == CentroidOf(beacons, now, sqrt)
  {
    var o := Estimate(st, beacons, now, sqrt);
    if CentroidOf(beacons, now, sqrt).Some? && |st.fingerprints| >= Fingerprints.TOP_K_BEACONS {
      var basic := CentroidOf(beacons, now, sqrt).value;
      var clusters := AffinityClusters(Positions(st.fingerprints), sqrt);
      var nearest := NearestCenter(Positions(st.fingerprints), clusters.centerIndices, basic, sqrt);
      if nearest.Some? {
        var cluster := ClusterMembers(st.fingerprints, clusters.labels, IndexOf(clusters.centerIndices, nearest.value));
        RefineFallbacks(st, basic, beacons, cluster, now, sqrt);
      }
    }
  }
}
