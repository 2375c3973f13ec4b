/**
  * The RSSI fingerprints of `IndoorPositioningCalculator`: per-beacon
  * exponential smoothing, the top-4 ranking, the similarity scores
  * between fingerprints, the refined accuracy and the capacity trimming
  * of the fingerprint database.
  */
module Fingerprints {
  import opened Support
  import opened BeaconScanning
  import opened WeightedCentroid

  const SMOOTHING_FACTOR: real := 0.5
  const TOP_K_BEACONS: nat := 4
  const MAX_FINGERPRINTS: nat := 1000

  /** One entry of an insertion-ordered `Map<String, Double>` from beacon id to smoothed RSSI. */
  datatype Reading = Reading(id: string, rssi: real)

  datatype Fingerprint = Fingerprint(
    position: Position,
    rssiValues: seq<Reading>,
    rankedBeacons: seq<string>,
    averageRssi: real,
    timestamp: int)

  function Id(r: Reading): string { r.id }

  function NegRssi(r: Reading): real { -r.rssi }

  function Ids(rs: seq<Reading>): seq<string> {
    seq(|rs|, i requires 0 <= i < |rs| => rs[i].id)
  }

  function Values(rs: seq<Reading>): seq<real> {
    seq(|rs|, i requires 0 <= i < |rs| => rs[i].rssi)
  }

  // ---------------------------------------------------------------------
  // The insertion-ordered map
  // ---------------------------------------------------------------------

  /** `map[id] ?: 0.0`. */
  function Lookup(rs: seq<Reading>, id: string): real {
    if rs == [] then 0.0
    else if rs[0].id == id then rs[0].rssi
    else Lookup(rs[1..], id)
  }

  lemma {:induction false} LookupAt(rs: seq<Reading>, i: int)
    requires DistinctBy(rs, Id) && 0 <= i < |rs|
    ensures Lookup(rs, rs[i].id) == rs[i].rssi
  {
    if i > 0 {
      assert Id(rs[0]) != Id(rs[i]);
      TailDistinct(rs);
      LookupAt(rs[1..], i - 1);
    }
  }

  lemma TailDistinct(rs: seq<Reading>)
    requires DistinctBy(rs, Id) && |rs| > 0
    ensures DistinctBy(rs[1..], Id)
  {
    forall a, b | 0 <= a < b < |rs| - 1 ensures Id(rs[1..][a]) != Id(rs[1..][b]) {
      assert rs[1..][a] == rs[a + 1] && rs[1..][b] == rs[b + 1];
    }
  }

  /** `map[id] = v`: an existing key keeps its place, a new key goes last. */
  function Put(rs: seq<Reading>, id: string, v: real): seq<Reading> {
    if rs == [] then [Reading(id, v)]
    else if rs[0].id == id then [Reading(id, v)] + rs[1..]
    else [rs[0]] + Put(rs[1..], id, v)
  }

  lemma {:induction false} PutIds(rs: seq<Reading>, id: string, v: real)
    ensures Ids(Put(rs, id, v)) == if id in Ids(rs) then Ids(rs) else Ids(rs) + [id]
  {
    if rs != [] {
      var tail := rs[1..];
      assert Ids(rs) == [rs[0].id] + Ids(tail);
      if rs[0].id != id {
        PutIds(tail, id, v);
        assert Ids(Put(rs, id, v)) == [rs[0].id] + Ids(Put(tail, id, v));
        assert id in Ids(rs) <==> id in Ids(tail);
        if id !in Ids(tail) {
          assert [rs[0].id] + (Ids(tail) + [id]) == ([rs[0].id] + Ids(tail)) + [id];
        }
      } else {
        assert Ids(Put(rs, id, v)) == [id] + Ids(tail);
      }
    }
  }

  lemma {:induction false} PutValues(rs: seq<Reading>, id: string, v: real)
    requires DistinctBy(rs, Id)
    ensures DistinctBy(Put(rs, id, v), Id)
    ensures Lookup(Put(rs, id, v), id) == v
    ensures forall x :: x != id ==> Lookup(Put(rs, id, v), x) == Lookup(rs, x)
  {
    var r := Put(rs, id, v);
    if rs == [] {
    } else if rs[0].id == id {
      forall a, b | 0 <= a < b < |r| ensures Id(r[a]) != Id(r[b]) {
        assert Id(rs[a]) != Id(rs[b]);
      }
      forall x | x != id ensures Lookup(r, x) == Lookup(rs, x) {
        assert r[1..] == rs[1..];
      }
    } else {
      var tail := rs[1..];
      TailDistinct(rs);
      PutValues(tail, id, v);
      PutIds(tail, id, v);
      var pt := Put(tail, id, v);
      assert r == [rs[0]] + pt && r[1..] == pt;
      forall k | 0 <= k < |pt| ensures Id(pt[k]) != Id(rs[0]) {
        assert Ids(pt)[k] == pt[k].id;
        if pt[k].id != id {
          assert pt[k].id in Ids(tail);
          var m :| 0 <= m < |tail| && Ids(tail)[m] == pt[k].id;
          assert Id(rs[0]) != Id(rs[m + 1]);
        }
      }
      forall a, b | 0 <= a < b < |r| ensures Id(r[a]) != Id(r[b]) {
        if a == 0 {
          assert r[b] == pt[b - 1];
        } else {
          assert r[a] == pt[a - 1] && r[b] == pt[b - 1];
        }
      }
    }
  }

  // ---------------------------------------------------------------------
  // Exponential smoothing (`exponentialSmoothing`)
  // ---------------------------------------------------------------------

  /** The map key of a sighting, `uuid:major:minor`. */
  function BeaconId(b: BeaconData): string {
    BeaconKey(b.uuid, b.major, b.minor)
  }

  /** `0.5 * rssi + 0.5 * (smoothedRssi[id] ?: rssi)`. */
  function SmoothedValue(previous: map<string, real>, b: BeaconData): real {
    var current := b.rssi as real;
    SMOOTHING_FACTOR * current +
      (1.0 - SMOOTHING_FACTOR) * (if BeaconId(b) in previous then previous[BeaconId(b)] else current)
  }

  /** The smoothing map after a call, and the map the call returns. */
  datatype Smoothing = Smoothing(state: map<string, real>, readings: seq<Reading>)

  /** `beacons.associate { ... }` over the persistent smoothing map, one sighting at a time. */
  function Smooth(state: map<string, real>, bs: seq<BeaconData>): Smoothing {
    if bs == [] then Smoothing(state, [])
    else
      var prior := Smooth(state, bs[..|bs| - 1]);
      var b := bs[|bs| - 1];
      var v := SmoothedValue(prior.state, b);
      Smoothing(prior.state[BeaconId(b) := v], Put(prior.readings, BeaconId(b), v))
  }

  /** The smoothed value is a blend: it lies between the raw reading and the previous value. */
  lemma SmoothedValueBetween(previous: map<string, real>, b: BeaconData)
    ensures var v, r := SmoothedValue(previous, b), b.rssi as real;
      if BeaconId(b) in previous then
        var p := previous[BeaconId(b)];
        (r <= p ==> r <= v <= p) && (p <= r ==> p <= v <= r) && (v == r <==> p == r)
      else v == r
  {
  }

  lemma {:induction false} SmoothStateAppend(state: map<string, real>, a: seq<BeaconData>, b: seq<BeaconData>)
    ensures Smooth(state, a + b).state == Smooth(Smooth(state, a).state, b).state
  {
    if b == [] {
      assert a + b == a;
    } else {
      var n := |b| - 1;
      SmoothStateAppend(state, a, b[..n]);
      assert (a + b)[..|a + b| - 1] == a + b[..n];
      assert (a + b)[|a + b| - 1] == b[n];
    }
  }

  /** Ids the call does not mention keep their entry (or their absence). */
  lemma {:induction false} SmoothUntouched(state: map<string, real>, bs: seq<BeaconData>, id: string)
    requires forall i :: 0 <= i < |bs| ==> BeaconId(bs[i]) != id
    ensures id in Smooth(state, bs).state <==> id in state
    ensures id in state ==> Smooth(state, bs).state[id] == state[id]
  {
    if bs != [] {
      SmoothUntouched(state, bs[..|bs| - 1], id);
    }
  }

  /**
    * The entry of a sighted id after the call: the value computed at its
    * last sighting — the raw RSSI when the id had no entry before that
    * sighting, otherwise 0.5·rssi + 0.5·previous; in particular the raw
    * RSSI when the id is new to the map and seen once.
    */
  lemma {:induction false} SmoothSighted(state: map<string, real>, bs: seq<BeaconData>, i: int)
    requires 0 <= i < |bs|
    requires forall j :: i < j < |bs| ==> BeaconId(bs[j]) != BeaconId(bs[i])
    ensures var id, r, before := BeaconId(bs[i]), bs[i].rssi as real, Smooth(state, bs[..i]).state;
      && id in Smooth(state, bs).state
      && Smooth(state, bs).state[id] == (if id in before then 0.5 * r + 0.5 * before[id] else r)
    ensures var id := BeaconId(bs[i]);
      (id !in state && forall j :: 0 <= j < i ==> BeaconId(bs[j]) != id) ==>
        Smooth(state, bs).state[id] == bs[i].rssi as real
  {
    var id := BeaconId(bs[i]);
    var head, rest := bs[..i + 1], bs[i + 1..];
    assert bs == head + rest;
    assert head[..i] == bs[..i] && head[i] == bs[i];
    var after := Smooth(state, head).state;
    assert after == Smooth(state, bs[..i]).state[id := SmoothedValue(Smooth(state, bs[..i]).state, bs[i])];
    SmoothStateAppend(state, head, rest);
    forall j | 0 <= j < |rest| ensures BeaconId(rest[j]) != id {
      assert rest[j] == bs[i + 1 + j];
    }
    SmoothUntouched(after, rest, id);
    if id !in state && forall j :: 0 <= j < i ==> BeaconId(bs[j]) != id {
      SmoothUntouched(state, bs[..i], id);
    }
  }

  lemma {:induction false} SmoothDistinct(state: map<string, real>, bs: seq<BeaconData>)
    ensures DistinctBy(Smooth(state, bs).readings, Id)
  {
    if bs != [] {
      var n := |bs| - 1;
      var prior := Smooth(state, bs[..n]);
      SmoothDistinct(state, bs[..n]);
      PutValues(prior.readings, BeaconId(bs[n]), SmoothedValue(prior.state, bs[n]));
    }
  }

  lemma {:induction false} SmoothIds(state: map<string, real>, bs: seq<BeaconData>)
    ensures forall x :: x in Ids(Smooth(state, bs).readings) <==>
      exists i :: 0 <= i < |bs| && BeaconId(bs[i]) == x
  {
    if bs != [] {
      var n := |bs| - 1;
      var prior := Smooth(state, bs[..n]);
      var b := bs[n];
      var s := Smooth(state, bs);
      SmoothIds(state, bs[..n]);
      PutIds(prior.readings, BeaconId(b), SmoothedValue(prior.state, b));
      forall x ensures x in Ids(s.readings) <==> exists i :: 0 <= i < |bs| && BeaconId(bs[i]) == x {
        SightedStep(bs, n, x);
      }
    }
  }

  /** A sighting among the first n + 1 is one among the first n or the last one. */
  lemma SightedStep(bs: seq<BeaconData>, n: int, x: string)
    requires 0 <= n < |bs| == n + 1
    ensures (exists i :: 0 <= i < |bs| && BeaconId(bs[i]) == x) <==>
      (exists i :: 0 <= i < n && BeaconId(bs[..n][i]) == x) || BeaconId(bs[n]) == x
  {
    if exists i :: 0 <= i < |bs| && BeaconId(bs[i]) == x {
      var i :| 0 <= i < |bs| && BeaconId(bs[i]) == x;
      if i < n {
        assert bs[..n][i] == bs[i];
      }
    }
    if exists i :: 0 <= i < n && BeaconId(bs[..n][i]) == x {
      var i :| 0 <= i < n && BeaconId(bs[..n][i]) == x;
      assert bs[..n][i] == bs[i];
    }
  }

  lemma {:induction false} SmoothKeys(state: map<string, real>, bs: seq<BeaconData>)
    ensures var s := Smooth(state, bs);
      forall x :: x in s.state <==> x in state || x in Ids(s.readings)
  {
    if bs != [] {
      var n := |bs| - 1;
      var prior := Smooth(state, bs[..n]);
      var b := bs[n];
      SmoothKeys(state, bs[..n]);
      PutIds(prior.readings, BeaconId(b), SmoothedValue(prior.state, b));
    }
  }

  /** Every entry of `rs` agrees with `st`. */
  predicate AgreesWith(rs: seq<Reading>, st: map<string, real>) {
    forall k :: 0 <= k < |rs| ==> rs[k].id in st && rs[k].rssi == st[rs[k].id]
  }

  /** Writing the same key and value into both keeps an entry sequence in agreement with a map. */
  lemma PutAgrees(rs: seq<Reading>, st: map<string, real>, id: string, v: real)
    requires DistinctBy(rs, Id) && AgreesWith(rs, st)
    ensures AgreesWith(Put(rs, id, v), st[id := v])
  {
    var r := Put(rs, id, v);
    PutIds(rs, id, v);
    PutValues(rs, id, v);
    forall k | 0 <= k < |r| ensures r[k].id in st[id := v] && r[k].rssi == st[id := v][r[k].id] {
      var x := r[k].id;
      assert Ids(r)[k] == x;
      LookupAt(r, k);
      if x != id {
        assert x in Ids(rs);
        var m :| 0 <= m < |rs| && Ids(rs)[m] == x;
        LookupAt(rs, m);
      }
    }
  }

  lemma {:induction false} SmoothValues(state: map<string, real>, bs: seq<BeaconData>)
    ensures AgreesWith(Smooth(state, bs).readings, Smooth(state, bs).state)
  {
    if bs != [] {
      var n := |bs| - 1;
      var prior := Smooth(state, bs[..n]);
      SmoothValues(state, bs[..n]);
      SmoothDistinct(state, bs[..n]);
      PutAgrees(prior.readings, prior.state, BeaconId(bs[n]), SmoothedValue(prior.state, bs[n]));
    }
  }

  /**
    * The returned map: distinct keys, exactly the ids of the call, each with
    * the value now stored in the smoothing map, which gained exactly those ids.
    */
  lemma SmoothReadings(state: map<string, real>, bs: seq<BeaconData>)
    ensures var s := Smooth(state, bs);
      && DistinctBy(s.readings, Id)
      && (forall x :: x in Ids(s.readings) <==> exists i :: 0 <= i < |bs| && BeaconId(bs[i]) == x)
      && (forall k :: 0 <= k < |s.readings| ==>
            s.readings[k].id in s.state && s.readings[k].rssi == s.state[s.readings[k].id])
      && (forall x :: x in s.state <==> x in state || x in Ids(s.readings))
  {
    SmoothDistinct(state, bs);
    SmoothIds(state, bs);
    SmoothKeys(state, bs);
    SmoothValues(state, bs);
  }

  // ---------------------------------------------------------------------
  // Ranking (`rankBeacons`) and fingerprint creation
  // ---------------------------------------------------------------------

  /** Ids by descending smoothed value, the first four. */
  function RankBeacons(readings: seq<Reading>): seq<string> {
    var sorted := SortBy(readings, NegRssi);
    Ids(sorted[..if |sorted| < TOP_K_BEACONS then |sorted| else TOP_K_BEACONS])
  }

  lemma SortedLookup(readings: seq<Reading>, sorted: seq<Reading>)
    requires DistinctBy(readings, Id)
    requires multiset(sorted) == multiset(readings)
    ensures forall m :: 0 <= m < |sorted| ==> Lookup(readings, sorted[m].id) == sorted[m].rssi
  {
    forall m | 0 <= m < |sorted| ensures Lookup(readings, sorted[m].id) == sorted[m].rssi {
      assert sorted[m] in multiset(sorted);
      var p :| 0 <= p < |readings| && readings[p] == sorted[m];
      LookupAt(readings, p);
    }
  }

  lemma RankBeaconsIds(readings: seq<Reading>)
    requires DistinctBy(readings, Id)
    ensures var r := RankBeacons(readings);
      && |r| == (if |readings| < TOP_K_BEACONS then |readings| else TOP_K_BEACONS)
      && Distinct(r)
      && (forall id :: id in r ==> id in Ids(readings))
  {
    var sorted := SortBy(readings, NegRssi);
    var K := if |sorted| < TOP_K_BEACONS then |sorted| else TOP_K_BEACONS;
    var r := RankBeacons(readings);
    SortByDistinctBy(readings, NegRssi, Id);
    assert forall i :: 0 <= i < K ==> r[i] == sorted[i].id;
    forall i, j | 0 <= i < j < |r| ensures r[i] != r[j] {
      assert Id(sorted[i]) != Id(sorted[j]);
    }
    forall id | id in r ensures id in Ids(readings) {
      var i :| 0 <= i < K && r[i] == id;
      assert sorted[i] in multiset(readings);
      var p :| 0 <= p < |readings| && readings[p] == sorted[i];
      assert Ids(readings)[p] == id;
    }
  }

  lemma RankBeaconsOrder(readings: seq<Reading>)
    requires DistinctBy(readings, Id)
    ensures var r := RankBeacons(readings);
      && (forall i, j :: 0 <= i < j < |r| ==> Lookup(readings, r[i]) >= Lookup(readings, r[j]))
      && (forall k :: 0 <= k < |readings| && readings[k].id !in r ==>
            forall id :: id in r ==> readings[k].rssi <= Lookup(readings, id))
  {
    var sorted := SortBy(readings, NegRssi);
    var K := if |sorted| < TOP_K_BEACONS then |sorted| else TOP_K_BEACONS;
    var r := RankBeacons(readings);
    SortedLookup(readings, sorted);
    assert forall i :: 0 <= i < K ==> r[i] == sorted[i].id;
    forall i, j | 0 <= i < j < |r| ensures Lookup(readings, r[i]) >= Lookup(readings, r[j]) {
      assert NegRssi(sorted[i]) <= NegRssi(sorted[j]);
    }
    forall k, id | 0 <= k < |readings| && readings[k].id !in r && id in r
      ensures readings[k].rssi <= Lookup(readings, id)
    {
      assert readings[k] in multiset(sorted);
      var m :| 0 <= m < |sorted| && sorted[m] == readings[k];
      assert m >= K;
      var i :| 0 <= i < K && r[i] == id;
      assert NegRssi(sorted[i]) <= NegRssi(sorted[m]);
    }
  }

  /**
    * `rankBeacons` keeps min(4, n) distinct ids of the map, in non-increasing
    * order of value, and no id left out has a larger value than one kept.
    */
  lemma RankBeaconsTopK(readings: seq<Reading>)
    requires DistinctBy(readings, Id)
    ensures var r := RankBeacons(readings);
      && |r| == (if |readings| < TOP_K_BEACONS then |readings| else TOP_K_BEACONS)
      && Distinct(r)
      && (forall id :: id in r ==> id in Ids(readings))
      && (forall i, j :: 0 <= i < j < |r| ==> Lookup(readings, r[i]) >= Lookup(readings, r[j]))
      && (forall k :: 0 <= k < |readings| && readings[k].id !in r ==>
            forall id :: id in r ==> readings[k].rssi <= Lookup(readings, id))
  {
    RankBeaconsIds(readings);
    RankBeaconsOrder(readings);
  }

  /** `createFingerprint` once the readings are smoothed; `now` is the clock reading. */
  function MakeFingerprint(position: Position, readings: seq<Reading>, now: int): Fingerprint {
    Fingerprint(position, readings, RankBeacons(readings), Mean(Values(readings)), now)
  }

  // ---------------------------------------------------------------------
  // Similarity scores
  // ---------------------------------------------------------------------

  /** `rssi1.keys.intersect(rssi2.keys)`, in the order of `rssi1`. */
  function Common(rs1: seq<Reading>, rs2: seq<Reading>): seq<string> {
    if rs1 == [] then []
    else
      var rest := Common(rs1[..|rs1| - 1], rs2);
      if rs1[|rs1| - 1].id in Ids(rs2) then rest + [rs1[|rs1| - 1].id] else rest
  }

  lemma {:induction false} CommonElements(rs1: seq<Reading>, rs2: seq<Reading>)
    ensures forall x :: x in Common(rs1, rs2) <==> x in Ids(rs1) && x in Ids(rs2)
    ensures DistinctBy(rs1, Id) ==> Distinct(Common(rs1, rs2))
  {
    if rs1 != [] {
      var n := |rs1| - 1;
      var init := rs1[..n];
      CommonElements(init, rs2);
      assert Ids(rs1) == Ids(init) + [rs1[n].id];
      if DistinctBy(rs1, Id) {
        assert DistinctBy(init, Id) by {
          forall a, b | 0 <= a < b < n ensures Id(init[a]) != Id(init[b]) {
            assert init[a] == rs1[a] && init[b] == rs1[b];
          }
        }
        assert rs1[n].id !in Ids(init) by {
          forall m | 0 <= m < n ensures Ids(init)[m] != rs1[n].id {
            assert Id(rs1[m]) != Id(rs1[n]);
          }
        }
      }
    }
  }

  /** `abs(a - b)` squared, for the values stored under `id`. */
  function SquaredGap(rs1: seq<Reading>, rs2: seq<Reading>, id: string): real {
    Square(Lookup(rs1, id) - Lookup(rs2, id))
  }

  function SquaredGaps(rs1: seq<Reading>, rs2: seq<Reading>): string -> real {
    id => SquaredGap(rs1, rs2, id)
  }

  lemma SquareNonNegative(x: real)
    ensures 0.0 <= Square(x)
    ensures Square(x) == 0.0 <==> x == 0.0
  {
    if x != 0.0 {
      calc {
        Square(x);
        x * x;
        > 0.0;
      }
    }
  }

  lemma {:induction false} GapsNonNegative(rs1: seq<Reading>, rs2: seq<Reading>, ids: seq<string>)
    ensures forall k :: 0 <= k < |ids| ==> 0.0 <= SquaredGaps(rs1, rs2)(ids[k])
    ensures SumOf(ids, SquaredGaps(rs1, rs2)) >= 0.0
    ensures SumOf(ids, SquaredGaps(rs1, rs2)) == 0.0 <==>
      forall k :: 0 <= k < |ids| ==> Lookup(rs1, ids[k]) == Lookup(rs2, ids[k])
  {
    forall k | 0 <= k < |ids| ensures 0.0 <= SquaredGaps(rs1, rs2)(ids[k]) {
      SquareNonNegative(Lookup(rs1, ids[k]) - Lookup(rs2, ids[k]));
    }
    SumOfNonNegative(ids, SquaredGaps(rs1, rs2));
    forall k | 0 <= k < |ids|
      ensures SquaredGaps(rs1, rs2)(ids[k]) == 0.0 <==> Lookup(rs1, ids[k]) == Lookup(rs2, ids[k])
    {
      SquareNonNegative(Lookup(rs1, ids[k]) - Lookup(rs2, ids[k]));
    }
  }

  /** `1 / (1 + sqrt(mean squared difference))` over the common ids; 0 when none is common. */
  function RssiSimilarity(rs1: seq<Reading>, rs2: seq<Reading>, sqrt: real -> real): real
    requires IsSquareRoot(sqrt)
  {
    var common := Common(rs1, rs2);
    if |common| == 0 then 0.0
    else
      GapsNonNegative(rs1, rs2, common);
      var differences := SumOf(common, SquaredGaps(rs1, rs2));
      DivideNonNegative(differences, |common| as real);
      1.0 / (1.0 + sqrt(differences / |common| as real))
  }

  lemma DivideNonNegative(a: real, n: real)
    requires 0.0 <= a && 0.0 < n
    ensures 0.0 <= a / n
    ensures a / n == 0.0 <==> a == 0.0
  {
    assert (a / n) * n == a;
  }

  lemma ReciprocalOfOnePlus(s: real)
    requires 0.0 <= s
    ensures 0.0 < 1.0 / (1.0 + s) <= 1.0
    ensures 1.0 / (1.0 + s) == 1.0 <==> s == 0.0
  {
    var q := 1.0 / (1.0 + s);
    assert q * (1.0 + s) == 1.0;
    assert q == 1.0 - q * s;
    if s > 0.0 {
      MulPositive(q, s);
    }
  }

  lemma SquareRootZero(sqrt: real -> real, x: real)
    requires IsSquareRoot(sqrt) && 0.0 <= x
    ensures sqrt(x) == 0.0 <==> x == 0.0
  {
    SquareNonNegative(sqrt(x));
  }

  /**
    * No common id gives 0; otherwise the score lies in (0, 1] and is 1
    * exactly when every common id carries the same value in both maps.
    */
  lemma RssiSimilarityRange(rs1: seq<Reading>, rs2: seq<Reading>, sqrt: real -> real)
    requires IsSquareRoot(sqrt)
    ensures var r, common := RssiSimilarity(rs1, rs2, sqrt), Common(rs1, rs2);
      && (|common| == 0 ==> r == 0.0)
      && (|common| > 0 ==> 0.0 < r <= 1.0)
      && (|common| > 0 ==> (r == 1.0 <==> forall id :: id in common ==> Lookup(rs1, id) == Lookup(rs2, id)))
  {
    var common := Common(rs1, rs2);
    if |common| > 0 {
      GapsNonNegative(rs1, rs2, common);
      var differences := SumOf(common, SquaredGaps(rs1, rs2));
      var m := differences / |common| as real;
      DivideNonNegative(differences, |common| as real);
      SquareRootZero(sqrt, m);
      ReciprocalOfOnePlus(sqrt(m));
    }
  }

  /** The score does not depend on which map comes first. */
  lemma RssiSimilaritySymmetric(rs1: seq<Reading>, rs2: seq<Reading>, sqrt: real -> real)
    requires IsSquareRoot(sqrt)
    requires DistinctBy(rs1, Id) && DistinctBy(rs2, Id)
    ensures RssiSimilarity(rs1, rs2, sqrt) == RssiSimilarity(rs2, rs1, sqrt)
  {
    var c12, c21 := Common(rs1, rs2), Common(rs2, rs1);
    CommonElements(rs1, rs2);
    CommonElements(rs2, rs1);
    DistinctSameElements(c12, c21);
    assert |c12| == |multiset(c12)| == |multiset(c21)| == |c21|;
    SumOfPermutation(c12, c21, SquaredGaps(rs1, rs2));
    forall k | 0 <= k < |c21| ensures SquaredGaps(rs1, rs2)(c21[k]) == SquaredGaps(rs2, rs1)(c21[k]) {
      var a, b := Lookup(rs1, c21[k]), Lookup(rs2, c21[k]);
      assert Square(a - b) == Square(b - a);
    }
    SumOfPointwise(c21, SquaredGaps(rs1, rs2), SquaredGaps(rs2, rs1));
  }

  /** `|beacons1 ∩ beacons2| / 4`. */
  function BeaconMatchScore(b1: seq<string>, b2: seq<string>): real {
    |Elements(b1) * Elements(b2)| as real / TOP_K_BEACONS as real
  }

  /**
    * The match score is the shared fraction of a top-4 list: 0 exactly when
    * the lists share no id, at most 1 when the first list has at most four
    * ids, and the same either way round.
    */
  lemma BeaconMatchScoreRange(b1: seq<string>, b2: seq<string>)
    ensures var r := BeaconMatchScore(b1, b2);
      && 0.0 <= r
      && (|b1| <= TOP_K_BEACONS ==> r <= 1.0)
      && (r == 0.0 <==> forall id :: id in b1 ==> id !in b2)
      && r == BeaconMatchScore(b2, b1)
  {
    var both := Elements(b1) * Elements(b2);
    ElementsSize(b1);
    assert |both| <= |Elements(b1)| by {
      var rest := Elements(b1) - both;
      assert Elements(b1) == rest + both;
      assert rest * both == {};
    }
    assert Elements(b2) * Elements(b1) == both;
    if |both| == 0 {
      forall id | id in b1 ensures id !in b2 {
        assert id !in both && id in Elements(b1);
      }
    } else {
      var id :| id in both;
      assert id in b1 && id in b2;
    }
  }

  /** Euclidean distance in degrees between two positions. */
  function Distance(p: Position, q: Position, sqrt: real -> real): real {
    sqrt(Square(p.latitude - q.latitude) + Square(p.longitude - q.longitude))
  }

  /** A distance is non-negative, symmetric, squares back and is 0 exactly between equal coordinates. */
  lemma DistanceProperties(p: Position, q: Position, sqrt: real -> real)
    requires IsSquareRoot(sqrt)
    ensures var d := Distance(p, q, sqrt);
      && 0.0 <= d
      && d == Distance(q, p, sqrt)
      && Square(d) == Square(p.latitude - q.latitude) + Square(p.longitude - q.longitude)
      && (d == 0.0 <==> p.latitude == q.latitude && p.longitude == q.longitude)
  {
    var a, b := p.latitude - q.latitude, p.longitude - q.longitude;
    SquareNonNegative(a);
    SquareNonNegative(b);
    assert Square(a) == Square(q.latitude - p.latitude);
    assert Square(b) == Square(q.longitude - p.longitude);
    SquareRootZero(sqrt, Square(a) + Square(b));
  }

  // ---------------------------------------------------------------------
  // Refinement weights and accuracy
  // ---------------------------------------------------------------------

  /** `rssiSimilarity * beaconMatchScore` of a stored fingerprint against the current one. */
  function FingerprintWeight(fp: Fingerprint, current: Fingerprint, sqrt: real -> real): real
    requires IsSquareRoot(sqrt)
  {
    RssiSimilarity(fp.rssiValues, current.rssiValues, sqrt) *
      BeaconMatchScore(fp.rankedBeacons, current.rankedBeacons)
  }

  function RefinementWeights(cluster: seq<Fingerprint>, current: Fingerprint, sqrt: real -> real): seq<real>
    requires IsSquareRoot(sqrt)
  {
    seq(|cluster|, i requires 0 <= i < |cluster| => FingerprintWeight(cluster[i], current, sqrt))
  }

  /** Every refinement weight is non-negative, so a total weight ≤ 0 means all weights are 0. */
  lemma RefinementWeightsNonNegative(cluster: seq<Fingerprint>, current: Fingerprint, sqrt: real -> real)
    requires IsSquareRoot(sqrt)
    ensures forall i :: 0 <= i < |cluster| ==> 0.0 <= RefinementWeights(cluster, current, sqrt)[i]
    ensures 0.0 <= Sum(RefinementWeights(cluster, current, sqrt))
  {
    var ws := RefinementWeights(cluster, current, sqrt);
    forall i | 0 <= i < |cluster| ensures 0.0 <= ws[i] {
      FingerprintWeightNonNegative(cluster[i], current, sqrt);
    }
    SumNonNegative(ws);
  }

  lemma FingerprintWeightNonNegative(fp: Fingerprint, current: Fingerprint, sqrt: real -> real)
    requires IsSquareRoot(sqrt)
    ensures 0.0 <= FingerprintWeight(fp, current, sqrt)
  {
    RssiSimilarityRange(fp.rssiValues, current.rssiValues, sqrt);
    BeaconMatchScoreRange(fp.rankedBeacons, current.rankedBeacons);
    MulNonNegative(RssiSimilarity(fp.rssiValues, current.rssiValues, sqrt),
                   BeaconMatchScore(fp.rankedBeacons, current.rankedBeacons));
  }

  lemma MulNonNegative(a: real, b: real)
    requires 0.0 <= a && 0.0 <= b
    ensures 0.0 <= a * b
  {
    if a > 0.0 && b > 0.0 {
      MulPositive(a, b);
    }
  }

  /** The latitudes of a cluster's fingerprints, in order. */
  function ClusterLatitudes(fps: seq<Fingerprint>): seq<real> {
    seq(|fps|, i requires 0 <= i < |fps| => fps[i].position.latitude)
  }

  /** The longitudes of a cluster's fingerprints, in order. */
  function ClusterLongitudes(fps: seq<Fingerprint>): seq<real> {
    seq(|fps|, i requires 0 <= i < |fps| => fps[i].position.longitude)
  }

  function Accuracies(fps: seq<Fingerprint>): seq<real> {
    seq(|fps|, i requires 0 <= i < |fps| => fps[i].position.accuracy)
  }

  /** The positive raw distances of the sightings, in order. */
  function PositiveDistances(beacons: seq<BeaconData>): seq<real> {
    if beacons == [] then []
    else
      var rest := PositiveDistances(beacons[..|beacons| - 1]);
      var d := beacons[|beacons| - 1].distance;
      if d > 0.0 then rest + [d] else rest
  }

  /**
    * The indoor `calculateAccuracy`: the mean of the clamped mean positive
    * distance and the mean accuracy of the cluster (or the former again when
    * the cluster is empty).
    */
  function IndoorAccuracy(beacons: seq<BeaconData>, cluster: seq<Fingerprint>): real {
    var basicAccuracy := Clamp(Mean(PositiveDistances(beacons)), MIN_VALID_DISTANCE, MAX_VALID_DISTANCE);
    var fingerprintAccuracy := if |cluster| > 0 then Mean(Accuracies(cluster)) else basicAccuracy;
    (basicAccuracy + fingerprintAccuracy) / 2.0
  }

  /** Cluster accuracies within the distance band keep the refined accuracy within it. */
  lemma IndoorAccuracyWithin(beacons: seq<BeaconData>, cluster: seq<Fingerprint>)
    requires forall i :: 0 <= i < |cluster| ==> MIN_VALID_DISTANCE <= cluster[i].position.accuracy <= MAX_VALID_DISTANCE
    ensures MIN_VALID_DISTANCE <= IndoorAccuracy(beacons, cluster) <= MAX_VALID_DISTANCE
  {
    if |cluster| > 0 {
      MeanWithin(Accuracies(cluster), MIN_VALID_DISTANCE, MAX_VALID_DISTANCE);
    }
  }

  // ---------------------------------------------------------------------
  // Capacity trimming (`maintainFingerprintDatabase`)
  // ---------------------------------------------------------------------

  function Timestamp(f: Fingerprint): real { f.timestamp as real }

  /** The list after `maintainFingerprintDatabase(maxSize)`. */
  function Trimmed(fps: seq<Fingerprint>, maxSize: nat): seq<Fingerprint> {
    if |fps| <= maxSize then fps else SortBy(fps, Timestamp)[|fps| - maxSize..]
  }

  /**
    * Within capacity the list is untouched; beyond it exactly `maxSize`
    * fingerprints remain, sorted by timestamp, taken from the list, and
    * none of those dropped is newer than any kept.
    */
  lemma TrimmedKeepsNewest(fps: seq<Fingerprint>, maxSize: nat)
    ensures var r := Trimmed(fps, maxSize);
      && (|fps| <= maxSize ==> r == fps)
      && (|fps| > maxSize ==>
            && |r| == maxSize
            && SortedBy(r, Timestamp)
            && multiset(r) <= multiset(fps)
            && forall f, k :: f in multiset(fps) - multiset(r) && 0 <= k < |r| ==> f.timestamp <= r[k].timestamp)
  {
    if |fps| > maxSize {
      var sorted := SortBy(fps, Timestamp);
      var c := |fps| - maxSize;
      assert Trimmed(fps, maxSize) == sorted[c..];
      assert multiset(sorted) == multiset(fps);
      SuffixKeepsNewest(sorted, c);
    }
  }

  /** Dropping a prefix of a list sorted by timestamp keeps a sorted sub-multiset none of whose dropped elements is newer. */
  lemma SuffixKeepsNewest(sorted: seq<Fingerprint>, c: int)
    requires SortedBy(sorted, Timestamp) && 0 <= c <= |sorted|
    ensures var r := sorted[c..];
      && SortedBy(r, Timestamp)
      && multiset(r) <= multiset(sorted)
      && forall f, k :: f in multiset(sorted) - multiset(r) && 0 <= k < |r| ==> f.timestamp <= r[k].timestamp
  {
    var r := sorted[c..];
    assert sorted == sorted[..c] + r;
    assert multiset(sorted) == multiset(sorted[..c]) + multiset(r);
    forall f, k | f in multiset(sorted) - multiset(r) && 0 <= k < |r| ensures f.timestamp <= r[k].timestamp {
      assert f in multiset(sorted[..c]);
      DroppedNotNewer(sorted, c, f, k);
    }
  }

  lemma DroppedNotNewer(sorted: seq<Fingerprint>, c: int, f: Fingerprint, k: int)
    requires SortedBy(sorted, Timestamp) && 0 <= c && 0 <= k < |sorted| - c
    requires f in multiset(sorted[..c])
    ensures f.timestamp <= sorted[c..][k].timestamp
  {
    var i :| 0 <= i < c && sorted[..c][i] == f;
    assert Timestamp(sorted[i]) <= Timestamp(sorted[c + k]);
  }
}
