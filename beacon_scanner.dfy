/**
  * The observation cache of `BeaconScanner`: ranged beacons are joined
  * against the registry of known beacons, upserted into a cache keyed by
  * `uuid:major:minor`, swept for entries older than ten seconds, and the
  * surviving entries are published. The platform ranging service, the
  * coroutine scope and the HTTP fetch of the registry are not modelled:
  * the ranged beacons, the clock readings and the outcome of the fetch
  * are parameters.
  */
module BeaconScanning {
  import opened Support

  /** An observation of a registered beacon, as the cache stores it. */
  datatype BeaconData = BeaconData(
    uuid: string,
    major: string,
    minor: string,
    rssi: int,
    distance: real,
    latitude: real,
    longitude: real,
    timestamp: int)

  /** A registry entry fetched from the beacon service. */
  datatype VirtualBeacon = VirtualBeacon(
    uuid: string,
    major: string,
    minor: string,
    latitude: real,
    longitude: real,
    isActive: bool,
    timestamp: string)

  /** A beacon as the ranging callback reports it, identifiers already rendered as text. */
  datatype RangedBeacon = RangedBeacon(id1: string, id2: string, id3: string, rssi: int, distance: real)

  /** Milliseconds after which a cached observation is dropped. */
  const BEACON_EXPIRATION_TIME: int := 10000

  function BeaconKey(uuid: string, major: string, minor: string): string {
    uuid + ":" + major + ":" + minor
  }

  function RegistryKey(v: VirtualBeacon): string {
    BeaconKey(v.uuid, v.major, v.minor)
  }

  function SightingKey(b: RangedBeacon): string {
    BeaconKey(b.id1, b.id2, b.id3)
  }

  ghost predicate ColonFree(s: string) {
    ':' !in s
  }

  /** In `a + ":" + b` with a colon-free `a`, the first colon sits at index |a|. */
  lemma FirstColon(a: string, b: string)
    requires ColonFree(a)
    ensures (a + ":" + b)[|a|] == ':'
    ensures forall i :: 0 <= i < |a| ==> (a + ":" + b)[i] != ':'
  {
    forall i | 0 <= i < |a| ensures (a + ":" + b)[i] != ':' {
      assert (a + ":" + b)[i] == a[i];
    }
  }

  lemma {:induction false} SplitAtFirstColon(a: string, b: string, x: string, y: string)
    requires ColonFree(a) && ColonFree(x)
    requires a + ":" + b == x + ":" + y
    ensures a == x && b == y
  {
    var s := a + ":" + b;
    FirstColon(a, b);
    FirstColon(x, y);
    assert |a| == |x|;
    assert a == s[..|a|] == x;
    assert b == s[|a| + 1..] == y;
  }

  /**
    * The key determines the identifiers when none of them contains a
    * colon (true of the UUIDs and decimal numbers the ranging library
    * renders); with colons inside, distinct identifiers can share a key.
    */
  lemma {:induction false} BeaconKeyInjective(u1: string, M1: string, m1: string, u2: string, M2: string, m2: string)
    requires ColonFree(u1) && ColonFree(M1) && ColonFree(u2) && ColonFree(M2)
    ensures BeaconKey(u1, M1, m1) == BeaconKey(u2, M2, m2) <==> (u1, M1, m1) == (u2, M2, m2)
  {
    if BeaconKey(u1, M1, m1) == BeaconKey(u2, M2, m2) {
      assert BeaconKey(u1, M1, m1) == u1 + ":" + (M1 + ":" + m1);
      assert BeaconKey(u2, M2, m2) == u2 + ":" + (M2 + ":" + m2);
      SplitAtFirstColon(u1, M1 + ":" + m1, u2, M2 + ":" + m2);
      SplitAtFirstColon(M1, m1, M2, m2);
    }
  }

  lemma KeysCanCollide()
    ensures BeaconKey("a:b", "c", "d") == BeaconKey("a", "b:c", "d")
  {
  }

  // ---------------------------------------------------------------------
  // The registry
  // ---------------------------------------------------------------------

  /** The registry a successful fetch installs: keyed entries, later duplicates winning. */
  function Registry(bs: seq<VirtualBeacon>): map<string, VirtualBeacon> {
    if bs == [] then map[]
    else Registry(bs[..|bs| - 1])[RegistryKey(bs[|bs| - 1]) := bs[|bs| - 1]]
  }

  /** A key is registered exactly when some fetched beacon carries it. */
  lemma {:induction false} RegistryKeys(bs: seq<VirtualBeacon>, k: string)
    ensures k in Registry(bs) <==> exists i :: 0 <= i < |bs| && RegistryKey(bs[i]) == k
  {
    if bs != [] {
      var n := |bs| - 1;
      RegistryKeys(bs[..n], k);
      if k in Registry(bs[..n]) {
        var i :| 0 <= i < n && RegistryKey(bs[..n][i]) == k;
        assert RegistryKey(bs[i]) == k;
      }
      if exists i :: 0 <= i < |bs| && RegistryKey(bs[i]) == k {
        var i :| 0 <= i < |bs| && RegistryKey(bs[i]) == k;
        if i < n {
          assert RegistryKey(bs[..n][i]) == k;
        }
      }
    }
  }

  /** A registered key maps to the last fetched beacon that carries it. */
  lemma {:induction false} RegistryLastWins(bs: seq<VirtualBeacon>, i: nat)
    requires i < |bs|
    requires forall j :: i < j < |bs| ==> RegistryKey(bs[j]) != RegistryKey(bs[i])
    ensures RegistryKey(bs[i]) in Registry(bs)
    ensures Registry(bs)[RegistryKey(bs[i])] == bs[i]
  {
    var n := |bs| - 1;
    if i < n {
      RegistryLastWins(bs[..n], i);
    }
  }

  // ---------------------------------------------------------------------
  // The cache as values
  // ---------------------------------------------------------------------

  /** The observation stored for a registered sighting at clock reading `t`. */
  function Observation(b: RangedBeacon, v: VirtualBeacon, t: int): BeaconData {
    BeaconData(b.id1, b.id2, b.id3, b.rssi, b.distance, v.latitude, v.longitude, t)
  }

  /** The cache after upserting every registered sighting of a batch, in order. */
  function Upsert(cache: map<string, BeaconData>, known: map<string, VirtualBeacon>, bs: seq<RangedBeacon>, t: int): map<string, BeaconData> {
    if bs == [] then cache
    else
      var c := Upsert(cache, known, bs[..|bs| - 1], t);
      var k := SightingKey(bs[|bs| - 1]);
      if k in known then c[k := Observation(bs[|bs| - 1], known[k], t)] else c
  }

  /** The insertion order of the cache's keys after the same upserts: new keys go last. */
  function UpsertOrder(order: seq<string>, known: map<string, VirtualBeacon>, bs: seq<RangedBeacon>): seq<string> {
    if bs == [] then order
    else
      var o := UpsertOrder(order, known, bs[..|bs| - 1]);
      var k := SightingKey(bs[|bs| - 1]);
      if k in known && k !in o then o + [k] else o
  }

  ghost predicate Expired(d: BeaconData, now: int) {
    now - d.timestamp > BEACON_EXPIRATION_TIME
  }

  /** The cache after the expiry sweep at clock reading `now`. */
  function Sweep(cache: map<string, BeaconData>, now: int): (r: map<string, BeaconData>)
    ensures forall k :: k in r ==> k in cache && r[k] == cache[k] && !Expired(r[k], now)
    ensures forall k :: k in cache && !Expired(cache[k], now) ==> k in r
  {
    map k | k in cache && now - cache[k].timestamp <= BEACON_EXPIRATION_TIME :: cache[k]
  }

  /** The keys of `order` that are still cached, in their order. */
  function Retain(order: seq<string>, cache: map<string, BeaconData>): (r: seq<string>)
    ensures forall k :: k in r <==> k in order && k in cache
    ensures |r| <= |order|
  {
    if order == [] then []
    else
      var r := Retain(order[..|order| - 1], cache);
      var k := order[|order| - 1];
      assert forall x :: x in order <==> x in order[..|order| - 1] || x == k;
      if k in cache then r + [k] else r
  }

  /**
    * The cached values listed in insertion order, as `values.toList()` gives
    * them. Under the scanner invariant (a duplicate-free order listing
    * exactly the cached keys) it holds every cached value exactly once: as
    * many entries as keys, and each key's value at the one position where
    * `order` lists it.
    */
  function Snapshot(order: seq<string>, cache: map<string, BeaconData>): (r: seq<BeaconData>)
    requires forall k :: k in order ==> k in cache
    ensures Distinct(order) && (forall k :: k in cache <==> k in order) ==>
      && |r| == |cache|
      && (forall k :: k in cache ==> 0 <= IndexOf(order, k) < |r| && r[IndexOf(order, k)] == cache[k])
      && (forall k, i :: k in cache && 0 <= i < |order| ==> (order[i] == k <==> i == IndexOf(order, k)))
  {
    assert Distinct(order) && (forall k :: k in cache <==> k in order) ==>
      |order| == |cache| && forall i :: 0 <= i < |order| ==> IndexOf(order, order[i]) == i
    by {
      if Distinct(order) && (forall k :: k in cache <==> k in order) {
        assert cache.Keys == Elements(order);
        DistinctElementsSize(order);
        DistinctIndexOf(order);
      }
    }
    seq(|order|, i requires 0 <= i < |order| => cache[order[i]])
  }

  lemma {:induction false} RetainDistinct(order: seq<string>, cache: map<string, BeaconData>)
    requires Distinct(order)
    ensures Distinct(Retain(order, cache))
  {
    if order != [] {
      var init := order[..|order| - 1];
      RetainDistinct(init, cache);
      assert order[|order| - 1] !in init;
    }
  }

  /** Retaining keeps the surviving keys in their relative order: `r` is a subsequence of `order`. */
  lemma {:induction false} RetainKeepsOrder(order: seq<string>, cache: map<string, BeaconData>)
    requires Distinct(order)
    ensures forall i, j :: 0 <= i < j < |Retain(order, cache)| ==>
      IndexOf(order, Retain(order, cache)[i]) < IndexOf(order, Retain(order, cache)[j])
  {
    if order != [] {
      var n := |order| - 1;
      var init := order[..n];
      RetainKeepsOrder(init, cache);
      var before := Retain(init, cache);
      var r := Retain(order, cache);
      forall i, j | 0 <= i < j < |r| ensures IndexOf(order, r[i]) < IndexOf(order, r[j]) {
        assert r[i] == before[i] && before[i] in before;
        IndexOfPrefix(order, n, r[i]);
        if j < |before| {
          assert r[j] == before[j] && before[j] in before;
          IndexOfPrefix(order, n, r[j]);
        } else {
          assert order[n] !in init;
          IndexOfUnique(order, order[n], n);
        }
      }
    }
  }

  /** Upserting only appends: the old order is a prefix and every added key is registered and sighted. */
  lemma {:induction false} UpsertOrderAppends(order: seq<string>, known: map<string, VirtualBeacon>, bs: seq<RangedBeacon>)
    ensures order <= UpsertOrder(order, known, bs)
    ensures forall k :: k in UpsertOrder(order, known, bs) && k !in order ==>
      k in known && exists i :: 0 <= i < |bs| && SightingKey(bs[i]) == k
  {
    if bs != [] {
      var n := |bs| - 1;
      UpsertOrderAppends(order, known, bs[..n]);
      forall k | k in UpsertOrder(order, known, bs) && k !in order
        ensures k in known && exists i :: 0 <= i < |bs| && SightingKey(bs[i]) == k
      {
        if k in UpsertOrder(order, known, bs[..n]) {
          var i :| 0 <= i < n && SightingKey(bs[..n][i]) == k;
          assert SightingKey(bs[i]) == k;
        } else {
          assert SightingKey(bs[n]) == k;
        }
      }
    }
  }

  /** Upserting keeps the order distinct and in step with the cache's keys. */
  lemma {:induction false} UpsertInStep(cache: map<string, BeaconData>, order: seq<string>, known: map<string, VirtualBeacon>, bs: seq<RangedBeacon>, t: int)
    requires Distinct(order) && forall k :: k in cache <==> k in order
    ensures Distinct(UpsertOrder(order, known, bs))
    ensures forall k :: k in Upsert(cache, known, bs, t) <==> k in UpsertOrder(order, known, bs)
  {
    if bs != [] {
      UpsertInStep(cache, order, known, bs[..|bs| - 1], t);
    }
  }

  /** A sighting of an unregistered key neither adds nor alters the entry under that key. */
  lemma {:induction false} UnregisteredNeverCached(cache: map<string, BeaconData>, known: map<string, VirtualBeacon>, bs: seq<RangedBeacon>, t: int, k: string)
    requires k !in known
    ensures k in Upsert(cache, known, bs, t) <==> k in cache
    ensures k in cache ==> Upsert(cache, known, bs, t)[k] == cache[k]
  {
    if bs != [] {
      UnregisteredNeverCached(cache, known, bs[..|bs| - 1], t, k);
    }
  }

  /** Keys not sighted in the batch keep their old entry, or stay absent. */
  lemma {:induction false} UnsightedKept(cache: map<string, BeaconData>, known: map<string, VirtualBeacon>, bs: seq<RangedBeacon>, t: int, k: string)
    requires forall i :: 0 <= i < |bs| ==> SightingKey(bs[i]) != k
    ensures k in Upsert(cache, known, bs, t) <==> k in cache
    ensures k in cache ==> Upsert(cache, known, bs, t)[k] == cache[k]
  {
    if bs != [] {
      UnsightedKept(cache, known, bs[..|bs| - 1], t, k);
    }
  }

  /**
    * A registered key sighted in the batch holds exactly one entry, built
    * from its last sighting: that sighting's rssi and distance, the
    * registry's coordinates, and the batch's clock reading.
    */
  lemma {:induction false} RegisteredUpserted(cache: map<string, BeaconData>, known: map<string, VirtualBeacon>, bs: seq<RangedBeacon>, t: int, i: nat)
    requires i < |bs| && SightingKey(bs[i]) in known
    requires forall j :: i < j < |bs| ==> SightingKey(bs[j]) != SightingKey(bs[i])
    ensures SightingKey(bs[i]) in Upsert(cache, known, bs, t)
    ensures Upsert(cache, known, bs, t)[SightingKey(bs[i])] == Observation(bs[i], known[SightingKey(bs[i])], t)
  {
    var n := |bs| - 1;
    if i < n {
      RegisteredUpserted(cache, known, bs[..n], t, i);
    }
  }

  /** Every key sighted and registered in the batch carries the batch's clock reading. */
  lemma {:induction false} SightedStamped(cache: map<string, BeaconData>, known: map<string, VirtualBeacon>, bs: seq<RangedBeacon>, t: int, i: nat)
    requires i < |bs| && SightingKey(bs[i]) in known
    ensures SightingKey(bs[i]) in Upsert(cache, known, bs, t)
    ensures Upsert(cache, known, bs, t)[SightingKey(bs[i])].timestamp == t
  {
    var n := |bs| - 1;
    if i < n {
      SightedStamped(cache, known, bs[..n], t, i);
    }
  }

  /** Entries upserted by a batch survive its sweep when the sweep's clock is within the window. */
  lemma {:induction false} BatchSurvivesSweep(cache: map<string, BeaconData>, known: map<string, VirtualBeacon>, bs: seq<RangedBeacon>, t: int, now: int, i: nat)
    requires i < |bs| && SightingKey(bs[i]) in known
    requires now - t <= BEACON_EXPIRATION_TIME
    ensures SightingKey(bs[i]) in Sweep(Upsert(cache, known, bs, t), now)
  {
    SightedStamped(cache, known, bs, t, i);
  }

  // ---------------------------------------------------------------------
  // The scanner
  // ---------------------------------------------------------------------

  class BeaconScanner {
    var knownBeacons: map<string, VirtualBeacon>
    var beaconCache: map<string, BeaconData>
    /** The insertion order of `beaconCache`'s keys (the map is a LinkedHashMap). */
    var cacheOrder: seq<string>
    /** The value last published on the scanned-beacons flow. */
    var scannedBeacons: seq<BeaconData>

    ghost predicate Valid()
      reads this
    {
      Distinct(cacheOrder) && forall k :: k in beaconCache <==> k in cacheOrder
    }

    constructor ()
      ensures Valid()
      ensures knownBeacons == map[] && beaconCache == map[] && cacheOrder == [] && scannedBeacons == []
    {
      knownBeacons := map[];
      beaconCache := map[];
      cacheOrder := [];
      scannedBeacons := [];
    }

    /**
      * One ranging callback: `currentTime` is the clock read when the
      * batch arrives, `sweepTime` the clock read by the expiry sweep.
      */
    method ProcessBeacons(beacons: seq<RangedBeacon>, currentTime: int, sweepTime: int)
      requires Valid()
      modifies this
      ensures Valid()
      ensures knownBeacons == old(knownBeacons)
      ensures beaconCache == Sweep(Upsert(old(beaconCache), knownBeacons, beacons, currentTime), sweepTime)
      ensures cacheOrder == Retain(UpsertOrder(old(cacheOrder), knownBeacons, beacons), beaconCache)
      ensures scannedBeacons == Snapshot(cacheOrder, beaconCache)
    {
      UpsertInStep(beaconCache, cacheOrder, knownBeacons, beacons, currentTime);
      var i := 0;
      while i < |beacons|
        invariant 0 <= i <= |beacons|
        invariant beaconCache == Upsert(old(beaconCache), knownBeacons, beacons[..i], currentTime)
        invariant cacheOrder == UpsertOrder(old(cacheOrder), knownBeacons, beacons[..i])
        invariant knownBeacons == old(knownBeacons)
      {
        assert beacons[..i + 1][..i] == beacons[..i];
        UpsertInStep(old(beaconCache), old(cacheOrder), knownBeacons, beacons[..i], currentTime);
        var beacon := beacons[i];
        var key := BeaconKey(beacon.id1, beacon.id2, beacon.id3);
        if key in knownBeacons {
          var virtualBeacon := knownBeacons[key];
          if key !in beaconCache {
            cacheOrder := cacheOrder + [key];
          }
          beaconCache := beaconCache[key := Observation(beacon, virtualBeacon, currentTime)];
        }
        i := i + 1;
      }
      assert beacons[..i] == beacons;
      UpsertInStep(old(beaconCache), old(cacheOrder), knownBeacons, beacons, currentTime);
      CleanExpiredBeacons(sweepTime);
      scannedBeacons := Snapshot(cacheOrder, beaconCache);
    }

    method CleanExpiredBeacons(currentTime: int)
      requires Valid()
      modifies this`beaconCache, this`cacheOrder
      ensures Valid()
      ensures beaconCache == Sweep(old(beaconCache), currentTime)
      ensures cacheOrder == Retain(old(cacheOrder), beaconCache)
    {
      beaconCache := Sweep(beaconCache, currentTime);
      RetainDistinct(cacheOrder, beaconCache);
      cacheOrder := Retain(cacheOrder, beaconCache);
    }

    /** The cache-clearing part of stopping a scan; the registry is kept. */
    method StopScanning()
      modifies this`beaconCache, this`cacheOrder, this`scannedBeacons
      ensures Valid()
      ensures beaconCache == map[] && cacheOrder == [] && scannedBeacons == []
    {
      beaconCache := map[];
      cacheOrder := [];
      scannedBeacons := [];
    }

    /** Installs the outcome of a registry fetch; `None` stands for a failed fetch. */
    method UpdateKnownBeacons(fetched: Option<seq<VirtualBeacon>>)
      modifies this`knownBeacons
      ensures fetched.None? ==> knownBeacons == old(knownBeacons)
      ensures fetched.Some? ==> knownBeacons == Registry(fetched.value)
    {
      if fetched.Some? {
        var beacons := fetched.value;
        knownBeacons := map[];
        var i := 0;
        while i < |beacons|
          invariant 0 <= i <= |beacons|
          invariant knownBeacons == Registry(beacons[..i])
        {
          assert beacons[..i + 1][..i] == beacons[..i];
          var beacon := beacons[i];
          var key := BeaconKey(beacon.uuid, beacon.major, beacon.minor);
          knownBeacons := knownBeacons[key := beacon];
          i := i + 1;
        }
        assert beacons[..i] == beacons;
      }
    }
  }
}
