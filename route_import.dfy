/**
 * The route side of the railway data importer (scripts/import_data.py):
 * the brute-force nearest-station lookup of SpatialIndex, the scan of a
 * train's route coordinates that keeps a station only when it differs
 * from the last one kept, the mapping warnings, and the route-derived
 * train_stops rows numbered 1..n. Distances are reals; the great-circle
 * formula is a parameter.
 */
module RouteImport {
  import opened Wrappers
  import opened Schedules

  /** A station with coordinates, as the spatial index holds it. */
  datatype StationPoint = StationPoint(code: string, lat: real, lon: real)

  /** The station list of a spatial index, searched by brute force. */
  datatype SpatialIndex = SpatialIndex(stations: seq<StationPoint>)

  /** `haversine_distance(lon1, lat1, lon2, lat2)` in kilometres. */
  type Haversine = (real, real, real, real) -> real

  /** The default search radius of `map_route_to_stations`. */
  const RouteThresholdKm: real := 15.0

  /** Matches farther than this are kept but logged. */
  const LargeDistanceKm: real := 5.0

  // ---------------------------------------------------------------------
  // Nearest station
  // ---------------------------------------------------------------------

  /** Distance from the point to each station, in station order. */
  function Distances(index: SpatialIndex, lat: real, lon: real, haversine: Haversine): seq<real> {
    seq(|index.stations|, i requires 0 <= i < |index.stations| =>
      haversine(lon, lat, index.stations[i].lon, index.stations[i].lat))
  }

  /** The first position holding the least value. */
  function ArgMin(ds: seq<real>): (m: nat)
    requires |ds| > 0
    ensures m < |ds|
    ensures forall i :: 0 <= i < |ds| ==> ds[m] <= ds[i]
    ensures forall i :: 0 <= i < m ==> ds[m] < ds[i]
  {
    if |ds| == 1 then 0
    else
      var m := ArgMin(ds[..|ds| - 1]);
      if ds[|ds| - 1] < ds[m] then |ds| - 1 else m
  }

  /**
   * `find_nearest` without a tree: None for an empty index; otherwise
   * the first station at the least distance, if that distance is within
   * `maxKm`.
   */
  function Nearest(index: SpatialIndex, lat: real, lon: real, maxKm: real, haversine: Haversine): (r: Option<(string, real)>)
    ensures index.stations == [] ==> r.None?
    ensures r.Some? ==>
      exists i :: 0 <= i < |index.stations| && index.stations[i].code == r.value.0 &&
        r.value.1 == Distances(index, lat, lon, haversine)[i]
    ensures r.Some? ==> r.value.1 <= maxKm
    ensures r.Some? ==>
      forall i :: 0 <= i < |index.stations| ==> r.value.1 <= Distances(index, lat, lon, haversine)[i]
    ensures r.None? ==> forall i :: 0 <= i < |index.stations| ==> Distances(index, lat, lon, haversine)[i] > maxKm
  {
    if index.stations == [] then None
    else
      var ds := Distances(index, lat, lon, haversine);
      var m := ArgMin(ds);
      if ds[m] <= maxKm then Some((index.stations[m].code, ds[m])) else None
  }

  /** The brute-force loop of `find_nearest`: a running minimum that starts at infinity (None). */
  method FindNearest(index: SpatialIndex, lat: real, lon: real, maxKm: real, haversine: Haversine)
    returns (r: Option<(string, real)>)
    ensures r == Nearest(index, lat, lon, maxKm, haversine)
  {
    if |index.stations| == 0 {
      return None;
    }
    ghost var ds := Distances(index, lat, lon, haversine);
    var minDist: Option<real> := None;
    var nearestCode: Option<string> := None;
    var i := 0;
    while i < |index.stations|
      invariant 0 <= i <= |index.stations|
      invariant i == 0 ==> minDist.None? && nearestCode.None?
      invariant i > 0 ==>
        minDist == Some(ds[ArgMin(ds[..i])]) && nearestCode == Some(index.stations[ArgMin(ds[..i])].code)
    {
      var station := index.stations[i];
      var dist := haversine(lon, lat, station.lon, station.lat);
      assert ds[..i + 1][..i] == ds[..i];
      if minDist.None? || dist < minDist.value {
        minDist := Some(dist);
        nearestCode := Some(station.code);
      }
      i := i + 1;
    }
    assert ds[..i] == ds;
    if minDist.value <= maxKm {
      return Some((nearestCode.value, minDist.value));
    }
    return None;
  }

  // ---------------------------------------------------------------------
  // Mapping a route to stations
  // ---------------------------------------------------------------------

  /** The lookup result of every route coordinate `[lon, lat]`, in route order. */
  function Lookups(index: SpatialIndex, coordinates: seq<(real, real)>, thresholdKm: real, haversine: Haversine)
    : seq<Option<(string, real)>>
  {
    seq(|coordinates|, i requires 0 <= i < |coordinates| =>
      Nearest(index, coordinates[i].1, coordinates[i].0, thresholdKm, haversine))
  }

  /**
   * The scan of `map_route_to_stations` over the lookup results: the kept
   * (station, coordinate index) pairs and the remembered previous station.
   * A coordinate without a station leaves the previous station as it was.
   */
  function RouteScan(lookups: seq<Option<(string, real)>>): (seq<(string, nat)>, Option<string>) {
    if lookups == [] then ([], None)
    else
      var n := |lookups| - 1;
      ScanStep(RouteScan(lookups[..n]), n, lookups[n])
  }

  /** One coordinate of the scan: keep its station if one was found and it is not the previous one. */
  function ScanStep(state: (seq<(string, nat)>, Option<string>), idx: nat, lookup: Option<(string, real)>)
    : (seq<(string, nat)>, Option<string>)
  {
    var (kept, prev) := state;
    match lookup
    case None => (kept, prev)
    case Some(found) =>
      if Some(found.0) != prev then (kept + [(found.0, idx)], Some(found.0)) else (kept, prev)
  }

  /** The scan, the unmapped count and the warnings, one coordinate further. */
  lemma RouteScanStep(trainNumber: string, coordinates: seq<(real, real)>, lookups: seq<Option<(string, real)>>, idx: nat)
    requires idx < |lookups| == |coordinates|
    ensures RouteScan(lookups[..idx + 1]) == ScanStep(RouteScan(lookups[..idx]), idx, lookups[idx])
    ensures UnmappedCount(lookups[..idx + 1]) == UnmappedCount(lookups[..idx]) + (if lookups[idx].None? then 1 else 0)
    ensures RouteWarnings(trainNumber, coordinates[..idx + 1], lookups[..idx + 1]) ==
      RouteWarnings(trainNumber, coordinates[..idx], lookups[..idx]) + CoordinateWarning(trainNumber, idx, coordinates[idx], lookups[idx])
  {
    assert lookups[..idx + 1][..idx] == lookups[..idx];
    assert coordinates[..idx + 1][..idx] == coordinates[..idx];
  }

  /**
   * What the scan keeps: the previous station is the last one kept;
   * coordinate indices strictly increase and are in range, so no more
   * pairs than coordinates; each pair names the station found at its
   * index; and no two adjacent pairs name the same station.
   */
  lemma {:induction false} RouteScanShape(lookups: seq<Option<(string, real)>>)
    ensures var (kept, prev) := RouteScan(lookups);
      && prev == (if kept == [] then None else Some(kept[|kept| - 1].0))
      && (forall i, j :: 0 <= i < j < |kept| ==> kept[i].1 < kept[j].1)
      && (forall i :: 0 <= i < |kept| ==>
            kept[i].1 < |lookups| && lookups[kept[i].1].Some? && lookups[kept[i].1].value.0 == kept[i].0)
      && (forall i :: 0 <= i < |kept| - 1 ==> kept[i].0 != kept[i + 1].0)
      && |kept| <= |lookups|
  {
    if lookups != [] {
      var n := |lookups| - 1;
      RouteScanShape(lookups[..n]);
      var (kept0, prev0) := RouteScan(lookups[..n]);
      forall i | 0 <= i < |kept0| ensures lookups[kept0[i].1] == lookups[..n][kept0[i].1] {
      }
      if lookups[n].Some? && Some(lookups[n].value.0) != prev0 {
        var kept := kept0 + [(lookups[n].value.0, n)];
        forall i | 0 <= i < |kept| - 1 ensures kept[i].0 != kept[i + 1].0 {
          if i < |kept0| - 1 {
            assert kept[i] == kept0[i] && kept[i + 1] == kept0[i + 1];
          }
        }
        if kept0 != [] {
          assert kept0[|kept0| - 1].1 < n;
        }
      }
    }
  }

  /** The last pair kept at or before coordinate `idx` names `code`. */
  predicate InForce(kept: seq<(string, nat)>, idx: nat, code: string) {
    exists i :: 0 <= i < |kept| && kept[i].1 <= idx && kept[i].0 == code && (i + 1 == |kept| || kept[i + 1].1 > idx)
  }

  /**
   * No coordinate is lost: at every coordinate where a station was found,
   * the station in force (the last pair kept at or before that index) is
   * that station.
   */
  lemma {:induction false} RouteScanCovers(lookups: seq<Option<(string, real)>>, idx: nat)
    requires idx < |lookups| && lookups[idx].Some?
    ensures InForce(RouteScan(lookups).0, idx, lookups[idx].value.0)
  {
    var n := |lookups| - 1;
    var (kept0, prev0) := RouteScan(lookups[..n]);
    var kept := RouteScan(lookups).0;
    var added := lookups[n].Some? && Some(lookups[n].value.0) != prev0;
    assert added ==> kept == kept0 + [(lookups[n].value.0, n)];
    assert !added ==> kept == kept0;
    if idx == n {
      if !added {
        RouteScanShape(lookups[..n]);
        var i := |kept0| - 1;
        assert kept[i].0 == lookups[idx].value.0 && kept[i].1 <= idx && i + 1 == |kept|;
      } else {
        var i := |kept| - 1;
        assert kept[i] == (lookups[idx].value.0, n);
        assert 0 <= i < |kept| && kept[i].1 <= idx && kept[i].0 == lookups[idx].value.0 && i + 1 == |kept|;
      }
    } else {
      RouteScanCovers(lookups[..n], idx);
      var i :| 0 <= i < |kept0| && kept0[i].1 <= idx && kept0[i].0 == lookups[..n][idx].value.0 &&
        (i + 1 == |kept0| || kept0[i + 1].1 > idx);
      assert kept[i] == kept0[i];
      if i + 1 < |kept0| {
        assert kept[i + 1] == kept0[i + 1];
      } else if added {
        assert kept[i + 1] == (lookups[n].value.0, n);
      }
    }
  }

  /** The number of coordinates with no station within range. */
  function UnmappedCount(lookups: seq<Option<(string, real)>>): nat {
    if lookups == [] then 0
    else UnmappedCount(lookups[..|lookups| - 1]) + (if lookups[|lookups| - 1].None? then 1 else 0)
  }

  /** A row of the mapping_warnings table; the message text is not modelled. */
  datatype MappingWarning =
    | LargeDistance(trainNumber: string, coordinateIndex: nat, lat: real, lon: real, stationCode: string, distanceKm: real)
    | NoStationNearby(trainNumber: string, coordinateIndex: nat, lat: real, lon: real)

  /** The warning logged for one coordinate, if any. */
  function CoordinateWarning(trainNumber: string, idx: nat, coordinate: (real, real), lookup: Option<(string, real)>)
    : seq<MappingWarning>
  {
    match lookup
    case None => [NoStationNearby(trainNumber, idx, coordinate.1, coordinate.0)]
    case Some(found) =>
      if found.1 > LargeDistanceKm then [LargeDistance(trainNumber, idx, coordinate.1, coordinate.0, found.0, found.1)]
      else []
  }

  /** The warnings logged while mapping a route, in coordinate order. */
  function RouteWarnings(trainNumber: string, coordinates: seq<(real, real)>, lookups: seq<Option<(string, real)>>)
    : seq<MappingWarning>
    requires |lookups| == |coordinates|
  {
    if coordinates == [] then []
    else
      var n := |coordinates| - 1;
      RouteWarnings(trainNumber, coordinates[..n], lookups[..n]) + CoordinateWarning(trainNumber, n, coordinates[n], lookups[n])
  }

  /**
   * The warnings of a route: one NO_STATION_NEARBY per unmapped
   * coordinate, and one LARGE_DISTANCE per coordinate whose station was
   * found more than 5 km away. Each warning is logged at its coordinate
   * and names what was found there.
   */
  lemma RouteWarningsShape(trainNumber: string, coordinates: seq<(real, real)>, lookups: seq<Option<(string, real)>>)
    requires |lookups| == |coordinates|
    ensures var ws := RouteWarnings(trainNumber, coordinates, lookups);
      && NoStationCount(ws) == UnmappedCount(lookups)
      && (forall w :: w in ws ==> w.trainNumber == trainNumber && w.coordinateIndex < |coordinates|)
      && (forall w :: w in ws ==>
            w.lat == coordinates[w.coordinateIndex].1 && w.lon == coordinates[w.coordinateIndex].0)
      && (forall w :: w in ws && w.NoStationNearby? ==> lookups[w.coordinateIndex].None?)
      && (forall w :: w in ws && w.LargeDistance? ==>
            w.distanceKm > LargeDistanceKm && lookups[w.coordinateIndex] == Some((w.stationCode, w.distanceKm)))
    ensures var ws := RouteWarnings(trainNumber, coordinates, lookups);
      forall i :: 0 <= i < |coordinates| ==>
        && (lookups[i].None? ==> NoStationNearby(trainNumber, i, coordinates[i].1, coordinates[i].0) in ws)
        && (lookups[i].Some? && lookups[i].value.1 > LargeDistanceKm ==>
              LargeDistance(trainNumber, i, coordinates[i].1, coordinates[i].0, lookups[i].value.0, lookups[i].value.1) in ws)
  {
    RouteWarningsCount(trainNumber, coordinates, lookups);
    RouteWarningsFrom(trainNumber, coordinates, lookups);
    RouteWarningsCover(trainNumber, coordinates, lookups);
  }

  /** There are as many NO_STATION_NEARBY warnings as unmapped coordinates. */
  lemma {:induction false} RouteWarningsCount(trainNumber: string, coordinates: seq<(real, real)>, lookups: seq<Option<(string, real)>>)
    requires |lookups| == |coordinates|
    ensures NoStationCount(RouteWarnings(trainNumber, coordinates, lookups)) == UnmappedCount(lookups)
  {
    if coordinates != [] {
      var n := |coordinates| - 1;
      RouteWarningsCount(trainNumber, coordinates[..n], lookups[..n]);
      NoStationCountAppend(RouteWarnings(trainNumber, coordinates[..n], lookups[..n]),
        CoordinateWarning(trainNumber, n, coordinates[n], lookups[n]));
    }
  }

  /** Every warning is logged at its coordinate and names what was found there. */
  lemma {:induction false} RouteWarningsFrom(trainNumber: string, coordinates: seq<(real, real)>, lookups: seq<Option<(string, real)>>)
    requires |lookups| == |coordinates|
    ensures var ws := RouteWarnings(trainNumber, coordinates, lookups);
      && (forall w :: w in ws ==> w.trainNumber == trainNumber && w.coordinateIndex < |coordinates|)
      && (forall w :: w in ws ==>
            w.lat == coordinates[w.coordinateIndex].1 && w.lon == coordinates[w.coordinateIndex].0)
      && (forall w :: w in ws && w.NoStationNearby? ==> lookups[w.coordinateIndex].None?)
      && (forall w :: w in ws && w.LargeDistance? ==>
            w.distanceKm > LargeDistanceKm && lookups[w.coordinateIndex] == Some((w.stationCode, w.distanceKm)))
  {
    if coordinates != [] {
      var n := |coordinates| - 1;
      RouteWarningsFrom(trainNumber, coordinates[..n], lookups[..n]);
      forall w | w in RouteWarnings(trainNumber, coordinates[..n], lookups[..n])
        ensures lookups[w.coordinateIndex] == lookups[..n][w.coordinateIndex]
        ensures coordinates[w.coordinateIndex] == coordinates[..n][w.coordinateIndex]
      {
      }
    }
  }

  /**
   * Every unmapped coordinate gets its NO_STATION_NEARBY warning, and every
   * coordinate whose station is more than 5 km away its LARGE_DISTANCE one.
   */
  lemma {:induction false} RouteWarningsCover(trainNumber: string, coordinates: seq<(real, real)>, lookups: seq<Option<(string, real)>>)
    requires |lookups| == |coordinates|
    ensures var ws := RouteWarnings(trainNumber, coordinates, lookups);
      forall i :: 0 <= i < |coordinates| ==>
        && (lookups[i].None? ==> NoStationNearby(trainNumber, i, coordinates[i].1, coordinates[i].0) in ws)
        && (lookups[i].Some? && lookups[i].value.1 > LargeDistanceKm ==>
              LargeDistance(trainNumber, i, coordinates[i].1, coordinates[i].0, lookups[i].value.0, lookups[i].value.1) in ws)
  {
    if coordinates != [] {
      var n := |coordinates| - 1;
      RouteWarningsCover(trainNumber, coordinates[..n], lookups[..n]);
      forall i | 0 <= i < n
        ensures lookups[i] == lookups[..n][i] && coordinates[i] == coordinates[..n][i]
      {
      }
    }
  }

  /** The number of NO_STATION_NEARBY warnings. */
  function NoStationCount(ws: seq<MappingWarning>): nat {
    if ws == [] then 0
    else NoStationCount(ws[..|ws| - 1]) + (if ws[|ws| - 1].NoStationNearby? then 1 else 0)
  }

  lemma {:induction false} NoStationCountAppend(a: seq<MappingWarning>, b: seq<MappingWarning>)
    ensures NoStationCount(a + b) == NoStationCount(a) + NoStationCount(b)
  {
    if b != [] {
      NoStationCountAppend(a, b[..|b| - 1]);
      assert (a + b)[..|a + b| - 1] == a + b[..|b| - 1];
    } else {
      assert a + b == a;
    }
  }

  /**
   * A coordinate without a station does not reset the previous station:
   * A, nothing, A keeps A once. A station may come back after another
   * one: A, B, A keeps all three.
   */
  lemma RouteScanExamples()
    ensures RouteScan([Some(("A", 1.0)), None, Some(("A", 2.0))]).0 == [("A", 0)]
    ensures RouteScan([Some(("A", 1.0)), Some(("B", 1.0)), Some(("A", 1.0))]).0 == [("A", 0), ("B", 1), ("A", 2)]
  {
    var l: seq<Option<(string, real)>> := [Some(("A", 1.0)), None, Some(("A", 2.0))];
    RouteScanFirst(l);
    assert l[..2][..1] == l[..1];
    assert RouteScan(l[..2]) == ([("A", 0)], Some("A"));
    var m: seq<Option<(string, real)>> := [Some(("A", 1.0)), Some(("B", 1.0)), Some(("A", 1.0))];
    RouteScanFirst(m);
    assert m[..2][..1] == m[..1];
    assert RouteScan(m[..2]) == ([("A", 0)] + [("B", 1)], Some("B"));
    assert [("A", 0)] + [("B", 1)] + [("A", 2)] == [("A", 0), ("B", 1), ("A", 2)];
  }

  /** A route whose first coordinate finds station `c` starts with (c, 0). */
  lemma RouteScanFirst(lookups: seq<Option<(string, real)>>)
    requires |lookups| >= 1 && lookups[0].Some?
    ensures RouteScan(lookups[..1]) == ([(lookups[0].value.0, 0)], Some(lookups[0].value.0))
  {
    assert lookups[..1][..0] == [];
    assert RouteScan(lookups[..1][..0]) == ([], None);
    assert [] + [(lookups[0].value.0, 0)] == [(lookups[0].value.0, 0)];
  }

  // ---------------------------------------------------------------------
  // Route-derived stops
  // ---------------------------------------------------------------------

  /**
   * `INSERT OR IGNORE` of the kept stations as stops 1..n of the train:
   * a (train, sequence) pair already present keeps its row.
   */
  function InsertRouteStopRows(stops: map<StopKey, StopRow>, trainId: int, kept: seq<(string, nat)>): map<StopKey, StopRow> {
    if kept == [] then stops
    else
      var n := |kept|;
      var before := InsertRouteStopRows(stops, trainId, kept[..n - 1]);
      if (trainId, n) in before then before
      else before[(trainId, n) := StopRow(kept[n - 1].0, None, None, None)]
  }

  /**
   * After inserting the route stops, at one key: sequences 1..n of the
   * train are all present, numbered with no gap; a row that was there
   * before is kept; a new row holds the station of its position and no
   * times; no other key is added.
   */
  lemma {:induction false} InsertRouteStopRowsAt(stops: map<StopKey, StopRow>, trainId: int, kept: seq<(string, nat)>, key: StopKey)
    ensures var after := InsertRouteStopRows(stops, trainId, kept);
      && (key in after <==> key in stops || (key.0 == trainId && 1 <= key.1 <= |kept|))
      && (key in stops ==> after[key] == stops[key])
      && (key !in stops && key.0 == trainId && 1 <= key.1 <= |kept| ==> after[key] == StopRow(kept[key.1 - 1].0, None, None, None))
  {
    if kept != [] {
      InsertRouteStopRowsAt(stops, trainId, kept[..|kept| - 1], key);
    }
  }
}
