/**
 * The importer object of scripts/import_data.py (RailwayDatabaseImporter)
 * as far as route mapping and stop numbering go: its spatial index, the
 * counters it keeps in `stats`, the mapping_warnings rows it writes and
 * the train_stops table, keyed by (train id, stop sequence).
 */
module Importer {
  import opened Wrappers
  import opened Schedules
  import opened RouteImport

  class RailwayImporter {
    var spatialIndex: Option<SpatialIndex>
    var routeCoordsMapped: int
    var routeCoordsUnmapped: int
    var stopsImported: int
    var warnings: seq<MappingWarning>
    var trainStops: map<StopKey, StopRow>

    /** A fresh importer: every counter at 0, no warning, and the given tables. */
    constructor(spatialIndex: Option<SpatialIndex>, trainStops: map<StopKey, StopRow>)
      ensures this.spatialIndex == spatialIndex && this.trainStops == trainStops
      ensures routeCoordsMapped == 0 && routeCoordsUnmapped == 0 && stopsImported == 0 && warnings == []
    {
      this.spatialIndex := spatialIndex;
      this.trainStops := trainStops;
      routeCoordsMapped := 0;
      routeCoordsUnmapped := 0;
      stopsImported := 0;
      warnings := [];
    }

    /**
     * `map_route_to_stations`: with no spatial index nothing happens and
     * the result is empty; otherwise every coordinate is looked up, the
     * kept pairs are those of RouteScan, the mapped counter grows by their
     * number, the unmapped counter by the coordinates with no station, and
     * the warnings of RouteWarnings are appended.
     */
    method MapRouteToStations(trainNumber: string, coordinates: seq<(real, real)>, thresholdKm: real, haversine: Haversine)
      returns (mapped: seq<(string, nat)>)
      modifies this
      ensures spatialIndex == old(spatialIndex) && trainStops == old(trainStops) && stopsImported == old(stopsImported)
      ensures spatialIndex.None? ==>
        mapped == [] && routeCoordsMapped == old(routeCoordsMapped) &&
        routeCoordsUnmapped == old(routeCoordsUnmapped) && warnings == old(warnings)
      ensures spatialIndex.Some? ==>
        var lookups := Lookups(spatialIndex.value, coordinates, thresholdKm, haversine);
        && mapped == RouteScan(lookups).0
        && routeCoordsMapped == old(routeCoordsMapped) + |mapped|
        && routeCoordsUnmapped == old(routeCoordsUnmapped) + UnmappedCount(lookups)
        && warnings == old(warnings) + RouteWarnings(trainNumber, coordinates, lookups)
    {
      if spatialIndex.None? {
        return [];
      }
      mapped := ScanRoute(trainNumber, spatialIndex.value, coordinates, thresholdKm, haversine);
    }

    /** Whether the importer's counters and warnings are those of the scan of the first `idx` lookups. */
    ghost predicate ScannedUpTo(trainNumber: string, coordinates: seq<(real, real)>, lookups: seq<Option<(string, real)>>,
                                idx: nat, mapped: seq<(string, nat)>, prevStation: Option<string>,
                                mapped0: int, unmapped0: int, warnings0: seq<MappingWarning>)
      requires idx <= |lookups| == |coordinates|
      reads this
    {
      && mapped == RouteScan(lookups[..idx]).0 && prevStation == RouteScan(lookups[..idx]).1
      && routeCoordsMapped == mapped0 + |mapped|
      && routeCoordsUnmapped == unmapped0 + UnmappedCount(lookups[..idx])
      && warnings == warnings0 + RouteWarnings(trainNumber, coordinates[..idx], lookups[..idx])
    }

    /** The loop of `map_route_to_stations` over every coordinate, with a spatial index present. */
    method ScanRoute(trainNumber: string, index: SpatialIndex, coordinates: seq<(real, real)>, thresholdKm: real, haversine: Haversine)
      returns (mapped: seq<(string, nat)>)
      modifies this
      ensures spatialIndex == old(spatialIndex) && trainStops == old(trainStops) && stopsImported == old(stopsImported)
      ensures var lookups := Lookups(index, coordinates, thresholdKm, haversine);
        && mapped == RouteScan(lookups).0
        && routeCoordsMapped == old(routeCoordsMapped) + |mapped|
        && routeCoordsUnmapped == old(routeCoordsUnmapped) + UnmappedCount(lookups)
        && warnings == old(warnings) + RouteWarnings(trainNumber, coordinates, lookups)
    {
      ghost var lookups := Lookups(index, coordinates, thresholdKm, haversine);
      mapped := [];
      var prevStation: Option<string> := None;
      var idx := 0;
      while idx < |coordinates|
        invariant 0 <= idx <= |coordinates|
        invariant spatialIndex == old(spatialIndex) && trainStops == old(trainStops) && stopsImported == old(stopsImported)
        invariant ScannedUpTo(trainNumber, coordinates, lookups, idx, mapped, prevStation,
                              old(routeCoordsMapped), old(routeCoordsUnmapped), old(warnings))
      {
        mapped, prevStation := ScanNext(trainNumber, index, coordinates, thresholdKm, haversine, lookups, idx, mapped, prevStation,
                                        old(routeCoordsMapped), old(routeCoordsUnmapped), old(warnings));
        idx := idx + 1;
      }
      assert lookups[..idx] == lookups;
      assert coordinates[..idx] == coordinates;
    }

    /** One iteration of the loop: look coordinate `idx` up and scan it. */
    method ScanNext(trainNumber: string, index: SpatialIndex, coordinates: seq<(real, real)>, thresholdKm: real, haversine: Haversine,
                    ghost lookups: seq<Option<(string, real)>>, idx: nat, mapped: seq<(string, nat)>, prevStation: Option<string>,
                    ghost mapped0: int, ghost unmapped0: int, ghost warnings0: seq<MappingWarning>)
      returns (mapped': seq<(string, nat)>, prevStation': Option<string>)
      requires lookups == Lookups(index, coordinates, thresholdKm, haversine)
      requires idx < |coordinates|
      requires ScannedUpTo(trainNumber, coordinates, lookups, idx, mapped, prevStation, mapped0, unmapped0, warnings0)
      modifies this
      ensures ScannedUpTo(trainNumber, coordinates, lookups, idx + 1, mapped', prevStation', mapped0, unmapped0, warnings0)
      ensures spatialIndex == old(spatialIndex) && trainStops == old(trainStops) && stopsImported == old(stopsImported)
    {
      var result := FindNearest(index, coordinates[idx].1, coordinates[idx].0, thresholdKm, haversine);
      assert result == lookups[idx];
      RouteScanStep(trainNumber, coordinates, lookups, idx);
      mapped', prevStation' := ScanCoordinate(trainNumber, idx, coordinates[idx], result, mapped, prevStation);
    }

    /**
     * The body of the loop of `map_route_to_stations` for one coordinate
     * (lon, lat) and its lookup: the scan moves one step, the counters
     * count the kept station or the miss, and its warning is appended.
     */
    method ScanCoordinate(trainNumber: string, idx: nat, coordinate: (real, real), result: Option<(string, real)>,
                          mapped: seq<(string, nat)>, prevStation: Option<string>)
      returns (mapped': seq<(string, nat)>, prevStation': Option<string>)
      modifies this
      ensures (mapped', prevStation') == ScanStep((mapped, prevStation), idx, result)
      ensures routeCoordsMapped == old(routeCoordsMapped) + |mapped'| - |mapped|
      ensures routeCoordsUnmapped == old(routeCoordsUnmapped) + (if result.None? then 1 else 0)
      ensures warnings == old(warnings) + CoordinateWarning(trainNumber, idx, coordinate, result)
      ensures spatialIndex == old(spatialIndex) && trainStops == old(trainStops) && stopsImported == old(stopsImported)
    {
      var lon := coordinate.0;
      var lat := coordinate.1;
      mapped', prevStation' := mapped, prevStation;
      if result.Some? {
        var stationCode := result.value.0;
        var distance := result.value.1;
        if Some(stationCode) != prevStation {
          mapped' := mapped + [(stationCode, idx)];
          prevStation' := Some(stationCode);
          routeCoordsMapped := routeCoordsMapped + 1;
        }
        if distance > LargeDistanceKm {
          warnings := warnings + [LargeDistance(trainNumber, idx, lat, lon, stationCode, distance)];
        }
      } else {
        routeCoordsUnmapped := routeCoordsUnmapped + 1;
        warnings := warnings + [NoStationNearby(trainNumber, idx, lat, lon)];
      }
    }

    /** The route-derived stops: kept station number s (from 1) inserted at (train, s) unless that key exists. */
    method InsertRouteStops(trainId: int, mapped: seq<(string, nat)>)
      modifies this
      ensures trainStops == InsertRouteStopRows(old(trainStops), trainId, mapped)
      ensures spatialIndex == old(spatialIndex) && warnings == old(warnings)
      ensures routeCoordsMapped == old(routeCoordsMapped) && routeCoordsUnmapped == old(routeCoordsUnmapped)
      ensures stopsImported == old(stopsImported)
    {
      var i := 0;
      while i < |mapped|
        invariant 0 <= i <= |mapped|
        invariant trainStops == InsertRouteStopRows(old(trainStops), trainId, mapped[..i])
        invariant spatialIndex == old(spatialIndex) && warnings == old(warnings)
        invariant routeCoordsMapped == old(routeCoordsMapped) && routeCoordsUnmapped == old(routeCoordsUnmapped)
        invariant stopsImported == old(stopsImported)
      {
        var seqNo := i + 1;
        assert mapped[..i + 1][..i] == mapped[..i];
        if (trainId, seqNo) !in trainStops {
          trainStops := trainStops[(trainId, seqNo) := StopRow(mapped[i].0, None, None, None)];
        }
        i := i + 1;
      }
      assert mapped[..i] == mapped;
    }

    /** One train's stops, already sorted: stop s (from 1) upserted at (train, s), each counted. */
    method UpsertTrainStops(trainId: int, sorted: seq<ScheduleStop>)
      modifies this
      ensures trainStops == ScheduleUpserts(old(trainStops), trainId, sorted)
      ensures stopsImported == old(stopsImported) + |sorted|
      ensures spatialIndex == old(spatialIndex) && warnings == old(warnings)
      ensures routeCoordsMapped == old(routeCoordsMapped) && routeCoordsUnmapped == old(routeCoordsUnmapped)
    {
      var i := 0;
      while i < |sorted|
        invariant 0 <= i <= |sorted|
        invariant trainStops == ScheduleUpserts(old(trainStops), trainId, sorted[..i])
        invariant stopsImported == old(stopsImported) + i
        invariant spatialIndex == old(spatialIndex) && warnings == old(warnings)
        invariant routeCoordsMapped == old(routeCoordsMapped) && routeCoordsUnmapped == old(routeCoordsUnmapped)
      {
        assert sorted[..i + 1][..i] == sorted[..i];
        trainStops := trainStops[(trainId, i + 1) := ScheduledRow(sorted[i])];
        stopsImported := stopsImported + 1;
        i := i + 1;
      }
      assert sorted[..i] == sorted;
    }

    /**
     * `import_schedules`: group the entries by train number, then for each
     * group in first-appearance order whose train is in the trains table
     * (`trainIds`, number to id), upsert its stops sorted by (day,
     * departure). Groups of unknown trains are skipped.
     */
    method ImportSchedules(schedules: seq<ScheduleStop>, trainIds: map<string, int>)
      modifies this
      ensures trainStops == ImportGroups(old(trainStops), Groups(schedules), trainIds)
      ensures stopsImported == old(stopsImported) + ImportedCount(Groups(schedules), trainIds)
      ensures spatialIndex == old(spatialIndex) && warnings == old(warnings)
      ensures routeCoordsMapped == old(routeCoordsMapped) && routeCoordsUnmapped == old(routeCoordsUnmapped)
    {
      var order, groups := GroupByTrain(schedules);
      ghost var all := Groups(schedules);
      var k := 0;
      while k < |order|
        invariant 0 <= k <= |order| == |all|
        invariant trainStops == ImportGroups(old(trainStops), all[..k], trainIds)
        invariant stopsImported == old(stopsImported) + ImportedCount(all[..k], trainIds)
        invariant spatialIndex == old(spatialIndex) && warnings == old(warnings)
        invariant routeCoordsMapped == old(routeCoordsMapped) && routeCoordsUnmapped == old(routeCoordsUnmapped)
      {
        var number := order[k];
        assert all[k] == (number, groups[number]);
        assert all[..k + 1][..k] == all[..k];
        if number in trainIds {
          var sorted := SortStops(groups[number]);
          UpsertTrainStops(trainIds[number], sorted);
        }
        k := k + 1;
      }
      assert all[..k] == all;
    }
  }

  /**
   * The route stops of a train, after mapping its route: sequences 1..n
   * are numbered with no gap and name, in route order, stations no two
   * adjacent of which are the same.
   */
  lemma RouteStopsDense(stops: map<StopKey, StopRow>, trainId: int, lookups: seq<Option<(string, real)>>, s: int)
    requires 1 <= s <= |RouteScan(lookups).0|
    ensures var kept := RouteScan(lookups).0;
      var after := InsertRouteStopRows(stops, trainId, kept);
      && (trainId, s) in after
      && ((trainId, s) !in stops ==> after[(trainId, s)].stationCode == kept[s - 1].0)
      && (s < |kept| ==> kept[s - 1].0 != kept[s].0)
  {
    var kept := RouteScan(lookups).0;
    InsertRouteStopRowsAt(stops, trainId, kept, (trainId, s));
    RouteScanShape(lookups);
  }
}
