/**
 * The train search of backend/app/api/search.py (`search_trains`): the
 * direct-train rows are returned when there are any; otherwise the trains
 * that stop at the origin before they stop at the destination are looked
 * up, at most `limit` of them. The three database queries are inputs: the
 * direct rows, the (train id, stop sequence) rows of train_stops at the
 * origin and at the destination, and the trains table.
 */
module TrainSearch {

  /** A (train_id, stop_sequence) row selected from train_stops. */
  datatype StopRef = StopRef(trainId: int, stopSequence: int)

  /** A row of the trains table; only the id takes part in the search. */
  datatype TrainRow = TrainRow(id: int, trainNumber: string, fromStationCode: string, toStationCode: string)

  /**
   * `from_train_map`: each train id at the origin mapped to its stop
   * sequence. Later rows overwrite earlier ones, as in a dict comprehension.
   */
  function FromTrainMap(rows: seq<StopRef>): map<int, int> {
    if rows == [] then map[]
    else
      var n := |rows| - 1;
      FromTrainMap(rows[..n])[rows[n].trainId := rows[n].stopSequence]
  }

  /** Row i is the last row of `rows` for train `id`. */
  predicate LastRowAt(rows: seq<StopRef>, id: int, i: int) {
    0 <= i < |rows| && rows[i].trainId == id && forall j :: i < j < |rows| ==> rows[j].trainId != id
  }

  /**
   * The map holds exactly the trains that have a row at the origin, and
   * each is mapped to the stop sequence of its last row.
   */
  lemma {:induction false} FromTrainMapLast(rows: seq<StopRef>, id: int)
    ensures id in FromTrainMap(rows) <==> exists i :: 0 <= i < |rows| && rows[i].trainId == id
    ensures id in FromTrainMap(rows) ==>
      exists i :: LastRowAt(rows, id, i) && FromTrainMap(rows)[id] == rows[i].stopSequence
  {
    if rows != [] {
      var n := |rows| - 1;
      var pre := rows[..n];
      FromTrainMapLast(pre, id);
      if rows[n].trainId == id {
        assert LastRowAt(rows, id, n);
      } else {
        if id in FromTrainMap(rows) {
          var i :| LastRowAt(pre, id, i) && FromTrainMap(pre)[id] == pre[i].stopSequence;
          assert pre[i] == rows[i];
          assert LastRowAt(rows, id, i);
        }
        if exists i :: 0 <= i < |rows| && rows[i].trainId == id {
          var i :| 0 <= i < |rows| && rows[i].trainId == id;
          assert pre[i] == rows[i];
        }
      }
    }
  }

  /** A destination row qualifies when its train reached the origin at a smaller stop sequence. */
  predicate Qualifies(fromMap: map<int, int>, to: StopRef) {
    to.trainId in fromMap && fromMap[to.trainId] < to.stopSequence
  }

  /** `valid_train_ids`: the train ids of the qualifying destination rows, in row order, repeats kept. */
  function SelectIds(fromMap: map<int, int>, toRows: seq<StopRef>): seq<int> {
    if toRows == [] then []
    else
      var n := |toRows| - 1;
      SelectIds(fromMap, toRows[..n]) + (if Qualifies(fromMap, toRows[n]) then [toRows[n].trainId] else [])
  }

  /** The loop that builds `valid_train_ids`. */
  method ValidTrainIds(fromMap: map<int, int>, toRows: seq<StopRef>) returns (ids: seq<int>)
    ensures ids == SelectIds(fromMap, toRows)
  {
    ids := [];
    var k := 0;
    while k < |toRows|
      invariant 0 <= k <= |toRows|
      invariant ids == SelectIds(fromMap, toRows[..k])
    {
      var t := toRows[k];
      assert toRows[..k + 1][..k] == toRows[..k];
      if t.trainId in fromMap && fromMap[t.trainId] < t.stopSequence {
        ids := ids + [t.trainId];
      }
      k := k + 1;
    }
    assert toRows[..k] == toRows;
  }

  /** An id is selected iff some destination row of that train qualifies; never more ids than destination rows. */
  lemma {:induction false} SelectIdsMembers(fromMap: map<int, int>, toRows: seq<StopRef>, id: int)
    ensures id in SelectIds(fromMap, toRows) <==>
      exists j :: 0 <= j < |toRows| && toRows[j].trainId == id && Qualifies(fromMap, toRows[j])
    ensures |SelectIds(fromMap, toRows)| <= |toRows|
  {
    if toRows != [] {
      var n := |toRows| - 1;
      var pre := toRows[..n];
      SelectIdsMembers(fromMap, pre, id);
      if exists j :: 0 <= j < |toRows| && toRows[j].trainId == id && Qualifies(fromMap, toRows[j]) {
        var j :| 0 <= j < |toRows| && toRows[j].trainId == id && Qualifies(fromMap, toRows[j]);
        if j < n {
          assert pre[j] == toRows[j];
        }
      }
      if id in SelectIds(fromMap, pre) {
        var j :| 0 <= j < |pre| && pre[j].trainId == id && Qualifies(fromMap, pre[j]);
        assert toRows[j] == pre[j];
      }
    }
  }

  /** Train `id` has its last origin row at a smaller stop sequence than one of its destination rows. */
  ghost predicate IsThroughTrain(fromRows: seq<StopRef>, toRows: seq<StopRef>, id: int) {
    exists i, j :: LastRowAt(fromRows, id, i) && 0 <= j < |toRows| && toRows[j].trainId == id &&
      fromRows[i].stopSequence < toRows[j].stopSequence
  }

  /**
   * A selected train is a through train: it has a row at the origin
   * (its last one) whose stop sequence is below that of a row at the
   * destination.
   */
  lemma ThroughTrain(fromRows: seq<StopRef>, toRows: seq<StopRef>, id: int)
    requires id in SelectIds(FromTrainMap(fromRows), toRows)
    ensures IsThroughTrain(fromRows, toRows, id)
  {
    var fromMap := FromTrainMap(fromRows);
    SelectIdsMembers(fromMap, toRows, id);
    var j :| 0 <= j < |toRows| && toRows[j].trainId == id && Qualifies(fromMap, toRows[j]);
    FromTrainMapLast(fromRows, id);
    var i :| LastRowAt(fromRows, id, i) && fromMap[id] == fromRows[i].stopSequence;
    assert fromRows[i].stopSequence < toRows[j].stopSequence;
  }

  /** Python's `s[:limit]`: the first `limit` items, or all but the last `-limit` when `limit` is negative. */
  function PySliceTo(s: seq<int>, limit: int): (r: seq<int>)
    ensures |r| <= |s| && r == s[..|r|]
    ensures 0 <= limit ==> |r| <= limit && (limit < |s| ==> |r| == limit)
    ensures limit < 0 ==> |r| + -limit <= |s| || r == []
    ensures limit < 0 && -limit <= |s| ==> |r| + -limit == |s|
    ensures limit >= |s| ==> r == s
  {
    if limit >= 0 then
      if limit < |s| then s[..limit] else s
    else if |s| + limit > 0 then s[..|s| + limit]
    else []
  }

  /** The trains table query `.in_("id", ids)`: the rows whose id is listed, in table order. */
  function TrainsWithIds(trains: seq<TrainRow>, ids: seq<int>): seq<TrainRow> {
    if trains == [] then []
    else
      var n := |trains| - 1;
      TrainsWithIds(trains[..n], ids) + (if trains[n].id in ids then [trains[n]] else [])
  }

  /** The query returns exactly the table rows whose id is listed, and no more rows than the table has. */
  lemma {:induction false} TrainsWithIdsMembers(trains: seq<TrainRow>, ids: seq<int>, t: TrainRow)
    ensures t in TrainsWithIds(trains, ids) <==> t in trains && t.id in ids
    ensures |TrainsWithIds(trains, ids)| <= |trains|
  {
    if trains != [] {
      var n := |trains| - 1;
      TrainsWithIdsMembers(trains[..n], ids, t);
      assert trains == trains[..n] + [trains[n]];
    }
  }

  /**
   * `search_trains`: the direct rows when there are any; otherwise, when
   * some train qualifies, the table rows of the first `limit` selected
   * ids; otherwise nothing. Every row returned by the fallback is a
   * through train.
   */
  method SearchTrains(direct: seq<TrainRow>, fromRows: seq<StopRef>, toRows: seq<StopRef>,
                      trains: seq<TrainRow>, limit: int)
    returns (r: seq<TrainRow>)
    ensures direct != [] ==> r == direct
    ensures direct == [] ==> forall t :: t in r <==>
      t in trains && t.id in PySliceTo(SelectIds(FromTrainMap(fromRows), toRows), limit)
    ensures direct == [] ==> forall t :: t in r ==> IsThroughTrain(fromRows, toRows, t.id)
  {
    r := direct;
    if r == [] {
      var fromMap := FromTrainMap(fromRows);
      var ids := ValidTrainIds(fromMap, toRows);
      if ids != [] {
        var slice := PySliceTo(ids, limit);
        r := TrainsWithIds(trains, slice);
        forall t | t in r
          ensures IsThroughTrain(fromRows, toRows, t.id)
        {
          TrainsWithIdsMembers(trains, slice, t);
          assert t.id in ids;
          ThroughTrain(fromRows, toRows, t.id);
        }
        forall t
          ensures t in r <==> t in trains && t.id in slice
        {
          TrainsWithIdsMembers(trains, slice, t);
        }
      } else {
        assert PySliceTo(ids, limit) == [];
      }
    }
  }

  /**
   * Last row wins: train 7 stops at the origin as stop 1 and again as
   * stop 5, and at the destination as stop 3. Only the second origin row
   * is remembered, so the train is not selected.
   */
  lemma LastOriginRowWins()
    ensures SelectIds(FromTrainMap([StopRef(7, 1), StopRef(7, 5)]), [StopRef(7, 3)]) == []
  {
    var rows := [StopRef(7, 1), StopRef(7, 5)];
    assert rows[..1] == [StopRef(7, 1)];
    assert FromTrainMap(rows) == map[7 := 5];
    var to := [StopRef(7, 3)];
    assert to[..0] == [];
  }

  /** A train with two qualifying destination rows is selected twice. */
  lemma RepeatedDestinationRows()
    ensures SelectIds(FromTrainMap([StopRef(7, 1)]), [StopRef(7, 3), StopRef(7, 4)]) == [7, 7]
  {
    var rows := [StopRef(7, 1)];
    assert rows[..0] == [];
    assert FromTrainMap(rows) == map[7 := 1];
    var to := [StopRef(7, 3), StopRef(7, 4)];
    assert to[..1] == [StopRef(7, 3)];
    assert to[..1][..0] == [];
  }
}
