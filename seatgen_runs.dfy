/**
 * Seat generation for whole train runs (backend/app/services/seatgen.py,
 * generate_seats_for_runs and generate_seats_for_train_run): the rows of
 * every class of a train, the insert batches, the run totals, and the
 * rule that a run which already has seats is left alone.
 */
module SeatgenRuns {
  import opened Wrappers
  import opened SeqFacts
  import opened JsonValues
  import opened Seatgen

  // ---------------------------------------------------------------------
  // All rows of one run
  // ---------------------------------------------------------------------

  /** What `range()` accepts as a bound: an int, or a bool standing for 0 or 1. */
  function AsCount(v: Json): Option<int> {
    match v
    case JInt(i) => Some(i)
    case JBool(b) => Some(if b then 1 else 0)
    case _ => None
  }

  /**
   * The rows of one class of the table. The coach count must be an int;
   * the seats-per-coach value is only used, and so must only be an int,
   * when there is at least one coach.
   */
  function ClassRows(trainRunId: int, classCode: string, cfg: ClassConfig, distanceKm: Option<int>): (r: Result<seq<SeatRow>, SeatgenError>)
    ensures r.Err? ==> r.error == TypeError
  {
    match AsCount(cfg.coaches)
    case None => Err(TypeError)
    case Some(coaches) =>
      if coaches < 1 then Ok([])
      else
        match AsCount(cfg.seatsPerCoach)
        case None => Err(TypeError)
        case Some(seats) => Ok(ClassSeatRows(trainRunId, classCode, coaches, seats, distanceKm))
  }

  /** The rows of every class, concatenated in table order; the first failing class decides the error. */
  function TableRows(trainRunId: int, table: ClassTable, distanceKm: Option<int>): (r: Result<seq<SeatRow>, SeatgenError>)
    ensures r.Err? ==> r.error == TypeError
  {
    if table == [] then Ok([])
    else
      match TableRows(trainRunId, table[..|table| - 1], distanceKm)
      case Err(e) => Err(e)
      case Ok(pre) =>
        match ClassRows(trainRunId, table[|table| - 1].0, table[|table| - 1].1, distanceKm)
        case Err(e) => Err(e)
        case Ok(rows) => Ok(pre + rows)
  }

  /** The train row as the seat generator reads it. */
  datatype Train = Train(id: int, number: string, classes: Option<string>, distanceKm: Option<int>)

  /** All rows the generator builds for a run of `train`. */
  function RunPlan(trainRunId: int, train: Train, loads: string -> Option<Json>): (r: Result<seq<SeatRow>, SeatgenError>)
    ensures r.Err? ==> r.error == AttributeError || r.error == TypeError
  {
    match ClassesConfig(train.classes, loads)
    case Err(e) => Err(e)
    case Ok(table) => TableRows(trainRunId, table, train.distanceKm)
  }

  /** Number of rows a class yields: coaches × seats when there is at least one coach. */
  function ClassSize(cfg: ClassConfig): nat {
    match AsCount(cfg.coaches)
    case Some(coaches) =>
      if coaches >= 1 && AsCount(cfg.seatsPerCoach).Some? then coaches * Max0(AsCount(cfg.seatsPerCoach).value) else 0
    case None => 0
  }

  function TableSize(table: ClassTable): nat {
    if table == [] then 0 else TableSize(table[..|table| - 1]) + ClassSize(table[|table| - 1].1)
  }

  /**
   * A run's row count is the sum over its classes of max(0, coaches) ×
   * max(0, seats); the rows of class k come right after those of the
   * classes before it.
   */
  lemma {:induction false} TableRowsSize(trainRunId: int, table: ClassTable, distanceKm: Option<int>)
    requires TableRows(trainRunId, table, distanceKm).Ok?
    ensures |TableRows(trainRunId, table, distanceKm).value| == TableSize(table)
  {
    if table != [] {
      var last := table[|table| - 1];
      TableRowsSize(trainRunId, table[..|table| - 1], distanceKm);
      match AsCount(last.1.coaches)
      case Some(coaches) =>
        if coaches >= 1 {
          ClassSeatRowsShape(trainRunId, last.0, coaches, AsCount(last.1.seatsPerCoach).value, distanceKm);
        }
      case None =>
    }
  }

  /** Appending a class to the table appends its rows to the run's rows. */
  lemma TableRowsAppend(trainRunId: int, table: ClassTable, entry: (string, ClassConfig), distanceKm: Option<int>)
    ensures TableRows(trainRunId, table + [entry], distanceKm) ==
      match TableRows(trainRunId, table, distanceKm)
      case Err(e) => Err(e)
      case Ok(pre) =>
        match ClassRows(trainRunId, entry.0, entry.1, distanceKm)
        case Err(e) => Err(e)
        case Ok(rows) => Ok(pre + rows)
  {
    assert (table + [entry])[..|table|] == table;
  }

  /** Once a prefix of the table fails, the whole table fails with the same error. */
  lemma {:induction false} TableRowsErrorPersists(trainRunId: int, table: ClassTable, i: nat, distanceKm: Option<int>)
    requires i <= |table|
    requires TableRows(trainRunId, table[..i], distanceKm).Err?
    ensures TableRows(trainRunId, table, distanceKm) == TableRows(trainRunId, table[..i], distanceKm)
    decreases |table| - i
  {
    if i < |table| {
      assert table[..i + 1][..i] == table[..i];
      TableRowsErrorPersists(trainRunId, table, i + 1, distanceKm);
    } else {
      assert table[..i] == table;
    }
  }

  /** Every row of a class carries the run id and the class code, and its label starts with the class's coach prefix. */
  lemma ClassRowsLabels(trainRunId: int, classCode: string, cfg: ClassConfig, distanceKm: Option<int>)
    requires ClassRows(trainRunId, classCode, cfg, distanceKm).Ok?
    ensures var rows := ClassRows(trainRunId, classCode, cfg, distanceKm).value;
      forall i :: 0 <= i < |rows| ==>
        rows[i].trainRunId == trainRunId && rows[i].seatClass == classCode &&
        |rows[i].seatNumber| >= 1 && rows[i].seatNumber[0] == CoachPrefixOf(classCode)[0]
  {
    var coaches := AsCount(cfg.coaches).value;
    if coaches >= 1 {
      var seats := AsCount(cfg.seatsPerCoach).value;
      var rows := ClassSeatRows(trainRunId, classCode, coaches, seats, distanceKm);
      var ps := Positions(Max0(coaches), Max0(seats));
      CoachPrefixesDistinct(classCode, classCode);
      forall i | 0 <= i < |rows|
        ensures rows[i].trainRunId == trainRunId && rows[i].seatClass == classCode &&
          |rows[i].seatNumber| >= 1 && rows[i].seatNumber[0] == CoachPrefixOf(classCode)[0]
      {
        assert rows[i] == MakeSeat(trainRunId, classCode, CoachPrefixOf(classCode), SeatPrice(classCode, distanceKm), ps[i]);
        SeatLabelStartsWithPrefix(CoachPrefixOf(classCode), ps[i].0, ps[i].1);
      }
    }
  }

  /** Some class of the table has key `classCode`. */
  ghost predicate HasClass(table: ClassTable, classCode: string) {
    exists i :: 0 <= i < |table| && table[i].0 == classCode
  }

  /** The seat label starts with the first letter of the row's class prefix. */
  predicate LabelledByPrefix(r: SeatRow) {
    |r.seatNumber| >= 1 && r.seatNumber[0] == CoachPrefixOf(r.seatClass)[0]
  }

  /** Every row of a run carries the run id, belongs to one of its classes, and its label starts with that class's prefix. */
  lemma {:induction false} TableRowsClasses(trainRunId: int, table: ClassTable, distanceKm: Option<int>)
    requires TableRows(trainRunId, table, distanceKm).Ok?
    ensures var rows := TableRows(trainRunId, table, distanceKm).value;
      forall r :: r in rows ==> r.trainRunId == trainRunId && HasClass(table, r.seatClass) && LabelledByPrefix(r)
  {
    if table != [] {
      var pre := table[..|table| - 1];
      var last := table[|table| - 1];
      TableRowsClasses(trainRunId, pre, distanceKm);
      var rows := TableRows(trainRunId, table, distanceKm).value;
      var preRows := TableRows(trainRunId, pre, distanceKm).value;
      var lastRows := ClassRows(trainRunId, last.0, last.1, distanceKm).value;
      assert rows == preRows + lastRows;
      ClassRowsLabels(trainRunId, last.0, last.1, distanceKm);
      forall r | r in rows
        ensures r.trainRunId == trainRunId && HasClass(table, r.seatClass) && LabelledByPrefix(r)
      {
        var k :| 0 <= k < |rows| && rows[k] == r;
        if k < |preRows| {
          assert preRows[k] == r;
          assert HasClass(pre, r.seatClass);
          var i :| 0 <= i < |pre| && pre[i].0 == r.seatClass;
          assert table[i] == pre[i];
        } else {
          assert lastRows[k - |preRows|] == r;
          assert table[|table| - 1].0 == r.seatClass;
        }
      }
    }
  }

  /** No two rows share a seat number. */
  predicate SeatNumbersDistinct(rows: seq<SeatRow>) {
    forall i, j :: 0 <= i < j < |rows| ==> rows[i].seatNumber != rows[j].seatNumber
  }

  /**
   * Within one run, seat numbers are pairwise distinct provided the class
   * keys are distinct and at most one class lacks a coach prefix (all such
   * classes share the prefix "X").
   */
  lemma {:induction false} RunSeatNumbersDistinct(trainRunId: int, table: ClassTable, distanceKm: Option<int>)
    requires DistinctKeys(table) && PrefixedKeys(table)
    requires TableRows(trainRunId, table, distanceKm).Ok?
    ensures SeatNumbersDistinct(TableRows(trainRunId, table, distanceKm).value)
  {
    if table != [] {
      var pre := table[..|table| - 1];
      var last := table[|table| - 1];
      RunSeatNumbersDistinct(trainRunId, pre, distanceKm);
      var rows := TableRows(trainRunId, table, distanceKm).value;
      var preRows := TableRows(trainRunId, pre, distanceKm).value;
      var lastRows := ClassRows(trainRunId, last.0, last.1, distanceKm).value;
      assert rows == preRows + lastRows;
      ClassRowsDistinct(trainRunId, last.0, last.1, distanceKm);
      CrossClassDistinct(trainRunId, table, distanceKm);
      ConcatDistinct(preRows, lastRows);
    }
  }

  /** Two label-distinct row lists with no label in common concatenate to a label-distinct list. */
  lemma ConcatDistinct(a: seq<SeatRow>, b: seq<SeatRow>)
    requires forall i, j :: 0 <= i < j < |a| ==> a[i].seatNumber != a[j].seatNumber
    requires forall i, j :: 0 <= i < j < |b| ==> b[i].seatNumber != b[j].seatNumber
    requires forall i, j :: 0 <= i < |a| && 0 <= j < |b| ==> a[i].seatNumber != b[j].seatNumber
    ensures var c := a + b;
      forall i, j :: 0 <= i < j < |c| ==> c[i].seatNumber != c[j].seatNumber
  {
    var c := a + b;
    forall i, j | 0 <= i < j < |c| ensures c[i].seatNumber != c[j].seatNumber {
      if j < |a| {
        assert c[i] == a[i] && c[j] == a[j];
      } else if i >= |a| {
        assert c[i] == b[i - |a|] && c[j] == b[j - |a|];
      } else {
        assert c[i] == a[i] && c[j] == b[j - |a|];
      }
    }
  }

  lemma ClassRowsDistinct(trainRunId: int, classCode: string, cfg: ClassConfig, distanceKm: Option<int>)
    requires ClassRows(trainRunId, classCode, cfg, distanceKm).Ok?
    ensures var rows := ClassRows(trainRunId, classCode, cfg, distanceKm).value;
      forall i, j :: 0 <= i < j < |rows| ==> rows[i].seatNumber != rows[j].seatNumber
  {
    var coaches := AsCount(cfg.coaches).value;
    if coaches >= 1 {
      ClassSeatNumbersDistinct(trainRunId, classCode, coaches, AsCount(cfg.seatsPerCoach).value, distanceKm);
    }
  }

  /** A row of an earlier class and a row of the last class never share a seat number. */
  lemma CrossClassDistinct(trainRunId: int, table: ClassTable, distanceKm: Option<int>)
    requires table != []
    requires DistinctKeys(table) && PrefixedKeys(table)
    requires TableRows(trainRunId, table, distanceKm).Ok?
    ensures var pre := table[..|table| - 1];
      var last := table[|table| - 1];
      var preRows := TableRows(trainRunId, pre, distanceKm).value;
      var lastRows := ClassRows(trainRunId, last.0, last.1, distanceKm).value;
      forall i, j :: 0 <= i < |preRows| && 0 <= j < |lastRows| ==> preRows[i].seatNumber != lastRows[j].seatNumber
  {
    var pre := table[..|table| - 1];
    var last := table[|table| - 1];
    var preRows := TableRows(trainRunId, pre, distanceKm).value;
    var lastRows := ClassRows(trainRunId, last.0, last.1, distanceKm).value;
    TableRowsClasses(trainRunId, pre, distanceKm);
    ClassRowsLabels(trainRunId, last.0, last.1, distanceKm);
    forall i, j | 0 <= i < |preRows| && 0 <= j < |lastRows|
      ensures preRows[i].seatNumber != lastRows[j].seatNumber
    {
      var x := preRows[i];
      assert x in preRows;
      assert HasClass(pre, x.seatClass) && LabelledByPrefix(x);
      var k :| 0 <= k < |pre| && pre[k].0 == x.seatClass;
      assert table[k] == pre[k];
      CoachPrefixesDistinct(x.seatClass, last.0);
    }
  }

  /**
   * A classes text decoding to {a: 1, b: 1} for two classes without a coach
   * prefix: each gets one coach of 72 seats labelled with "X", so seat 1 of
   * coach 1 is "X1-1" in both, and with a positive batch size the unique key
   * refuses the run's rows.
   */
  lemma UnprefixedClassesCollide(run: (TrainRun, Train), a: string, b: string, batchSize: int,
      loads: string -> Option<Json>)
    requires a != b && a !in CoachPrefix && b !in CoachPrefix
    requires run.1.classes.Some? && run.1.classes.value != []
    requires loads(run.1.classes.value) == Some(JObject([(a, JInt(1)), (b, JInt(1))]))
    ensures var r := RunPlan(run.0.id, run.1, loads);
      && r.Ok? && |r.value| == 144
      && r.value[0].seatNumber == r.value[72].seatNumber == "X1-1"
      && !SeatNumbersDistinct(r.value)
    ensures batchSize > 0 ==> RunFailure(run, batchSize, loads) == Some(IntegrityError)
  {
    var id := run.0.id;
    var d := run.1.distanceKm;
    var n := DefaultSeats(a);
    assert n == 72 && DefaultSeats(b) == 72;
    PairPlan(run, a, b, loads);
    var aRows := ClassSeatRows(id, a, 1, n, d);
    var bRows := ClassSeatRows(id, b, 1, n, d);
    OneCoachFirstSeat(id, a, n, d);
    OneCoachFirstSeat(id, b, n, d);
    var rows := aRows + bRows;
    assert CoachPrefixOf(a) == CoachPrefixOf(b) == "X";
    assert rows[0] == aRows[0] && rows[n] == bRows[0];
    assert rows[0].seatNumber == rows[n].seatNumber == "X1-1";
  }

  /** The rows of a run whose classes text decodes to {a: 1, b: 1}. */
  lemma PairPlan(run: (TrainRun, Train), a: string, b: string, loads: string -> Option<Json>)
    requires run.1.classes.Some? && run.1.classes.value != []
    requires loads(run.1.classes.value) == Some(JObject([(a, JInt(1)), (b, JInt(1))]))
    ensures RunPlan(run.0.id, run.1, loads) ==
      Ok(ClassSeatRows(run.0.id, a, 1, DefaultSeats(a), run.1.distanceKm) +
         ClassSeatRows(run.0.id, b, 1, DefaultSeats(b), run.1.distanceKm))
  {
    var ea := (a, ClassConfig(JInt(1), JInt(DefaultSeats(a))));
    var eb := (b, ClassConfig(JInt(1), JInt(DefaultSeats(b))));
    PairTable(a, b);
    TableRowsPair(run.0.id, ea, eb, run.1.distanceKm);
  }

  /** The dict {a: 1, b: 1} normalises to one coach of each class's default size. */
  lemma PairTable(a: string, b: string)
    ensures Normalize([(a, JInt(1)), (b, JInt(1))]) ==
      [(a, ClassConfig(JInt(1), JInt(DefaultSeats(a)))), (b, ClassConfig(JInt(1), JInt(DefaultSeats(b))))]
  {
    var items := [(a, JInt(1)), (b, JInt(1))];
    assert items[..1] == [items[0]];
    assert [items[0]][..0] == [];
    assert Normalize(items[..1]) == [(a, ClassConfig(JInt(1), JInt(DefaultSeats(a))))];
  }

  /** One coach of n seats: n rows, the first labelled with the class prefix and "1-1". */
  lemma OneCoachFirstSeat(trainRunId: int, classCode: string, n: nat, distanceKm: Option<int>)
    requires n >= 1
    ensures var rows := ClassSeatRows(trainRunId, classCode, 1, n, distanceKm);
      |rows| == n && rows[0].seatNumber == CoachPrefixOf(classCode) + "1-1"
  {
    PositionsLength(1, n);
    ClassSeatRowAt(trainRunId, classCode, 1, n, distanceKm, 1, 1);
    assert Decimal.NatToString(1) == "1";
  }

  /** The classes text {"FOO": 1, "BAR": 1}: two unknown classes whose seat numbers collide. */
  lemma TwoUnknownClassesCollide(run: (TrainRun, Train), batchSize: int, loads: string -> Option<Json>)
    requires run.1.classes.Some? && run.1.classes.value != []
    requires loads(run.1.classes.value) == Some(JObject([("FOO", JInt(1)), ("BAR", JInt(1))]))
    ensures var r := RunPlan(run.0.id, run.1, loads);
      && r.Ok? && |r.value| == 144 && r.value[0].seatNumber == r.value[72].seatNumber == "X1-1"
    ensures batchSize > 0 ==> RunFailure(run, batchSize, loads) == Some(IntegrityError)
  {
    UnprefixedClassesCollide(run, "FOO", "BAR", batchSize, loads);
  }

  /**
   * The rules of one class: a coach count that is neither an int nor a
   * bool raises TypeError; fewer than one coach gives no rows whatever the
   * seat count is; with at least one coach, a seat count that is neither an
   * int nor a bool raises TypeError. A bool counts as 1 or 0, and a class
   * that builds has as many rows as ClassSize says.
   */
  lemma ClassRowsRules(trainRunId: int, classCode: string, cfg: ClassConfig, distanceKm: Option<int>)
    ensures AsCount(JBool(true)) == Some(1) && AsCount(JBool(false)) == Some(0)
    ensures var r := ClassRows(trainRunId, classCode, cfg, distanceKm);
      && (!(cfg.coaches.JInt? || cfg.coaches.JBool?) ==> r == Err(TypeError))
      && (AsCount(cfg.coaches).Some? && AsCount(cfg.coaches).value < 1 ==> r == Ok([]))
      && (AsCount(cfg.coaches).Some? && AsCount(cfg.coaches).value >= 1 ==>
            (r.Err? <==> !(cfg.seatsPerCoach.JInt? || cfg.seatsPerCoach.JBool?)))
      && (r.Err? ==> r.error == TypeError)
      && (r.Ok? ==> |r.value| == ClassSize(cfg))
  {
    var coaches := AsCount(cfg.coaches);
    var seats := AsCount(cfg.seatsPerCoach);
    if coaches.Some? && coaches.value >= 1 && seats.Some? {
      ClassSeatRowsShape(trainRunId, classCode, coaches.value, seats.value, distanceKm);
    }
  }

  /**
   * The seat generation smoke test: a train with one SL coach of 10 seats
   * and one 3A coach of 5 seats gets 15 seats, the first 10 in coach S1 of
   * class SL and the last 5 in coach A1 of class 3A.
   */
  lemma SmokeTestFifteenSeats(trainRunId: int, text: string, loads: string -> Option<Json>)
    requires text != []
    requires loads(text) == Some(SmokeClasses())
    ensures var r := RunPlan(trainRunId, Train(1, "12345", Some(text), Some(500)), loads);
      && r.Ok? && |r.value| == 15
      && (forall i :: 0 <= i < 10 ==> r.value[i].seatClass == "SL" && r.value[i].coachNumber == "S1")
      && (forall i :: 10 <= i < 15 ==> r.value[i].seatClass == "3A" && r.value[i].coachNumber == "A1")
  {
    SmokePlan(trainRunId, text, loads);
    SmokeRows(trainRunId);
  }

  /** The rows of one 10-seat SL coach followed by one 5-seat 3A coach. */
  lemma SmokeRows(trainRunId: int)
    ensures var rows := ClassSeatRows(trainRunId, "SL", 1, 10, Some(500)) + ClassSeatRows(trainRunId, "3A", 1, 5, Some(500));
      && |rows| == 15
      && (forall i :: 0 <= i < 10 ==> rows[i].seatClass == "SL" && rows[i].coachNumber == "S1")
      && (forall i :: 10 <= i < 15 ==> rows[i].seatClass == "3A" && rows[i].coachNumber == "A1")
  {
    var sl := ClassSeatRows(trainRunId, "SL", 1, 10, Some(500));
    var ac := ClassSeatRows(trainRunId, "3A", 1, 5, Some(500));
    SmokeClassRows(trainRunId, "SL", 10);
    SmokeClassRows(trainRunId, "3A", 5);
    assert CoachPrefixOf("SL") + "1" == "S1";
    assert CoachPrefixOf("3A") + "1" == "A1";
    var rows := sl + ac;
    forall i | 0 <= i < 10
      ensures rows[i].seatClass == "SL" && rows[i].coachNumber == "S1"
    {
      assert rows[i] == sl[i];
    }
    forall i | 10 <= i < 15
      ensures rows[i].seatClass == "3A" && rows[i].coachNumber == "A1"
    {
      assert rows[i] == ac[i - 10];
    }
  }

  lemma SmokePlan(trainRunId: int, text: string, loads: string -> Option<Json>)
    requires text != []
    requires loads(text) == Some(SmokeClasses())
    ensures RunPlan(trainRunId, Train(1, "12345", Some(text), Some(500)), loads) ==
      Ok(ClassSeatRows(trainRunId, "SL", 1, 10, Some(500)) + ClassSeatRows(trainRunId, "3A", 1, 5, Some(500)))
  {
    SmokeTable();
    TableRowsPair(trainRunId, ("SL", ClassConfig(JInt(1), JInt(10))), ("3A", ClassConfig(JInt(1), JInt(5))), Some(500));
  }

  lemma TableRowsPair(trainRunId: int, first: (string, ClassConfig), second: (string, ClassConfig), distanceKm: Option<int>)
    requires ClassRows(trainRunId, first.0, first.1, distanceKm).Ok?
    requires ClassRows(trainRunId, second.0, second.1, distanceKm).Ok?
    ensures TableRows(trainRunId, [first, second], distanceKm) ==
      Ok(ClassRows(trainRunId, first.0, first.1, distanceKm).value + ClassRows(trainRunId, second.0, second.1, distanceKm).value)
  {
    var r1 := ClassRows(trainRunId, first.0, first.1, distanceKm).value;
    var r2 := ClassRows(trainRunId, second.0, second.1, distanceKm).value;
    assert TableRows(trainRunId, [], distanceKm) == Ok([]);
    TableRowsAppend(trainRunId, [], first, distanceKm);
    assert [] + [first] == [first];
    assert TableRows(trainRunId, [first], distanceKm) == Ok([] + r1);
    assert [] + r1 == r1;
    TableRowsAppend(trainRunId, [first], second, distanceKm);
    assert [first] + [second] == [first, second];
  }

  /** The classes text of the smoke test's train, as JSON. */
  function SmokeClasses(): Json {
    JObject([
      ("SL", JObject([("coaches", JInt(1)), ("seats_per_coach", JInt(10))])),
      ("3A", JObject([("coaches", JInt(1)), ("seats_per_coach", JInt(5))]))])
  }

  lemma SmokeTable()
    ensures Normalize(SmokeClasses().members) == [("SL", ClassConfig(JInt(1), JInt(10))), ("3A", ClassConfig(JInt(1), JInt(5)))]
  {
    var items := SmokeClasses().members;
    assert items[..1] == [items[0]];
    assert [items[0]][..0] == [];
    var sl := items[0].1.members;
    var ac := items[1].1.members;
    assert sl[1..][0] == ("seats_per_coach", JInt(10));
    assert Get(sl, "seats_per_coach") == Some(JInt(10));
    assert ac[1..][0] == ("seats_per_coach", JInt(5));
    assert Get(ac, "seats_per_coach") == Some(JInt(5));
    assert Normalize(items[..1]) == [("SL", ClassConfig(JInt(1), JInt(10)))];
  }

  /** One coach of `n` seats: every row is in coach 1 of the class, named with its prefix. */
  lemma SmokeClassRows(trainRunId: int, classCode: string, n: nat)
    requires 1 <= n
    ensures var rows := ClassSeatRows(trainRunId, classCode, 1, n, Some(500));
      |rows| == n &&
      forall i :: 0 <= i < n ==> rows[i].seatClass == classCode && rows[i].coachNumber == CoachPrefixOf(classCode) + "1"
  {
    var rows := ClassSeatRows(trainRunId, classCode, 1, n, Some(500));
    ClassSeatRowsShape(trainRunId, classCode, 1, n, Some(500));
    assert Decimal.NatToString(1) == "1";
    forall i | 0 <= i < n
      ensures rows[i].seatClass == classCode && rows[i].coachNumber == CoachPrefixOf(classCode) + "1"
    {
      assert (1 - 1) * n + (i + 1 - 1) == i;
      assert rows[i] == MakeSeat(trainRunId, classCode, CoachPrefixOf(classCode), SeatPrice(classCode, Some(500)), (1, i + 1));
    }
  }

  // ---------------------------------------------------------------------
  // Insert batches
  // ---------------------------------------------------------------------

  function Min(a: int, b: int): int { if a < b then a else b }

  /** The slices `s[i:i + size]` for i = from, from + size, ... below |s|. */
  function Chunks<T>(s: seq<T>, size: nat, from: nat): seq<seq<T>>
    requires size > 0
    decreases |s| - from
  {
    if from >= |s| then [] else [s[from..Min(from + size, |s|)]] + Chunks(s, size, from + size)
  }

  function Flatten<T>(xs: seq<seq<T>>): seq<T> {
    if xs == [] then [] else xs[0] + Flatten(xs[1..])
  }

  lemma {:induction false} FlattenAppend<T>(xs: seq<seq<T>>, ys: seq<seq<T>>)
    ensures Flatten(xs + ys) == Flatten(xs) + Flatten(ys)
  {
    if xs == [] {
      assert xs + ys == ys;
    } else {
      assert (xs + ys)[0] == xs[0];
      assert (xs + ys)[1..] == xs[1..] + ys;
      FlattenAppend(xs[1..], ys);
    }
  }

  /**
   * The batches are consecutive slices of at most `size` rows, none empty,
   * all but the last exactly `size` long, and together they are exactly the
   * rows they were cut from.
   */
  lemma {:induction false} ChunksPartition<T>(s: seq<T>, size: nat, from: nat)
    requires size > 0 && from <= |s|
    ensures Flatten(Chunks(s, size, from)) == s[from..]
    ensures forall k :: 0 <= k < |Chunks(s, size, from)| ==> 0 < |Chunks(s, size, from)[k]| <= size
    ensures forall k :: 0 <= k < |Chunks(s, size, from)| - 1 ==> |Chunks(s, size, from)[k]| == size
    decreases |s| - from
  {
    if from < |s| {
      var next := Min(from + size, |s|);
      ChunksPartition(s, size, next);
      if next < from + size {
        assert Chunks(s, size, from + size) == [];
      }
      assert s[from..] == s[from..next] + s[next..];
    }
  }

  /** The unique key uq_seat_number of the seats table. */
  function SeatKey(r: SeatRow): (int, string) {
    (r.trainRunId, r.seatNumber)
  }

  /**
   * The unique key lets `rows` be inserted into `seats`: no new row has the
   * key of a row already there or of another new row.
   */
  predicate Admits(seats: seq<SeatRow>, rows: seq<SeatRow>) {
    && (forall i, j :: 0 <= i < |seats| && 0 <= j < |rows| ==> SeatKey(seats[i]) != SeatKey(rows[j]))
    && (forall i, j :: 0 <= i < j < |rows| ==> SeatKey(rows[i]) != SeatKey(rows[j]))
  }

  /** Inserting `a + b` at once is let through exactly when inserting `a` and then `b` is. */
  lemma AdmitsAppend(seats: seq<SeatRow>, a: seq<SeatRow>, b: seq<SeatRow>)
    ensures Admits(seats, a + b) <==> Admits(seats, a) && Admits(seats + a, b)
  {
    if Admits(seats, a + b) {
      AdmitsSplit(seats, a, b);
    }
    if Admits(seats, a) && Admits(seats + a, b) {
      AdmitsJoin(seats, a, b);
    }
  }

  lemma AdmitsSplit(seats: seq<SeatRow>, a: seq<SeatRow>, b: seq<SeatRow>)
    requires Admits(seats, a + b)
    ensures Admits(seats, a) && Admits(seats + a, b)
  {
    var c := a + b;
    var sa := seats + a;
    forall i, j | 0 <= i < |seats| && 0 <= j < |a| ensures SeatKey(seats[i]) != SeatKey(a[j]) {
      assert a[j] == c[j];
    }
    forall i, j | 0 <= i < j < |a| ensures SeatKey(a[i]) != SeatKey(a[j]) {
      assert a[i] == c[i] && a[j] == c[j];
    }
    forall i, j | 0 <= i < |sa| && 0 <= j < |b| ensures SeatKey(sa[i]) != SeatKey(b[j]) {
      assert b[j] == c[|a| + j];
      if i < |seats| {
        assert sa[i] == seats[i];
      } else {
        assert sa[i] == c[i - |seats|];
      }
    }
    forall i, j | 0 <= i < j < |b| ensures SeatKey(b[i]) != SeatKey(b[j]) {
      assert b[i] == c[|a| + i] && b[j] == c[|a| + j];
    }
  }

  lemma AdmitsJoin(seats: seq<SeatRow>, a: seq<SeatRow>, b: seq<SeatRow>)
    requires Admits(seats, a) && Admits(seats + a, b)
    ensures Admits(seats, a + b)
  {
    var c := a + b;
    var sa := seats + a;
    forall i, j | 0 <= i < |seats| && 0 <= j < |c| ensures SeatKey(seats[i]) != SeatKey(c[j]) {
      if j < |a| {
        assert c[j] == a[j];
      } else {
        assert c[j] == b[j - |a|] && sa[i] == seats[i];
      }
    }
    forall i, j | 0 <= i < j < |c| ensures SeatKey(c[i]) != SeatKey(c[j]) {
      if j < |a| {
        assert c[i] == a[i] && c[j] == a[j];
      } else if i >= |a| {
        assert c[i] == b[i - |a|] && c[j] == b[j - |a|];
      } else {
        assert c[i] == a[i] == sa[|seats| + i] && c[j] == b[j - |a|];
      }
    }
  }

  /**
   * How many of `batches`, inserted one after the other on top of `seats`,
   * the unique key lets through before it refuses one.
   */
  function Accepted(seats: seq<SeatRow>, batches: seq<seq<SeatRow>>): (n: nat)
    ensures n <= |batches|
    decreases |batches|
  {
    if batches == [] || !Admits(seats, batches[0]) then 0
    else 1 + Accepted(seats + batches[0], batches[1..])
  }

  lemma AcceptedCons(seats: seq<SeatRow>, batch: seq<SeatRow>, rest: seq<seq<SeatRow>>)
    ensures Accepted(seats, [batch] + rest) == if Admits(seats, batch) then 1 + Accepted(seats + batch, rest) else 0
  {
    assert ([batch] + rest)[1..] == rest;
  }

  lemma FlattenSnoc<T>(xs: seq<seq<T>>, x: seq<T>)
    ensures Flatten(xs + [x]) == Flatten(xs) + x
  {
    FlattenAppend(xs, [x]);
    assert Flatten([x]) == x + Flatten<T>([]);
  }

  /** Every batch is let through exactly when all their rows together could be inserted at once. */
  lemma {:induction false} AcceptedAll(seats: seq<SeatRow>, batches: seq<seq<SeatRow>>)
    ensures Accepted(seats, batches) == |batches| <==> Admits(seats, Flatten(batches))
    decreases |batches|
  {
    if batches != [] {
      AcceptedAll(seats + batches[0], batches[1..]);
      AdmitsAppend(seats, batches[0], Flatten(batches[1..]));
    }
  }

  /** The seats table as the session sees it, and the insert statements that took effect. */
  class SeatSession {
    var seats: seq<SeatRow>
    var statements: seq<seq<SeatRow>>

    constructor (seats: seq<SeatRow>)
      ensures this.seats == seats && statements == []
    {
      this.seats := seats;
      statements := [];
    }

    /**
     * `session.execute(insert(Seat).values(rows))`: the statement takes
     * effect when the unique key admits the rows (ok), and otherwise it
     * raises IntegrityError and changes nothing.
     */
    method Insert(rows: seq<SeatRow>) returns (ok: bool)
      modifies this
      ensures ok == Admits(old(seats), rows)
      ensures ok ==> seats == old(seats) + rows && statements == old(statements) + [rows]
      ensures !ok ==> unchanged(this)
    {
      ok := Admits(seats, rows);
      if ok {
        seats := seats + rows;
        statements := statements + [rows];
      }
    }
  }

  /**
   * `for i in range(0, len(all_seats), batch_size)`: one insert per batch.
   * A batch size of 0 raises ValueError and a negative one inserts nothing.
   * With a positive size the batches take effect in order until the unique
   * key refuses one, which raises IntegrityError; the earlier ones stay.
   */
  method InsertBatches(session: SeatSession, allSeats: seq<SeatRow>, batchSize: int) returns (err: Option<SeatgenError>)
    modifies session
    ensures batchSize == 0 ==> err == Some(ValueError)
    ensures batchSize < 0 ==> err.None?
    ensures batchSize <= 0 ==> session.statements == old(session.statements) && session.seats == old(session.seats)
    ensures batchSize > 0 ==>
      var chunks := Chunks(allSeats, batchSize, 0);
      var n := Accepted(old(session.seats), chunks);
      && (err.None? <==> n == |chunks|)
      && (err.Some? ==> err == Some(IntegrityError))
      && session.statements == old(session.statements) + chunks[..n]
      && session.seats == old(session.seats) + Flatten(chunks[..n])
  {
    if batchSize == 0 {
      return Some(ValueError);
    }
    if batchSize < 0 {
      return None;
    }
    ghost var issued: seq<seq<SeatRow>> := [];
    BatchesStart(allSeats, batchSize, session.seats, session.statements);
    var i := 0;
    while i < |allSeats|
      invariant 0 <= i
      invariant BatchesDone(session.seats, session.statements, allSeats, batchSize, i, issued,
        old(session.seats), old(session.statements))
    {
      var ok;
      ok, issued := InsertBatchAt(session, allSeats, batchSize, i, issued, old(session.seats), old(session.statements));
      if !ok {
        return Some(IntegrityError);
      }
      i := i + batchSize;
    }
    BatchesFinished(session.seats, session.statements, allSeats, batchSize, i, issued,
      old(session.seats), old(session.statements));
    return None;
  }

  /**
   * One pass of the batch loop: insert `all_seats[i:i + batch_size]`. When
   * the key admits it the loop goes on; otherwise the batches that took
   * effect are the ones the key admits of all.
   */
  method InsertBatchAt(session: SeatSession, allSeats: seq<SeatRow>, batchSize: int, i: nat,
      ghost issued: seq<seq<SeatRow>>, ghost seats0: seq<SeatRow>, ghost statements0: seq<seq<SeatRow>>)
    returns (ok: bool, ghost issued': seq<seq<SeatRow>>)
    requires batchSize > 0 && i < |allSeats|
    requires BatchesDone(session.seats, session.statements, allSeats, batchSize, i, issued, seats0, statements0)
    modifies session
    ensures ok ==> BatchesDone(session.seats, session.statements, allSeats, batchSize, i + batchSize, issued', seats0, statements0)
    ensures !ok ==>
      var chunks := Chunks(allSeats, batchSize, 0);
      var n := Accepted(seats0, chunks);
      && n < |chunks|
      && session.statements == statements0 + chunks[..n]
      && session.seats == seats0 + Flatten(chunks[..n])
  {
    var batch := allSeats[i..Min(i + batchSize, |allSeats|)];
    ghost var before, logged := session.seats, session.statements;
    ok := session.Insert(batch);
    if !ok {
      BatchRefused(before, logged, allSeats, batchSize, i, issued, seats0, statements0);
      issued' := issued;
      return;
    }
    BatchAdmitted(before, logged, allSeats, batchSize, i, issued, seats0, statements0);
    issued' := issued + [batch];
  }

  /** Before the loop no batch has taken effect. */
  lemma BatchesStart(allSeats: seq<SeatRow>, batchSize: int, seats0: seq<SeatRow>, statements0: seq<seq<SeatRow>>)
    requires batchSize > 0
    ensures BatchesDone(seats0, statements0, allSeats, batchSize, 0, [], seats0, statements0)
  {
    assert Flatten<SeatRow>([]) == [];
  }

  /** When the loop runs out of rows, every batch has taken effect. */
  lemma BatchesFinished(seats: seq<SeatRow>, statements: seq<seq<SeatRow>>, allSeats: seq<SeatRow>, batchSize: int, i: nat,
      issued: seq<seq<SeatRow>>, seats0: seq<SeatRow>, statements0: seq<seq<SeatRow>>)
    requires batchSize > 0 && i >= |allSeats|
    requires BatchesDone(seats, statements, allSeats, batchSize, i, issued, seats0, statements0)
    ensures var chunks := Chunks(allSeats, batchSize, 0);
      && Accepted(seats0, chunks) == |chunks|
      && statements == statements0 + chunks[..|chunks|]
      && seats == seats0 + Flatten(chunks[..|chunks|])
  {
    assert Chunks(allSeats, batchSize, i) == [];
    assert issued == Chunks(allSeats, batchSize, 0);
    assert issued[..|issued|] == issued;
  }

  /**
   * The batch loop after the batches before row `i` took effect: they are
   * `issued`, the first batches of all, and the table and statement log
   * `seats` and `statements` hold them on top of `seats0` and
   * `statements0`; the key admits as many of all batches as it admitted of
   * those plus what it admits of the rest.
   */
  ghost predicate BatchesDone(seats: seq<SeatRow>, statements: seq<seq<SeatRow>>, allSeats: seq<SeatRow>,
      batchSize: int, i: nat, issued: seq<seq<SeatRow>>, seats0: seq<SeatRow>, statements0: seq<seq<SeatRow>>)
    requires batchSize > 0
  {
    && issued + Chunks(allSeats, batchSize, i) == Chunks(allSeats, batchSize, 0)
    && Accepted(seats0, Chunks(allSeats, batchSize, 0)) == |issued| + Accepted(seats, Chunks(allSeats, batchSize, i))
    && statements == statements0 + issued
    && seats == seats0 + Flatten(issued)
  }

  /** A batch the key admits extends the batches that took effect by one. */
  lemma BatchAdmitted(seats: seq<SeatRow>, statements: seq<seq<SeatRow>>, allSeats: seq<SeatRow>, batchSize: int, i: nat,
      issued: seq<seq<SeatRow>>, seats0: seq<SeatRow>, statements0: seq<seq<SeatRow>>)
    requires batchSize > 0 && i < |allSeats|
    requires BatchesDone(seats, statements, allSeats, batchSize, i, issued, seats0, statements0)
    requires Admits(seats, allSeats[i..Min(i + batchSize, |allSeats|)])
    ensures var batch := allSeats[i..Min(i + batchSize, |allSeats|)];
      BatchesDone(seats + batch, statements + [batch], allSeats, batchSize, i + batchSize, issued + [batch], seats0, statements0)
  {
    var batch := allSeats[i..Min(i + batchSize, |allSeats|)];
    var rest := Chunks(allSeats, batchSize, i + batchSize);
    assert Chunks(allSeats, batchSize, i) == [batch] + rest;
    assert issued + [batch] + rest == Chunks(allSeats, batchSize, 0) by {
      AppendAssoc(issued, [batch], rest);
    }
    assert Accepted(seats, [batch] + rest) == 1 + Accepted(seats + batch, rest) by {
      AcceptedCons(seats, batch, rest);
    }
    assert seats + batch == seats0 + Flatten(issued + [batch]) by {
      FlattenSnoc(issued, batch);
      AppendAssoc(seats0, Flatten(issued), batch);
    }
    assert statements + [batch] == statements0 + (issued + [batch]) by {
      AppendAssoc(statements0, issued, [batch]);
    }
  }

  /** A batch the key refuses ends the loop with the batches the key admits of all. */
  lemma BatchRefused(seats: seq<SeatRow>, statements: seq<seq<SeatRow>>, allSeats: seq<SeatRow>, batchSize: int, i: nat,
      issued: seq<seq<SeatRow>>, seats0: seq<SeatRow>, statements0: seq<seq<SeatRow>>)
    requires batchSize > 0 && i < |allSeats|
    requires BatchesDone(seats, statements, allSeats, batchSize, i, issued, seats0, statements0)
    requires !Admits(seats, allSeats[i..Min(i + batchSize, |allSeats|)])
    ensures var chunks := Chunks(allSeats, batchSize, 0);
      var n := Accepted(seats0, chunks);
      && n < |chunks|
      && statements == statements0 + chunks[..n]
      && seats == seats0 + Flatten(chunks[..n])
  {
    var batch := allSeats[i..Min(i + batchSize, |allSeats|)];
    var rest := Chunks(allSeats, batchSize, i + batchSize);
    assert Chunks(allSeats, batchSize, i) == [batch] + rest;
    AcceptedCons(seats, batch, rest);
    assert Chunks(allSeats, batchSize, 0)[..|issued|] == issued;
  }

  // ---------------------------------------------------------------------
  // Train runs
  // ---------------------------------------------------------------------

  /** A dated run of a train; the generator updates its seat totals in place. */
  class TrainRun {
    const id: int
    const trainId: int
    var totalSeats: int
    var availableSeats: int

    constructor (id: int, trainId: int)
      ensures this.id == id && this.trainId == trainId && totalSeats == 0 && availableSeats == 0
    {
      this.id := id;
      this.trainId := trainId;
      totalSeats := 0;
      availableSeats := 0;
    }
  }

  datatype Stats = Stats(runsProcessed: nat, seatsCreated: nat, trainsProcessed: nat)

  /** `count(Seat.id) where train_run_id = runId` */
  function CountSeats(seats: seq<SeatRow>, runId: int): nat {
    if seats == [] then 0
    else CountSeats(seats[..|seats| - 1], runId) + (if seats[|seats| - 1].trainRunId == runId then 1 else 0)
  }

  /** The run query's filter: no seats yet, and of a listed train when a non-empty list is given. */
  predicate NeedsSeats(run: TrainRun, seats: seq<SeatRow>, trainIds: Option<seq<int>>) {
    CountSeats(seats, run.id) == 0 && (trainIds.None? || trainIds.value == [] || run.trainId in trainIds.value)
  }

  /** The runs the query returns, from the runs of the date window, in their order. */
  function RunsNeedingSeats(candidates: seq<(TrainRun, Train)>, seats: seq<SeatRow>, trainIds: Option<seq<int>>): seq<(TrainRun, Train)> {
    if candidates == [] then []
    else
      var last := candidates[|candidates| - 1];
      RunsNeedingSeats(candidates[..|candidates| - 1], seats, trainIds) + (if NeedsSeats(last.0, seats, trainIds) then [last] else [])
  }

  /** The selected runs are exactly the candidates that need seats, in candidate order. */
  lemma {:induction false} RunsNeedingSeatsMembers(candidates: seq<(TrainRun, Train)>, seats: seq<SeatRow>, trainIds: Option<seq<int>>)
    ensures forall x :: x in RunsNeedingSeats(candidates, seats, trainIds) ==> x in candidates && NeedsSeats(x.0, seats, trainIds)
    ensures forall x :: x in candidates && NeedsSeats(x.0, seats, trainIds) ==> x in RunsNeedingSeats(candidates, seats, trainIds)
    ensures |RunsNeedingSeats(candidates, seats, trainIds)| <= |candidates|
  {
    if candidates != [] {
      RunsNeedingSeatsMembers(candidates[..|candidates| - 1], seats, trainIds);
      assert candidates == candidates[..|candidates| - 1] + [candidates[|candidates| - 1]];
    }
  }

  /** No selected run has seats yet. */
  lemma RunsNeedingSeatsFresh(candidates: seq<(TrainRun, Train)>, seats: seq<SeatRow>, trainIds: Option<seq<int>>)
    ensures var runs := RunsNeedingSeats(candidates, seats, trainIds);
      forall j :: 0 <= j < |runs| ==> CountSeats(seats, runs[j].0.id) == 0
  {
    var runs := RunsNeedingSeats(candidates, seats, trainIds);
    RunsNeedingSeatsMembers(candidates, seats, trainIds);
    assert forall j :: 0 <= j < |runs| ==> runs[j] in runs;
  }

  lemma RunsNeedingSeatsObjects(candidates: seq<(TrainRun, Train)>, seats: seq<SeatRow>, trainIds: Option<seq<int>>)
    ensures RunObjects(RunsNeedingSeats(candidates, seats, trainIds)) <= RunObjects(candidates)
  {
    var runs := RunsNeedingSeats(candidates, seats, trainIds);
    RunsNeedingSeatsMembers(candidates, seats, trainIds);
    RunObjectsMembers(runs);
    RunObjectsMembers(candidates);
    forall x | x in RunObjects(runs) ensures x in RunObjects(candidates) {
      var i :| 0 <= i < |runs| && runs[i].0 == x;
      assert runs[i] in runs;
      var w :| 0 <= w < |candidates| && candidates[w] == runs[i];
    }
  }

  /** A selected run whose object is that of a candidate is that candidate. */
  lemma RunsNeedingSeatsIdentity(candidates: seq<(TrainRun, Train)>, seats: seq<SeatRow>, trainIds: Option<seq<int>>)
    requires DistinctRuns(candidates)
    ensures var runs := RunsNeedingSeats(candidates, seats, trainIds);
      forall c, j :: c in candidates && 0 <= j < |runs| && runs[j].0 == c.0 ==> runs[j] == c
  {
    var runs := RunsNeedingSeats(candidates, seats, trainIds);
    RunsNeedingSeatsMembers(candidates, seats, trainIds);
    forall c, j | c in candidates && 0 <= j < |runs| && runs[j].0 == c.0
      ensures runs[j] == c
    {
      assert runs[j] in runs;
      var w :| 0 <= w < |candidates| && candidates[w] == runs[j];
      var v :| 0 <= v < |candidates| && candidates[v] == c;
    }
  }

  /** The runs have pairwise distinct ids (the primary key of train_runs), hence are distinct objects. */
  predicate DistinctRuns(runs: seq<(TrainRun, Train)>) {
    forall i, j :: 0 <= i < j < |runs| ==> runs[i].0.id != runs[j].0.id
  }

  lemma {:induction false} RunsNeedingSeatsDistinct(candidates: seq<(TrainRun, Train)>, seats: seq<SeatRow>, trainIds: Option<seq<int>>)
    requires DistinctRuns(candidates)
    ensures DistinctRuns(RunsNeedingSeats(candidates, seats, trainIds))
  {
    if candidates != [] {
      var pre := candidates[..|candidates| - 1];
      RunsNeedingSeatsDistinct(pre, seats, trainIds);
      var rs := RunsNeedingSeats(pre, seats, trainIds);
      forall i | 0 <= i < |rs| ensures rs[i].0.id != candidates[|candidates| - 1].0.id {
        RunsNeedingSeatsMembers(pre, seats, trainIds);
        assert rs[i] in rs;
        assert rs[i] in pre;
        var k :| 0 <= k < |pre| && pre[k] == rs[i];
        assert candidates[k] == pre[k];
      }
    }
  }

  /** The run objects of the given rows. */
  function RunObjects(runs: seq<(TrainRun, Train)>): set<TrainRun> {
    if runs == [] then {} else RunObjects(runs[..|runs| - 1]) + {runs[|runs| - 1].0}
  }

  lemma {:induction false} RunObjectsMembers(runs: seq<(TrainRun, Train)>)
    ensures forall i :: 0 <= i < |runs| ==> runs[i].0 in RunObjects(runs)
    ensures forall x :: x in RunObjects(runs) ==> exists i :: 0 <= i < |runs| && runs[i].0 == x
  {
    if runs != [] {
      var pre := runs[..|runs| - 1];
      RunObjectsMembers(pre);
      forall x | x in RunObjects(runs) ensures exists i :: 0 <= i < |runs| && runs[i].0 == x {
        if x in RunObjects(pre) {
          var i :| 0 <= i < |pre| && pre[i].0 == x;
          assert runs[i] == pre[i];
        } else {
          assert runs[|runs| - 1].0 == x;
        }
      }
      forall i | 0 <= i < |runs| ensures runs[i].0 in RunObjects(runs) {
        if i < |runs| - 1 {
          assert runs[i] == pre[i];
        }
      }
    }
  }

  /**
   * How a run fails, if it does, in the order its body meets the errors:
   * its rows cannot be built (the class's error); the batch size is 0
   * (ValueError); or the batch size is positive and two of its rows share
   * a seat number, so the unique key refuses a batch (IntegrityError).
   */
  function RunFailure(run: (TrainRun, Train), batchSize: int, loads: string -> Option<Json>): (f: Option<SeatgenError>)
    ensures RunPlan(run.0.id, run.1, loads).Err? ==> f == Some(RunPlan(run.0.id, run.1, loads).error)
    ensures f == Some(ValueError) <==> RunPlan(run.0.id, run.1, loads).Ok? && batchSize == 0
    ensures f == Some(IntegrityError) <==>
      RunPlan(run.0.id, run.1, loads).Ok? && batchSize > 0 && !SeatNumbersDistinct(RunRows(run, loads))
    ensures f.None? ==> RunPlan(run.0.id, run.1, loads).Ok? && batchSize != 0
  {
    match RunPlan(run.0.id, run.1, loads)
    case Err(e) => Some(e)
    case Ok(rows) =>
      if batchSize == 0 then Some(ValueError)
      else if batchSize > 0 && !SeatNumbersDistinct(rows) then Some(IntegrityError)
      else None
  }

  /** No row of `seats` belongs to run `runId`. */
  predicate NoRowsOf(seats: seq<SeatRow>, runId: int) {
    forall i :: 0 <= i < |seats| ==> seats[i].trainRunId != runId
  }

  /** The run query's seat count is 0 exactly when the table holds no row of the run. */
  lemma {:induction false} CountSeatsNone(seats: seq<SeatRow>, runId: int)
    ensures CountSeats(seats, runId) == 0 <==> NoRowsOf(seats, runId)
  {
    if seats != [] {
      var pre := seats[..|seats| - 1];
      CountSeatsNone(pre, runId);
      assert forall i :: 0 <= i < |pre| ==> pre[i] == seats[i];
    }
  }

  lemma NoRowsAppend(a: seq<SeatRow>, b: seq<SeatRow>, runId: int)
    requires NoRowsOf(a, runId) && NoRowsOf(b, runId)
    ensures NoRowsOf(a + b, runId)
  {
    forall i | 0 <= i < |a + b| ensures (a + b)[i].trainRunId != runId {
      if i < |a| {
        assert (a + b)[i] == a[i];
      } else {
        assert (a + b)[i] == b[i - |a|];
      }
    }
  }

  /** Every row built for a run carries the run's id. */
  lemma RunPlanOfRun(trainRunId: int, train: Train, loads: string -> Option<Json>)
    requires RunPlan(trainRunId, train, loads).Ok?
    ensures var rows := RunPlan(trainRunId, train, loads).value;
      forall i :: 0 <= i < |rows| ==> rows[i].trainRunId == trainRunId
  {
    var rows := RunPlan(trainRunId, train, loads).value;
    TableRowsClasses(trainRunId, ClassesConfig(train.classes, loads).value, train.distanceKm);
    assert forall i :: 0 <= i < |rows| ==> rows[i] in rows;
  }

  /**
   * On a table without rows of run `runId`, that run's rows are admitted
   * exactly when their seat numbers are pairwise distinct.
   */
  lemma AdmitsRun(seats: seq<SeatRow>, rows: seq<SeatRow>, runId: int)
    requires NoRowsOf(seats, runId)
    requires forall i :: 0 <= i < |rows| ==> rows[i].trainRunId == runId
    ensures Admits(seats, rows) <==> SeatNumbersDistinct(rows)
  {
  }

  /** The earlier runs' rows hold no row of a run whose id none of them has. */
  lemma {:induction false} PlannedSeatsOtherRuns(runs: seq<(TrainRun, Train)>, k: nat, runId: int, loads: string -> Option<Json>)
    requires k <= |runs|
    requires forall j :: 0 <= j < k ==> runs[j].0.id != runId
    ensures NoRowsOf(PlannedSeats(runs[..k], loads), runId)
  {
    if k > 0 {
      PlannedSeatsOtherRuns(runs, k - 1, runId, loads);
      PlannedSeatsSnoc(runs, k - 1, loads);
      var run := runs[k - 1];
      if RunPlan(run.0.id, run.1, loads).Ok? {
        RunPlanOfRun(run.0.id, run.1, loads);
      }
      NoRowsAppend(PlannedSeats(runs[..k - 1], loads), RunRows(run, loads), runId);
    }
  }

  /**
   * When run k's turn comes, the session holds no row of it: the table
   * had none and the runs before it have other ids.
   */
  lemma FreshRun(seats0: seq<SeatRow>, runs: seq<(TrainRun, Train)>, k: nat, loads: string -> Option<Json>)
    requires k < |runs| && DistinctRuns(runs) && CountSeats(seats0, runs[k].0.id) == 0
    ensures NoRowsOf(seats0 + PlannedSeats(runs[..k], loads), runs[k].0.id)
  {
    CountSeatsNone(seats0, runs[k].0.id);
    PlannedSeatsOtherRuns(runs, k, runs[k].0.id, loads);
    NoRowsAppend(seats0, PlannedSeats(runs[..k], loads), runs[k].0.id);
  }

  /**
   * With a positive batch size, on a table holding no row of the run, a
   * run whose rows can be built fails with IntegrityError exactly when
   * the unique key refuses one of its batches, and completes exactly when
   * it lets all of them through.
   */
  lemma RefusedBatch(seats: seq<SeatRow>, run: (TrainRun, Train), batchSize: int, loads: string -> Option<Json>)
    requires batchSize > 0 && NoRowsOf(seats, run.0.id)
    requires RunPlan(run.0.id, run.1, loads).Ok?
    ensures var chunks := Chunks(RunRows(run, loads), batchSize, 0);
      && (RunFailure(run, batchSize, loads) == Some(IntegrityError) <==> Accepted(seats, chunks) < |chunks|)
      && (RunFailure(run, batchSize, loads).None? <==> Accepted(seats, chunks) == |chunks|)
  {
    var rows := RunRows(run, loads);
    ChunksPartition(rows, batchSize, 0);
    assert rows[0..] == rows;
    AcceptedAll(seats, Chunks(rows, batchSize, 0));
    RunPlanOfRun(run.0.id, run.1, loads);
    AdmitsRun(seats, rows, run.0.id);
  }

  /**
   * A run whose classes text decodes to a dict in which at most one class
   * lacks a coach prefix (json.loads already makes the keys distinct) gets
   * pairwise distinct seat numbers, so the unique key never refuses it.
   */
  lemma RunPlanSeatNumbersDistinct(run: (TrainRun, Train), batchSize: int, loads: string -> Option<Json>)
    requires var text := run.1.classes;
      text.Some? && text.value != [] && loads(text.value).Some? && loads(text.value).value.JObject? ==>
        DistinctKeys(loads(text.value).value.members) && PrefixedKeys(loads(text.value).value.members)
    ensures RunPlan(run.0.id, run.1, loads).Ok? ==> SeatNumbersDistinct(RunPlan(run.0.id, run.1, loads).value)
    ensures RunFailure(run, batchSize, loads) != Some(IntegrityError)
  {
    var text := run.1.classes;
    if text.Some? && text.value != [] && loads(text.value).Some? && loads(text.value).value.JObject? {
      var items := loads(text.value).value.members;
      NormalizeDistinct(items);
      NormalizePrefixed(items);
    }
    if RunPlan(run.0.id, run.1, loads).Ok? {
      RunSeatNumbersDistinct(run.0.id, ClassesConfig(run.1.classes, loads).value, run.1.distanceKm);
    }
  }

  /**
   * The batches of a run that take effect on top of `seats`: with a
   * positive batch size, those before the first one the unique key refuses
   * (all of them for a run that completes); otherwise none.
   */
  function IssuedBatches(seats: seq<SeatRow>, run: (TrainRun, Train), batchSize: int, loads: string -> Option<Json>)
    : seq<seq<SeatRow>>
  {
    if batchSize > 0 then
      var chunks := Chunks(RunRows(run, loads), batchSize, 0);
      chunks[..Accepted(seats, chunks)]
    else []
  }

  /** How many runs are completed before the first failing one. */
  function Completed(runs: seq<(TrainRun, Train)>, batchSize: int, loads: string -> Option<Json>): (n: nat)
    ensures n <= |runs|
  {
    if runs == [] || RunFailure(runs[0], batchSize, loads).Some? then 0
    else 1 + Completed(runs[1..], batchSize, loads)
  }

  /**
   * With the runs before `k` completed, run `k` is where the loop stops
   * exactly when it fails, and otherwise it is completed too.
   */
  lemma {:induction false} CompletedStep(runs: seq<(TrainRun, Train)>, batchSize: int, loads: string -> Option<Json>, k: nat)
    requires k < |runs| && k <= Completed(runs, batchSize, loads)
    ensures RunFailure(runs[k], batchSize, loads).Some? ==> Completed(runs, batchSize, loads) == k
    ensures RunFailure(runs[k], batchSize, loads).None? ==> k + 1 <= Completed(runs, batchSize, loads)
  {
    if k > 0 {
      CompletedStep(runs[1..], batchSize, loads, k - 1);
      assert runs[1..][k - 1] == runs[k];
    }
  }

  /** The rows built for a run; none when its rows cannot be built. */
  function RunRows(run: (TrainRun, Train), loads: string -> Option<Json>): seq<SeatRow> {
    match RunPlan(run.0.id, run.1, loads)
    case Ok(rows) => rows
    case Err(_) => []
  }

  /** The rows of the given runs, concatenated; a failing run contributes none. */
  function PlannedSeats(runs: seq<(TrainRun, Train)>, loads: string -> Option<Json>): seq<SeatRow> {
    if runs == [] then []
    else
      var last := runs[|runs| - 1];
      PlannedSeats(runs[..|runs| - 1], loads) + RunRows(last, loads)
  }

  /** The insert batches of the given runs, run after run. */
  function PlannedBatches(runs: seq<(TrainRun, Train)>, batchSize: nat, loads: string -> Option<Json>): seq<seq<SeatRow>>
    requires batchSize > 0
  {
    if runs == [] then []
    else
      var last := runs[|runs| - 1];
      PlannedBatches(runs[..|runs| - 1], batchSize, loads) + Chunks(RunRows(last, loads), batchSize, 0)
  }

  function TrainIdsOf(runs: seq<(TrainRun, Train)>): set<int> {
    set i | 0 <= i < |runs| :: runs[i].1.id
  }

  /** The total seat count of processed runs sums the sizes of their rows. */
  lemma {:induction false} PlannedSeatsSize(runs: seq<(TrainRun, Train)>, loads: string -> Option<Json>)
    ensures |PlannedSeats(runs, loads)| == SumSizes(runs, loads)
  {
    if runs != [] {
      PlannedSeatsSize(runs[..|runs| - 1], loads);
    }
  }

  function SumSizes(runs: seq<(TrainRun, Train)>, loads: string -> Option<Json>): nat {
    if runs == [] then 0
    else
      var last := runs[|runs| - 1];
      SumSizes(runs[..|runs| - 1], loads) + |RunRows(last, loads)|
  }

  lemma PlannedSeatsSnoc(runs: seq<(TrainRun, Train)>, k: nat, loads: string -> Option<Json>)
    requires k < |runs|
    ensures PlannedSeats(runs[..k + 1], loads) == PlannedSeats(runs[..k], loads) + RunRows(runs[k], loads)
  {
    assert runs[..k + 1][..k] == runs[..k];
  }

  lemma PlannedBatchesSnoc(runs: seq<(TrainRun, Train)>, k: nat, batchSize: nat, loads: string -> Option<Json>)
    requires k < |runs| && batchSize > 0
    ensures PlannedBatches(runs[..k + 1], batchSize, loads) ==
      PlannedBatches(runs[..k], batchSize, loads) + Chunks(RunRows(runs[k], loads), batchSize, 0)
  {
    assert runs[..k + 1][..k] == runs[..k];
  }

  lemma TrainIdsSnoc(runs: seq<(TrainRun, Train)>, k: nat)
    requires k < |runs|
    ensures TrainIdsOf(runs[..k + 1]) == TrainIdsOf(runs[..k]) + {runs[k].1.id}
  {
    var pre := runs[..k];
    var ext := runs[..k + 1];
    forall t | t in TrainIdsOf(ext) ensures t in TrainIdsOf(pre) + {runs[k].1.id} {
      var i :| 0 <= i < |ext| && ext[i].1.id == t;
      if i < k {
        assert pre[i] == ext[i];
      }
    }
    forall t | t in TrainIdsOf(pre) ensures t in TrainIdsOf(ext) {
      var i :| 0 <= i < |pre| && pre[i].1.id == t;
      assert ext[i] == pre[i];
    }
    assert ext[k] == runs[k];
  }

  lemma RunObjectsSnoc(runs: seq<(TrainRun, Train)>, k: nat)
    requires k < |runs|
    ensures RunObjects(runs[..k + 1]) == RunObjects(runs[..k]) + {runs[k].0}
  {
    assert runs[..k + 1][..k] == runs[..k];
  }

  // ---------------------------------------------------------------------
  // The two entry points
  // ---------------------------------------------------------------------

  /** The class loop shared by both entry points: parse the classes, then build every class's rows. */
  method BuildRunSeats(trainRunId: int, train: Train, loads: string -> Option<Json>) returns (r: Result<seq<SeatRow>, SeatgenError>)
    ensures r == RunPlan(trainRunId, train, loads)
  {
    var config := ParseClassesConfig(train.classes, loads);
    if config.Err? {
      return Err(config.error);
    }
    var table := config.value;
    var allSeats: seq<SeatRow> := [];
    var i := 0;
    while i < |table|
      invariant 0 <= i <= |table|
      invariant TableRows(trainRunId, table[..i], train.distanceKm) == Ok(allSeats)
    {
      var classCode := table[i].0;
      var cfg := table[i].1;
      TableRowsAppend(trainRunId, table[..i], table[i], train.distanceKm);
      assert table[..i] + [table[i]] == table[..i + 1];
      var coaches := AsCount(cfg.coaches);
      var seatsPerCoach := AsCount(cfg.seatsPerCoach);
      if coaches.None? || (coaches.value >= 1 && seatsPerCoach.None?) {
        TableRowsErrorPersists(trainRunId, table, i + 1, train.distanceKm);
        return Err(TypeError);
      }
      var seats := GenerateSeatRows(trainRunId, classCode, coaches.value,
        if seatsPerCoach.Some? then seatsPerCoach.value else 0, train.distanceKm);
      allSeats := allSeats + seats;
      i := i + 1;
    }
    assert table[..i] == table;
    r := Ok(allSeats);
  }

  /**
   * The body of the run loop for run k: build the run's rows, insert them
   * in batches, and set the run's totals to the number of rows. On success
   * the session holds the rows and batches of runs 0..k; on failure run k
   * is the first failing run, the session holds in addition the batches of
   * run k that took effect, and the totals are unchanged.
   */
  method ProcessRun(session: SeatSession, runs: seq<(TrainRun, Train)>, k: nat, batchSize: int,
      loads: string -> Option<Json>, ghost seats0: seq<SeatRow>, ghost statements0: seq<seq<SeatRow>>,
      ghost totals0: seq<(int, int)>)
    returns (r: Result<nat, SeatgenError>)
    requires k < |runs| && k <= Completed(runs, batchSize, loads)
    requires DistinctRuns(runs) && |totals0| == |runs| && CountSeats(seats0, runs[k].0.id) == 0
    requires SessionAfter(session, runs, k, batchSize, loads, seats0, statements0)
    requires TotalsAfter(runs, k, loads, totals0)
    modifies session, runs[k].0
    ensures r.Err? ==>
      && Completed(runs, batchSize, loads) == k
      && Some(r.error) == RunFailure(runs[k], batchSize, loads)
      && SessionFailedAt(session, runs, k, batchSize, loads, seats0, statements0)
      && TotalsAfter(runs, k, loads, totals0)
    ensures r.Ok? ==>
      && k + 1 <= Completed(runs, batchSize, loads)
      && r.value == |RunRows(runs[k], loads)|
      && PlannedSeats(runs[..k + 1], loads) == PlannedSeats(runs[..k], loads) + RunRows(runs[k], loads)
      && SessionAfter(session, runs, k + 1, batchSize, loads, seats0, statements0)
      && TotalsAfter(runs, k + 1, loads, totals0)
  {
    var run := runs[k].0;
    var train := runs[k].1;
    assert runs[k] == (run, train);
    var plan := BuildRunSeats(run.id, train, loads);
    if plan.Err? {
      CompletedStep(runs, batchSize, loads, k);
      assert Chunks(RunRows(runs[k], loads), 1, 0) == [];
      assert session.seats + Flatten<SeatRow>([]) == session.seats;
      return Err(plan.error);
    }
    if batchSize > 0 {
      FreshRun(seats0, runs, k, loads);
      RefusedBatch(session.seats, runs[k], batchSize, loads);
    }
    var err := InsertBatches(session, plan.value, batchSize);
    if err.Some? {
      CompletedStep(runs, batchSize, loads, k);
      return Err(err.value);
    }
    CompletedStep(runs, batchSize, loads, k);
    PlannedSeatsSnoc(runs, k, loads);
    if batchSize > 0 {
      ChunksPartition(plan.value, batchSize, 0);
      assert plan.value[0..] == plan.value;
      assert Chunks(plan.value, batchSize, 0)[..|Chunks(plan.value, batchSize, 0)|] == Chunks(plan.value, batchSize, 0);
      PlannedBatchesSnoc(runs, k, batchSize, loads);
      AppendAssoc(seats0, PlannedSeats(runs[..k], loads), plan.value);
      AppendAssoc(statements0, PlannedBatches(runs[..k], batchSize, loads), Chunks(plan.value, batchSize, 0));
    }
    SetTotals(runs, k, loads, totals0);
    r := Ok(|plan.value|);
  }

  /** `run.total_seats = run.available_seats = len(all_seats)` for run k, the runs before it already done. */
  method SetTotals(runs: seq<(TrainRun, Train)>, k: nat, loads: string -> Option<Json>, ghost totals0: seq<(int, int)>)
    requires k < |runs| && |totals0| == |runs| && DistinctRuns(runs)
    requires TotalsAfter(runs, k, loads, totals0)
    modifies runs[k].0
    ensures TotalsAfter(runs, k + 1, loads, totals0)
  {
    var run := runs[k].0;
    var n := |RunRows(runs[k], loads)|;
    RunObjectsMembers(runs);
    assert forall j :: 0 <= j < |runs| && j != k ==> runs[j].0 != run;
    run.totalSeats := n;
    run.availableSeats := n;
  }

  /**
   * The session after the first `k` runs were processed: with a positive
   * batch size it holds their rows and batches after what it held before;
   * with any other batch size nothing was inserted.
   */
  ghost predicate SessionAfter(session: SeatSession, runs: seq<(TrainRun, Train)>, k: nat, batchSize: int,
      loads: string -> Option<Json>, seats0: seq<SeatRow>, statements0: seq<seq<SeatRow>>)
    requires k <= |runs|
    reads session
  {
    && (batchSize > 0 ==>
          session.seats == seats0 + PlannedSeats(runs[..k], loads) &&
          session.statements == statements0 + PlannedBatches(runs[..k], batchSize, loads))
    && (batchSize <= 0 ==> session.seats == seats0 && session.statements == statements0)
  }

  /**
   * The session after run k failed, the runs before it processed: on top
   * of their rows and batches it holds the batches of run k that took
   * effect before the unique key refused one (none when run k failed for
   * another reason); with a batch size that is not positive, nothing was
   * inserted.
   */
  ghost predicate SessionFailedAt(session: SeatSession, runs: seq<(TrainRun, Train)>, k: nat, batchSize: int,
      loads: string -> Option<Json>, seats0: seq<SeatRow>, statements0: seq<seq<SeatRow>>)
    requires k < |runs|
    reads session
  {
    && (batchSize > 0 ==>
          var before := seats0 + PlannedSeats(runs[..k], loads);
          var issued := IssuedBatches(before, runs[k], batchSize, loads);
          session.seats == before + Flatten(issued) &&
          session.statements == statements0 + PlannedBatches(runs[..k], batchSize, loads) + issued)
    && (batchSize <= 0 ==> session.seats == seats0 && session.statements == statements0)
  }

  /**
   * The totals after the first `k` runs were processed: each of them has
   * as many total and available seats as rows were built for it; every
   * later run keeps the pair (total, available) it had in `totals0`.
   */
  ghost predicate TotalsAfter(runs: seq<(TrainRun, Train)>, k: nat, loads: string -> Option<Json>, totals0: seq<(int, int)>)
    requires k <= |runs| && |totals0| == |runs|
    reads RunObjects(runs)
  {
    RunObjectsMembers(runs);
    && (forall j :: 0 <= j < k ==>
          runs[j].0.totalSeats == |RunRows(runs[j], loads)| && runs[j].0.availableSeats == |RunRows(runs[j], loads)|)
    && (forall j :: k <= j < |runs| ==> (runs[j].0.totalSeats, runs[j].0.availableSeats) == totals0[j])
  }

  /**
   * The loop of generate_seats_for_runs over the runs the query returned:
   * each run (none of which has seats yet) is processed in turn until one
   * fails; the runs before it have their rows inserted and their totals
   * set, the others keep theirs.
   */
  method ProcessRuns(session: SeatSession, runs: seq<(TrainRun, Train)>, batchSize: int, loads: string -> Option<Json>)
    returns (r: Result<Stats, SeatgenError>)
    requires DistinctRuns(runs)
    requires forall j :: 0 <= j < |runs| ==> CountSeats(session.seats, runs[j].0.id) == 0
    modifies session, RunObjects(runs)
    ensures var done := Completed(runs, batchSize, loads);
      && (r.Ok? <==> done == |runs|)
      && (r.Err? ==> Some(r.error) == RunFailure(runs[done], batchSize, loads))
      && (r.Ok? ==> r.value == Stats(|runs|, |PlannedSeats(runs, loads)|, |TrainIdsOf(runs)|))
      && (r.Ok? ==> SessionAfter(session, runs, done, batchSize, loads, old(session.seats), old(session.statements)))
      && (r.Err? ==> SessionFailedAt(session, runs, done, batchSize, loads, old(session.seats), old(session.statements)))
      && (forall j :: 0 <= j < done ==>
            runs[j].0.totalSeats == |RunRows(runs[j], loads)| && runs[j].0.availableSeats == |RunRows(runs[j], loads)|)
      && (forall j :: done <= j < |runs| ==>
            runs[j].0.totalSeats == old(runs[j].0.totalSeats) && runs[j].0.availableSeats == old(runs[j].0.availableSeats))
  {
    RunObjectsMembers(runs);
    ghost var totals0 := seq(|runs|, j requires 0 <= j < |runs| reads RunObjects(runs) =>
      (runs[j].0.totalSeats, runs[j].0.availableSeats));
    var runsProcessed: nat := 0;
    var seatsCreated: nat := 0;
    var processedTrains: set<int> := {};
    var k := 0;
    assert runs[..0] == [];
    assert old(session.seats) + [] == old(session.seats);
    assert old(session.statements) + [] == old(session.statements);
    while k < |runs|
      invariant 0 <= k <= |runs|
      invariant k <= Completed(runs, batchSize, loads)
      invariant SessionAfter(session, runs, k, batchSize, loads, old(session.seats), old(session.statements))
      invariant TotalsAfter(runs, k, loads, totals0)
      invariant runsProcessed == k && seatsCreated == |PlannedSeats(runs[..k], loads)| && processedTrains == TrainIdsOf(runs[..k])
    {
      var count := ProcessRun(session, runs, k, batchSize, loads, old(session.seats), old(session.statements), totals0);
      if count.Err? {
        return Err(count.error);
      }
      TrainIdsSnoc(runs, k);
      runsProcessed := runsProcessed + 1;
      seatsCreated := seatsCreated + count.value;
      processedTrains := processedTrains + {runs[k].1.id};
      k := k + 1;
    }
    assert runs[..k] == runs;
    r := Ok(Stats(runsProcessed, seatsCreated, |processedTrains|));
  }

  /**
   * generate_seats_for_runs: select the runs of the date window that have
   * no seats (and, given a non-empty list, are of a listed train), then
   * process them in order. Runs not selected keep their totals.
   */
  method GenerateSeatsForRuns(session: SeatSession, candidates: seq<(TrainRun, Train)>, batchSize: int,
      trainIds: Option<seq<int>>, loads: string -> Option<Json>) returns (r: Result<Stats, SeatgenError>)
    requires DistinctRuns(candidates)
    modifies session, RunObjects(candidates)
    ensures var runs := RunsNeedingSeats(candidates, old(session.seats), trainIds);
      var done := Completed(runs, batchSize, loads);
      && (r.Ok? <==> done == |runs|)
      && (r.Err? ==> Some(r.error) == RunFailure(runs[done], batchSize, loads))
      && (r.Ok? ==> r.value == Stats(|runs|, |PlannedSeats(runs, loads)|, |TrainIdsOf(runs)|))
      && (r.Ok? ==> SessionAfter(session, runs, done, batchSize, loads, old(session.seats), old(session.statements)))
      && (r.Err? ==> SessionFailedAt(session, runs, done, batchSize, loads, old(session.seats), old(session.statements)))
      && (forall j :: 0 <= j < done ==>
            runs[j].0.totalSeats == |RunRows(runs[j], loads)| && runs[j].0.availableSeats == |RunRows(runs[j], loads)|)
      && (forall c :: c in candidates && c !in runs[..done] ==>
            c.0.totalSeats == old(c.0.totalSeats) && c.0.availableSeats == old(c.0.availableSeats))
  {
    var runs := RunsNeedingSeats(candidates, session.seats, trainIds);
    RunsNeedingSeatsObjects(candidates, session.seats, trainIds);
    RunsNeedingSeatsDistinct(candidates, session.seats, trainIds);
    RunsNeedingSeatsFresh(candidates, session.seats, trainIds);
    r := ProcessRuns(session, runs, batchSize, loads);
    ghost var done := Completed(runs, batchSize, loads);
    forall c | c in candidates && c !in runs[..done]
      ensures c.0.totalSeats == old(c.0.totalSeats) && c.0.availableSeats == old(c.0.availableSeats)
    {
      RunObjectsMembers(runs);
      if c.0 in RunObjects(runs) {
        var j :| 0 <= j < |runs| && runs[j].0 == c.0;
        RunsNeedingSeatsIdentity(candidates, old(session.seats), trainIds);
        assert runs[j] == c;
        PrefixMembers(runs, done);
        assert done <= j;
      }
    }
  }

  /**
   * The insert of generate_seats_for_train_run and the totals it sets: on
   * a table without rows of the run, the one statement takes effect exactly
   * when the rows' seat numbers are pairwise distinct.
   */
  method InsertRunSeats(session: SeatSession, run: TrainRun, rows: seq<SeatRow>) returns (ok: bool)
    requires NoRowsOf(session.seats, run.id)
    requires forall i :: 0 <= i < |rows| ==> rows[i].trainRunId == run.id
    modifies session, run
    ensures ok == SeatNumbersDistinct(rows)
    ensures ok ==>
      && session.seats == old(session.seats) + rows && session.statements == old(session.statements) + [rows]
      && run.totalSeats == |rows| && run.availableSeats == |rows|
    ensures !ok ==> unchanged(session) && unchanged(run)
  {
    AdmitsRun(session.seats, rows, run.id);
    ok := session.Insert(rows);
    if ok {
      run.totalSeats := |rows|;
      run.availableSeats := |rows|;
    }
  }

  /** The first row of the join for the run `trainRunId`, if any. */
  function FindRun(joined: seq<(TrainRun, Train)>, trainRunId: int): (k: Option<nat>)
    ensures k.Some? ==> (k.value < |joined| && joined[k.value].0.id == trainRunId &&
      forall j :: 0 <= j < k.value ==> joined[j].0.id != trainRunId)
    ensures k.None? ==> forall j :: 0 <= j < |joined| ==> joined[j].0.id != trainRunId
  {
    if joined == [] then None
    else if joined[0].0.id == trainRunId then Some(0)
    else match FindRun(joined[1..], trainRunId)
      case None => None
      case Some(k) => Some(k + 1)
  }

  /**
   * generate_seats_for_train_run: a run that already has seats, or that is
   * not found, yields 0 and changes nothing; otherwise the run's rows are
   * built and, when there are any, inserted in one statement and the run's
   * totals set; the result is the number of rows built. Rows that repeat a
   * seat number make the unique key refuse the statement (IntegrityError),
   * and nothing changes.
   */
  method GenerateSeatsForTrainRun(session: SeatSession, joined: seq<(TrainRun, Train)>, trainRunId: int,
      loads: string -> Option<Json>) returns (r: Result<nat, SeatgenError>)
    modifies session, RunObjects(joined)
    ensures CountSeats(old(session.seats), trainRunId) > 0 || FindRun(joined, trainRunId).None? ==>
      r == Ok(0) && unchanged(session) && forall c :: c in joined ==> unchanged(c.0)
    ensures CountSeats(old(session.seats), trainRunId) == 0 && FindRun(joined, trainRunId).Some? ==>
      var k := FindRun(joined, trainRunId).value;
      var plan := RunPlan(trainRunId, joined[k].1, loads);
      && (plan.Err? ==> r == Err(plan.error) && unchanged(session) && forall c :: c in joined ==> unchanged(c.0))
      && (plan.Ok? && !SeatNumbersDistinct(plan.value) ==>
            r == Err(IntegrityError) && unchanged(session) && forall c :: c in joined ==> unchanged(c.0))
      && (plan.Ok? && SeatNumbersDistinct(plan.value) ==> r == Ok(|plan.value|))
      && (plan.Ok? && plan.value == [] ==> unchanged(session) && forall c :: c in joined ==> unchanged(c.0))
      && (plan.Ok? && plan.value != [] && SeatNumbersDistinct(plan.value) ==>
            && session.seats == old(session.seats) + plan.value
            && session.statements == old(session.statements) + [plan.value]
            && joined[k].0.totalSeats == |plan.value| && joined[k].0.availableSeats == |plan.value|
            && forall c :: c in joined && c.0 != joined[k].0 ==> unchanged(c.0))
  {
    if CountSeats(session.seats, trainRunId) > 0 {
      return Ok(0);
    }
    var found := FindRun(joined, trainRunId);
    if found.None? {
      return Ok(0);
    }
    var run := joined[found.value].0;
    var train := joined[found.value].1;
    var allSeats := BuildRunSeats(run.id, train, loads);
    if allSeats.Err? {
      return Err(allSeats.error);
    }
    if allSeats.value != [] {
      CountSeatsNone(session.seats, trainRunId);
      RunPlanOfRun(run.id, train, loads);
      RunObjectsMembers(joined);
      var ok := InsertRunSeats(session, run, allSeats.value);
      if !ok {
        return Err(IntegrityError);
      }
    }
    r := Ok(|allSeats.value|);
  }
}
