/**
 * Seat inventory for one train run (backend/app/services/seatgen.py):
 * the class table read from a train's `classes` text, and the seat rows
 * generated for one class, coach by coach.
 */
module Seatgen {
  import opened Wrappers
  import opened Decimal
  import opened JsonValues

  // ---------------------------------------------------------------------
  // Constant tables
  // ---------------------------------------------------------------------

  const DefaultSeatsPerCoach: map<string, int> :=
    map["SL" := 72, "3A" := 64, "2A" := 48, "1A" := 24, "CC" := 78, "2S" := 108, "GEN" := 90]

  const CoachPrefix: map<string, string> :=
    map["SL" := "S", "3A" := "A", "2A" := "B", "1A" := "H", "CC" := "C", "2S" := "D", "GEN" := "G"]

  /** Fare per kilometre in paise. */
  const BasePricePerKm: map<string, int> :=
    map["1A" := 500, "2A" := 350, "3A" := 250, "SL" := 100, "CC" := 120, "2S" := 50, "GEN" := 30]

  /** Distance used for the fare when the train's own distance is unknown. */
  const FallbackDistanceKm: int := 500

  /** Rate used for a class missing from the fare table. */
  const FallbackRatePerKm: int := 100

  const UnknownPrefix: string := "X"

  const Available: string := "AVAILABLE"

  /** `DEFAULT_SEATS_PER_COACH.get(class_code, 72)` */
  function DefaultSeats(classCode: string): int {
    if classCode in DefaultSeatsPerCoach then DefaultSeatsPerCoach[classCode] else 72
  }

  /** `COACH_PREFIX.get(class_code, 'X')` */
  function CoachPrefixOf(classCode: string): string {
    if classCode in CoachPrefix then CoachPrefix[classCode] else UnknownPrefix
  }

  /**
   * The price every seat of a class gets: the per-km rate times the
   * distance when the distance is known and non-zero and the class has a
   * rate, and otherwise the rate (100 for an unknown class) times 500 km.
   */
  function SeatPrice(classCode: string, distanceKm: Option<int>): int {
    if distanceKm.Some? && distanceKm.value != 0 && classCode in BasePricePerKm then
      distanceKm.value * BasePricePerKm[classCode]
    else
      FallbackDistanceKm * (if classCode in BasePricePerKm then BasePricePerKm[classCode] else FallbackRatePerKm)
  }

  /**
   * A known distance d other than 0 prices a class that has a rate at d
   * times that rate, d/500 of its price at the fallback distance; a class
   * without a rate costs the fallback 500 km at 100 paise whatever d is.
   */
  lemma SeatPriceByDistance(classCode: string, d: int)
    requires d != 0
    ensures classCode in BasePricePerKm ==> SeatPrice(classCode, Some(d)) == d * BasePricePerKm[classCode]
    ensures classCode in BasePricePerKm ==> 500 * SeatPrice(classCode, Some(d)) == d * SeatPrice(classCode, None)
    ensures classCode !in BasePricePerKm ==> SeatPrice(classCode, Some(d)) == SeatPrice(classCode, None) == 50000
  {
    if classCode in BasePricePerKm {
      var rate := BasePricePerKm[classCode];
      assert 500 * (d * rate) == d * (500 * rate);
    }
  }

  /**
   * The fallback price is the price of a 500 km journey: for a class with
   * a rate it equals the price at 500 km, and a class without a rate is
   * priced like SL at 500 km.
   */
  lemma FallbackPriceIs500Km(classCode: string, distanceKm: Option<int>)
    requires distanceKm.None? || distanceKm == Some(0)
    ensures classCode in BasePricePerKm ==> SeatPrice(classCode, distanceKm) == SeatPrice(classCode, Some(500))
    ensures classCode !in BasePricePerKm ==> SeatPrice(classCode, distanceKm) == SeatPrice("SL", Some(500)) == 50000
  {
  }

  /** Every prefix is one letter, and distinct classes of the table get distinct prefixes, none of them "X". */
  lemma CoachPrefixesDistinct(a: string, b: string)
    ensures |CoachPrefixOf(a)| == 1
    ensures a in CoachPrefix && b in CoachPrefix && a != b ==> CoachPrefixOf(a) != CoachPrefixOf(b)
    ensures a in CoachPrefix ==> CoachPrefixOf(a) != UnknownPrefix
  {
  }

  // ---------------------------------------------------------------------
  // Class table (parse_classes_config)
  // ---------------------------------------------------------------------

  /**
   * One normalised class: `coaches` and `seats_per_coach` as they were
   * decoded. Only an int (or bool) is usable as a count later on.
   */
  datatype ClassConfig = ClassConfig(coaches: Json, seatsPerCoach: Json)

  /** The normalised table, in the decoded dict's key order. */
  type ClassTable = seq<(string, ClassConfig)>

  /** The errors the seat generator can raise (Python exception classes). */
  datatype SeatgenError =
    | AttributeError  // the decoded configuration is not a dict: `.items()` fails
    | TypeError       // `range()` was given a count that is not an int
    | ValueError      // `range()` was given a step of 0 (batch size 0)
    | IntegrityError  // an insert repeats a (train_run_id, seat_number) pair, the unique key uq_seat_number

  /** One sleeper coach of 72 seats. */
  const DefaultTable: ClassTable := [("SL", ClassConfig(JInt(1), JInt(72)))]

  /** What one `class_code: value` item of the decoded dict becomes; None drops it. */
  function NormalizeEntry(classCode: string, value: Json): Option<ClassConfig> {
    match value
    case JInt(_) => Some(ClassConfig(value, JInt(DefaultSeats(classCode))))
    case JBool(_) => Some(ClassConfig(value, JInt(DefaultSeats(classCode))))  // a bool is an int in Python
    case JObject(ms) =>
      Some(ClassConfig(GetOr(ms, "coaches", JInt(1)), GetOr(ms, "seats_per_coach", JInt(DefaultSeats(classCode)))))
    case _ => None
  }

  /** The `normalized` dict built from the decoded items. */
  function Normalize(items: seq<(string, Json)>): ClassTable {
    if items == [] then []
    else
      var last := items[|items| - 1];
      var pre := Normalize(items[..|items| - 1]);
      match NormalizeEntry(last.0, last.1)
      case Some(c) => pre + [(last.0, c)]
      case None => pre
  }

  /** The specification of parse_classes_config; `loads` is `json.loads`, None for undecodable text. */
  function ClassesConfig(classesJson: Option<string>, loads: string -> Option<Json>): Result<ClassTable, SeatgenError> {
    if classesJson.None? || classesJson.value == [] then Ok(DefaultTable)
    else
      match loads(classesJson.value)
      case None => Ok(DefaultTable)
      case Some(JObject(items)) => var n := Normalize(items); Ok(if n == [] then DefaultTable else n)
      case Some(_) => Err(AttributeError)
  }

  method ParseClassesConfig(classesJson: Option<string>, loads: string -> Option<Json>)
    returns (r: Result<ClassTable, SeatgenError>)
    ensures r == ClassesConfig(classesJson, loads)
    ensures r.Ok? ==> r.value != []
  {
    if classesJson.None? || classesJson.value == [] {
      return Ok(DefaultTable);
    }
    var config := loads(classesJson.value);
    if config.None? {
      return Ok(DefaultTable);
    }
    if !config.value.JObject? {
      return Err(AttributeError);
    }
    var items := config.value.members;
    var normalized: ClassTable := [];
    var i := 0;
    while i < |items|
      invariant 0 <= i <= |items|
      invariant normalized == Normalize(items[..i])
    {
      var (classCode, value) := items[i];
      assert items[..i + 1][..i] == items[..i];
      if value.JInt? || value.JBool? {
        normalized := normalized + [(classCode, ClassConfig(value, JInt(DefaultSeats(classCode))))];
      } else if value.JObject? {
        var coaches := GetOr(value.members, "coaches", JInt(1));
        var seatsPerCoach := GetOr(value.members, "seats_per_coach", JInt(DefaultSeats(classCode)));
        normalized := normalized + [(classCode, ClassConfig(coaches, seatsPerCoach))];
      }
      i := i + 1;
    }
    assert items[..|items|] == items;
    r := Ok(if normalized == [] then DefaultTable else normalized);
  }

  /** The first entry of the table for `classCode`. */
  function Lookup(table: ClassTable, classCode: string): Option<ClassConfig> {
    Get(table, classCode)
  }

  /** Every class of the normalised table comes from an item of the input, normalised by NormalizeEntry. */
  lemma {:induction false} NormalizeFromInput(items: seq<(string, Json)>)
    ensures |Normalize(items)| <= |items|
    ensures forall e :: e in Normalize(items) ==>
      exists i :: 0 <= i < |items| && items[i].0 == e.0 && NormalizeEntry(items[i].0, items[i].1) == Some(e.1)
  {
    if items != [] {
      var pre := items[..|items| - 1];
      NormalizeFromInput(pre);
      forall e | e in Normalize(items)
        ensures exists i :: 0 <= i < |items| && items[i].0 == e.0 && NormalizeEntry(items[i].0, items[i].1) == Some(e.1)
      {
        if e in Normalize(pre) {
          var i :| 0 <= i < |pre| && pre[i].0 == e.0 && NormalizeEntry(pre[i].0, pre[i].1) == Some(e.1);
          assert items[i] == pre[i];
        } else {
          assert items[|items| - 1].0 == e.0;
        }
      }
    }
  }

  /**
   * With distinct keys (as json.loads gives them), looking a class up in
   * the normalised table gives exactly NormalizeEntry of its item: an int
   * or bool v becomes (coaches v, seats default-or-72), a dict takes
   * `coaches` (default 1) and `seats_per_coach` (default-or-72), and any
   * other value is dropped.
   */
  lemma {:induction false} NormalizeLookup(items: seq<(string, Json)>, k: nat)
    requires DistinctKeys(items)
    requires k < |items|
    ensures Lookup(Normalize(items), items[k].0) == NormalizeEntry(items[k].0, items[k].1)
  {
    var n := |items|;
    var pre := items[..n - 1];
    var last := items[n - 1];
    if k == n - 1 {
      LastKeyAbsent(items);
      match NormalizeEntry(last.0, last.1)
      case Some(c) => GetAppend(Normalize(pre), last.0, last.0, c);
      case None =>
    } else {
      NormalizeLookup(pre, k);
      assert pre[k] == items[k];
      match NormalizeEntry(last.0, last.1)
      case Some(c) => GetAppend(Normalize(pre), last.0, items[k].0, c);
      case None =>
    }
  }

  /** With distinct keys, the last key occurs nowhere in the normalisation of the items before it. */
  lemma LastKeyAbsent(items: seq<(string, Json)>)
    requires DistinctKeys(items) && items != []
    ensures Get(Normalize(items[..|items| - 1]), items[|items| - 1].0).None?
  {
    var pre := items[..|items| - 1];
    var last := items[|items| - 1];
    var table := Normalize(pre);
    NormalizeFromInput(pre);
    forall j | 0 <= j < |table| ensures table[j].0 != last.0 {
      var e := table[j];
      assert e in table;
      var i :| 0 <= i < |pre| && pre[i].0 == e.0 && NormalizeEntry(pre[i].0, pre[i].1) == Some(e.1);
      assert items[i] == pre[i];
    }
  }

  /** With distinct keys in the decoded dict, the normalised table has distinct keys too. */
  lemma {:induction false} NormalizeDistinct(items: seq<(string, Json)>)
    requires DistinctKeys(items)
    ensures DistinctKeys(Normalize(items))
  {
    if items != [] {
      var pre := items[..|items| - 1];
      var last := items[|items| - 1];
      NormalizeDistinct(pre);
      LastKeyAbsent(items);
    }
  }

  /** At most one key of the table has no coach prefix. */
  predicate PrefixedKeys<V>(table: seq<(string, V)>) {
    forall i, j :: 0 <= i < j < |table| ==> table[i].0 in CoachPrefix || table[j].0 in CoachPrefix
  }

  /**
   * With distinct keys, normalising keeps "at most one key without a
   * coach prefix": every key of the table is the key of a distinct item.
   */
  lemma NormalizePrefixed(items: seq<(string, Json)>)
    requires DistinctKeys(items) && PrefixedKeys(items)
    ensures PrefixedKeys(Normalize(items))
  {
    var table := Normalize(items);
    NormalizeDistinct(items);
    NormalizeFromInput(items);
    forall i, j | 0 <= i < j < |table|
      ensures table[i].0 in CoachPrefix || table[j].0 in CoachPrefix
    {
      assert table[i] in table && table[j] in table;
      var p :| 0 <= p < |items| && items[p].0 == table[i].0 && NormalizeEntry(items[p].0, items[p].1) == Some(table[i].1);
      var q :| 0 <= q < |items| && items[q].0 == table[j].0 && NormalizeEntry(items[q].0, items[q].1) == Some(table[j].1);
      assert p != q;
      if p > q {
        assert items[q].0 in CoachPrefix || items[p].0 in CoachPrefix;
      }
    }
  }

  /** Appending an entry leaves lookups of other keys alone, and answers a key that was absent. */
  lemma {:induction false} GetAppend(table: ClassTable, k: string, key: string, v: ClassConfig)
    ensures k != key ==> Get(table + [(k, v)], key) == Get(table, key)
    ensures k == key && Get(table, key).None? ==> Get(table + [(k, v)], key) == Some(v)
  {
    if table != [] {
      assert (table + [(k, v)])[1..] == table[1..] + [(k, v)];
      GetAppend(table[1..], k, key, v);
    }
  }

  /**
   * The parsed table is never empty; it is the one-sleeper-coach default
   * or it holds only classes taken from the decoded dict's keys.
   */
  lemma ClassesConfigKeys(classesJson: Option<string>, loads: string -> Option<Json>)
    ensures var r := ClassesConfig(classesJson, loads);
      r.Ok? ==> (r.value != [] &&
        (r.value == DefaultTable ||
         (classesJson.Some? && loads(classesJson.value).Some? && loads(classesJson.value).value.JObject? &&
          forall e :: e in r.value ==>
            exists i :: 0 <= i < |loads(classesJson.value).value.members| &&
              loads(classesJson.value).value.members[i].0 == e.0)))
    ensures ClassesConfig(classesJson, loads).Err? <==>
      classesJson.Some? && classesJson.value != [] && loads(classesJson.value).Some? &&
      !loads(classesJson.value).value.JObject?
  {
    if classesJson.Some? && classesJson.value != [] && loads(classesJson.value).Some? {
      var d := loads(classesJson.value).value;
      if d.JObject? {
        NormalizeFromInput(d.members);
      }
    }
  }

  // ---------------------------------------------------------------------
  // Seat rows of one class (generate_seat_rows)
  // ---------------------------------------------------------------------

  datatype SeatRow = SeatRow(
    trainRunId: int,
    seatNumber: string,
    coachNumber: string,
    seatClass: string,
    status: string,
    priceCents: int)

  function Max0(n: int): nat { if n < 0 then 0 else n }

  /** `f"{coach_prefix}{coach_num}"` */
  function CoachName(prefix: string, coach: nat): string {
    prefix + NatToString(coach)
  }

  /** `f"{coach_name}-{seat_num}"` */
  function SeatLabel(prefix: string, coach: nat, seat: nat): string {
    CoachName(prefix, coach) + "-" + NatToString(seat)
  }

  /** The row for seat `pos.1` of coach `pos.0`. */
  function MakeSeat(trainRunId: int, classCode: string, prefix: string, price: int, pos: (nat, nat)): SeatRow {
    SeatRow(trainRunId, SeatLabel(prefix, pos.0, pos.1), CoachName(prefix, pos.0), classCode, Available, price)
  }

  /** (coach, 1), ..., (coach, count) */
  function CoachPositions(coach: nat, count: nat): seq<(nat, nat)> {
    if count == 0 then [] else CoachPositions(coach, count - 1) + [(coach, count)]
  }

  /** All (coach, seat) positions of a class, coach-major, seats ascending. */
  function Positions(coaches: nat, seatsPerCoach: nat): seq<(nat, nat)> {
    if coaches == 0 then [] else Positions(coaches - 1, seatsPerCoach) + CoachPositions(coaches, seatsPerCoach)
  }

  function SeatsAt(trainRunId: int, classCode: string, prefix: string, price: int, ps: seq<(nat, nat)>): (rows: seq<SeatRow>)
    ensures |rows| == |ps|
  {
    seq(|ps|, i requires 0 <= i < |ps| => MakeSeat(trainRunId, classCode, prefix, price, ps[i]))
  }

  /** The rows generate_seat_rows returns. */
  function ClassSeatRows(trainRunId: int, classCode: string, numCoaches: int, seatsPerCoach: int, distanceKm: Option<int>): seq<SeatRow> {
    SeatsAt(trainRunId, classCode, CoachPrefixOf(classCode), SeatPrice(classCode, distanceKm),
      Positions(Max0(numCoaches), Max0(seatsPerCoach)))
  }

  predicate PositionLess(p: (nat, nat), q: (nat, nat)) {
    p.0 < q.0 || (p.0 == q.0 && p.1 < q.1)
  }

  lemma {:induction false} CoachPositionsShape(coach: nat, count: nat)
    ensures |CoachPositions(coach, count)| == count
    ensures forall s :: 0 <= s < count ==> CoachPositions(coach, count)[s] == (coach, s + 1)
  {
    if count > 0 {
      CoachPositionsShape(coach, count - 1);
    }
  }

  /** A class has coaches × seats-per-coach positions. */
  lemma {:induction false} PositionsLength(coaches: nat, seatsPerCoach: nat)
    ensures |Positions(coaches, seatsPerCoach)| == coaches * seatsPerCoach
  {
    if coaches > 0 {
      PositionsLength(coaches - 1, seatsPerCoach);
      CoachPositionsShape(coaches, seatsPerCoach);
      assert (coaches - 1) * seatsPerCoach + seatsPerCoach == coaches * seatsPerCoach;
    }
  }

  lemma MulMono(a: nat, b: nat, m: nat)
    requires a <= b
    ensures a * m <= b * m
  {
  }

  /** Seat s of coach c is at index (c-1)·seats + (s-1): coach-major, then seat-ascending order. */
  lemma {:induction false} PositionsAt(coaches: nat, seatsPerCoach: nat, c: nat, s: nat)
    requires 1 <= c <= coaches && 1 <= s <= seatsPerCoach
    ensures (c - 1) * seatsPerCoach + (s - 1) < |Positions(coaches, seatsPerCoach)|
    ensures Positions(coaches, seatsPerCoach)[(c - 1) * seatsPerCoach + (s - 1)] == (c, s)
  {
    PositionsLength(coaches - 1, seatsPerCoach);
    PositionsLength(coaches, seatsPerCoach);
    CoachPositionsShape(coaches, seatsPerCoach);
    if c == coaches {
      assert (c - 1) * seatsPerCoach + (s - 1) == |Positions(coaches - 1, seatsPerCoach)| + (s - 1);
    } else {
      PositionsAt(coaches - 1, seatsPerCoach, c, s);
      MulMono(c, coaches - 1, seatsPerCoach);
    }
  }

  /** Every position lies within the class, and positions strictly increase, so none repeats. */
  lemma {:induction false} PositionsOrdered(coaches: nat, seatsPerCoach: nat)
    ensures forall i :: 0 <= i < |Positions(coaches, seatsPerCoach)| ==>
      1 <= Positions(coaches, seatsPerCoach)[i].0 <= coaches && 1 <= Positions(coaches, seatsPerCoach)[i].1 <= seatsPerCoach
    ensures forall i, j :: 0 <= i < j < |Positions(coaches, seatsPerCoach)| ==>
      PositionLess(Positions(coaches, seatsPerCoach)[i], Positions(coaches, seatsPerCoach)[j])
  {
    if coaches > 0 {
      PositionsOrdered(coaches - 1, seatsPerCoach);
      CoachPositionsShape(coaches, seatsPerCoach);
      var pre := Positions(coaches - 1, seatsPerCoach);
      var ps := Positions(coaches, seatsPerCoach);
      assert forall i :: 0 <= i < |pre| ==> ps[i] == pre[i];
      assert forall i :: |pre| <= i < |ps| ==> ps[i] == (coaches, i - |pre| + 1);
    }
  }

  /** Seat labels determine the coach and seat numbers. */
  lemma SeatLabelInjective(prefix: string, c: nat, s: nat, c': nat, s': nat)
    requires SeatLabel(prefix, c, s) == SeatLabel(prefix, c', s')
    ensures c == c' && s == s'
  {
    NatToStringDigits(c);
    NatToStringDigits(c');
    SplitAtSeparator(prefix, NatToString(c), NatToString(s), NatToString(c'), NatToString(s'), '-');
    NatToStringInjective(c, c');
    NatToStringInjective(s, s');
  }

  /** A label starts with its coach prefix. */
  lemma SeatLabelStartsWithPrefix(prefix: string, c: nat, s: nat)
    requires |prefix| == 1
    ensures |SeatLabel(prefix, c, s)| >= 1 && SeatLabel(prefix, c, s)[0] == prefix[0]
  {
  }

  /** All seat numbers generated for one class are pairwise distinct. */
  lemma ClassSeatNumbersDistinct(trainRunId: int, classCode: string, numCoaches: int, seatsPerCoach: int, distanceKm: Option<int>)
    ensures var rows := ClassSeatRows(trainRunId, classCode, numCoaches, seatsPerCoach, distanceKm);
      forall i, j :: 0 <= i < j < |rows| ==> rows[i].seatNumber != rows[j].seatNumber
  {
    var ps := Positions(Max0(numCoaches), Max0(seatsPerCoach));
    var rows := ClassSeatRows(trainRunId, classCode, numCoaches, seatsPerCoach, distanceKm);
    PositionsOrdered(Max0(numCoaches), Max0(seatsPerCoach));
    forall i, j | 0 <= i < j < |rows| ensures rows[i].seatNumber != rows[j].seatNumber {
      if rows[i].seatNumber == rows[j].seatNumber {
        SeatLabelInjective(CoachPrefixOf(classCode), ps[i].0, ps[i].1, ps[j].0, ps[j].1);
        assert false;
      }
    }
  }

  /** The row of coach c, seat s (both from 1) sits at index (c - 1) * seatsPerCoach + (s - 1). */
  lemma ClassSeatRowAt(trainRunId: int, classCode: string, numCoaches: int, seatsPerCoach: int, distanceKm: Option<int>,
                       c: nat, s: nat)
    requires 1 <= c <= numCoaches && 1 <= s <= seatsPerCoach
    ensures var rows := ClassSeatRows(trainRunId, classCode, numCoaches, seatsPerCoach, distanceKm);
      && (c - 1) * seatsPerCoach + (s - 1) < |rows|
      && rows[(c - 1) * seatsPerCoach + (s - 1)] ==
           MakeSeat(trainRunId, classCode, CoachPrefixOf(classCode), SeatPrice(classCode, distanceKm), (c, s))
  {
    var spc := Max0(seatsPerCoach);
    assert spc == seatsPerCoach;
    var ps := Positions(Max0(numCoaches), spc);
    var k := (c - 1) * spc + (s - 1);
    PositionsAt(Max0(numCoaches), spc, c, s);
    var rows := SeatsAt(trainRunId, classCode, CoachPrefixOf(classCode), SeatPrice(classCode, distanceKm), ps);
    assert rows[k] == MakeSeat(trainRunId, classCode, CoachPrefixOf(classCode), SeatPrice(classCode, distanceKm), ps[k]);
  }

  /** Every row of a class carries the run, the class, AVAILABLE and the class price. */
  lemma ClassSeatRowsFields(trainRunId: int, classCode: string, numCoaches: int, seatsPerCoach: int, distanceKm: Option<int>)
    ensures var rows := ClassSeatRows(trainRunId, classCode, numCoaches, seatsPerCoach, distanceKm);
      forall i :: 0 <= i < |rows| ==>
        rows[i].trainRunId == trainRunId && rows[i].seatClass == classCode &&
        rows[i].status == Available && rows[i].priceCents == SeatPrice(classCode, distanceKm)
  {
  }

  /**
   * The rows of one class: coaches x seats of them, coach-major, seat
   * (c, s) being the row at (c - 1) * seatsPerCoach + (s - 1) and labelled
   * `<prefix><c>-<s>`, labels pairwise distinct, and every row carrying
   * the run, the class, AVAILABLE and the one class price.
   */
  lemma ClassSeatRowsShape(trainRunId: int, classCode: string, numCoaches: int, seatsPerCoach: int, distanceKm: Option<int>)
    ensures var rows := ClassSeatRows(trainRunId, classCode, numCoaches, seatsPerCoach, distanceKm);
      && |rows| == Max0(numCoaches) * Max0(seatsPerCoach)
      && (forall c: nat, s: nat :: 1 <= c <= numCoaches && 1 <= s <= seatsPerCoach ==>
            rows[(c - 1) * seatsPerCoach + (s - 1)] ==
              MakeSeat(trainRunId, classCode, CoachPrefixOf(classCode), SeatPrice(classCode, distanceKm), (c, s)))
      && (forall i, j :: 0 <= i < j < |rows| ==> rows[i].seatNumber != rows[j].seatNumber)
      && (forall i :: 0 <= i < |rows| ==>
            rows[i].trainRunId == trainRunId && rows[i].seatClass == classCode &&
            rows[i].status == Available && rows[i].priceCents == SeatPrice(classCode, distanceKm))
  {
    PositionsLength(Max0(numCoaches), Max0(seatsPerCoach));
    ClassSeatNumbersDistinct(trainRunId, classCode, numCoaches, seatsPerCoach, distanceKm);
    ClassSeatRowsFields(trainRunId, classCode, numCoaches, seatsPerCoach, distanceKm);
    forall c: nat, s: nat | 1 <= c <= numCoaches && 1 <= s <= seatsPerCoach {
      ClassSeatRowAt(trainRunId, classCode, numCoaches, seatsPerCoach, distanceKm, c, s);
    }
  }

  /**
   * generate_seat_rows, appending row by row in nested coach and seat
   * loops; the result is ClassSeatRows, whose shape ClassSeatRowsShape
   * gives.
   */
  method GenerateSeatRows(trainRunId: int, classCode: string, numCoaches: int, seatsPerCoach: int, distanceKm: Option<int>)
    returns (seats: seq<SeatRow>)
    ensures seats == ClassSeatRows(trainRunId, classCode, numCoaches, seatsPerCoach, distanceKm)
    ensures |seats| == Max0(numCoaches) * Max0(seatsPerCoach)
    ensures forall i, j :: 0 <= i < j < |seats| ==> seats[i].seatNumber != seats[j].seatNumber
  {
    seats := [];
    var coachPrefix := CoachPrefixOf(classCode);
    var price := SeatPrice(classCode, distanceKm);
    var spc := Max0(seatsPerCoach);
    var coachNum := 1;
    while coachNum <= numCoaches
      invariant 1 <= coachNum <= Max0(numCoaches) + 1
      invariant seats == SeatsAt(trainRunId, classCode, coachPrefix, price, Positions(coachNum - 1, spc))
    {
      var coachName := CoachName(coachPrefix, coachNum);
      var seatNum := 1;
      while seatNum <= seatsPerCoach
        invariant 1 <= seatNum <= spc + 1
        invariant seats == SeatsAt(trainRunId, classCode, coachPrefix, price,
          Positions(coachNum - 1, spc) + CoachPositions(coachNum, seatNum - 1))
      {
        var seatNumber := coachName + "-" + NatToString(seatNum);
        seats := seats + [SeatRow(trainRunId, seatNumber, coachName, classCode, Available, price)];
        seatNum := seatNum + 1;
      }
      coachNum := coachNum + 1;
    }
    ClassSeatRowsShape(trainRunId, classCode, numCoaches, seatsPerCoach, distanceKm);
  }
}
