/**
 * The schedule side of the railway data importer (scripts/import_data.py,
 * import_schedules): schedule entries grouped by train number, each
 * train's stops ordered by (day, departure) with Python's stable `sorted`
 * and Python's string order, and the train_stops row a stop becomes.
 */
module Schedules {
  import opened Wrappers
  import opened SeqFacts

  /**
   * One entry of the schedules file. `day`, `arrival` and `departure` may
   * be missing (None); the text "None" is a value the file itself uses.
   */
  datatype ScheduleStop = ScheduleStop(
    trainNumber: string,
    stationCode: string,
    day: Option<int>,
    arrival: Option<string>,
    departure: Option<string>)

  /**
   * The columns of a train_stops row the importer writes. A `None`
   * day offset is a row inserted without one (the table default applies).
   */
  datatype StopRow = StopRow(
    stationCode: string,
    arrivalTime: Option<string>,
    departureTime: Option<string>,
    dayOffset: Option<int>)

  /** The train_stops key: (train id, stop sequence), unique in the table. */
  type StopKey = (int, int)

  // ---------------------------------------------------------------------
  // Python string order
  // ---------------------------------------------------------------------

  /** `a < b` on Python strings: the first differing character decides, and a proper prefix is smaller. */
  function StrLt(a: string, b: string): bool {
    if b == [] then false
    else if a == [] then true
    else if a[0] != b[0] then a[0] < b[0]
    else StrLt(a[1..], b[1..])
  }

  lemma {:induction false} StrLtIrreflexive(a: string)
    ensures !StrLt(a, a)
  {
    if a != [] {
      StrLtIrreflexive(a[1..]);
    }
  }

  lemma {:induction false} StrLtAsymmetric(a: string, b: string)
    ensures StrLt(a, b) ==> !StrLt(b, a)
  {
    if a != [] && b != [] && a[0] == b[0] {
      StrLtAsymmetric(a[1..], b[1..]);
    }
  }

  lemma {:induction false} StrLtTransitive(a: string, b: string, c: string)
    requires StrLt(a, b) && StrLt(b, c)
    ensures StrLt(a, c)
  {
    if a != [] && a[0] == b[0] && b[0] == c[0] {
      StrLtTransitive(a[1..], b[1..], c[1..]);
    }
  }

  /** Any two strings are equal or ordered one way or the other. */
  lemma {:induction false} StrLtTotal(a: string, b: string)
    ensures a == b || StrLt(a, b) || StrLt(b, a)
  {
    if a != [] && b != [] && a[0] == b[0] {
      StrLtTotal(a[1..], b[1..]);
      if a[1..] == b[1..] {
        assert a == [a[0]] + a[1..] && b == [b[0]] + b[1..];
      }
    }
  }

  // ---------------------------------------------------------------------
  // The sort key
  // ---------------------------------------------------------------------

  /** The day of a stop, 1 when it has none. */
  function DayOrFirst(stop: ScheduleStop): int {
    match stop.day
    case Some(d) => d
    case None => 1
  }

  /** The departure of a stop, "00:00:00" when it has none. */
  function DepartureOrMidnight(stop: ScheduleStop): string {
    match stop.departure
    case Some(t) => t
    case None => "00:00:00"
  }

  /** The sort key of import_schedules: (day or 1, departure or "00:00:00"). */
  function Key(stop: ScheduleStop): (int, string) {
    (DayOrFirst(stop), DepartureOrMidnight(stop))
  }

  /** Python's `<` on (int, str) tuples: by day, then by departure text. */
  predicate KeyLt(x: (int, string), y: (int, string)) {
    x.0 < y.0 || (x.0 == y.0 && StrLt(x.1, y.1))
  }

  /** Not after: `y < x` is false. */
  predicate KeyLe(x: (int, string), y: (int, string)) {
    !KeyLt(y, x)
  }

  /** The key order is a strict total order: irreflexive, transitive, and total on distinct keys. */
  lemma KeyLtOrder(x: (int, string), y: (int, string), z: (int, string))
    ensures !KeyLt(x, x)
    ensures KeyLt(x, y) ==> !KeyLt(y, x)
    ensures KeyLt(x, y) && KeyLt(y, z) ==> KeyLt(x, z)
    ensures x == y || KeyLt(x, y) || KeyLt(y, x)
  {
    StrLtIrreflexive(x.1);
    StrLtAsymmetric(x.1, y.1);
    StrLtTotal(x.1, y.1);
    if KeyLt(x, y) && KeyLt(y, z) && x.0 == y.0 == z.0 {
      StrLtTransitive(x.1, y.1, z.1);
    }
  }

  /** "Not after" is transitive and any two keys are comparable under it. */
  lemma KeyLeOrder(x: (int, string), y: (int, string), z: (int, string))
    ensures KeyLe(x, y) || KeyLe(y, x)
    ensures KeyLe(x, y) && KeyLe(y, z) ==> KeyLe(x, z)
  {
    KeyLtOrder(x, y, z);
    KeyLtOrder(z, x, y);
    KeyLtOrder(y, z, x);
    KeyLtOrder(x, z, y);
  }

  // ---------------------------------------------------------------------
  // Stable sorting by key
  // ---------------------------------------------------------------------

  predicate SortedByKey(s: seq<ScheduleStop>) {
    forall i, j :: 0 <= i < j < |s| ==> KeyLe(Key(s[i]), Key(s[j]))
  }

  /** The stops of `s` whose key is `k`, in their order in `s`. */
  function WithKey(s: seq<ScheduleStop>, k: (int, string)): seq<ScheduleStop> {
    if s == [] then []
    else
      var last := s[|s| - 1];
      WithKey(s[..|s| - 1], k) + (if Key(last) == k then [last] else [])
  }

  /** Place `x` before the first stop of `s` with a larger key, so after every stop with an equal key. */
  function Insert(x: ScheduleStop, s: seq<ScheduleStop>): (r: seq<ScheduleStop>)
    ensures |r| == |s| + 1
  {
    if s == [] then [x]
    else if KeyLt(Key(x), Key(s[0])) then [x] + s
    else [s[0]] + Insert(x, s[1..])
  }

  /** `sorted(stops, key=Key)`: each stop in input order placed after the equal keys already placed. */
  function SortStops(stops: seq<ScheduleStop>): (r: seq<ScheduleStop>)
    ensures |r| == |stops|
  {
    if stops == [] then []
    else Insert(stops[|stops| - 1], SortStops(stops[..|stops| - 1]))
  }

  lemma {:induction false} InsertMultiset(x: ScheduleStop, s: seq<ScheduleStop>)
    ensures multiset(Insert(x, s)) == multiset(s) + multiset{x}
  {
    if s != [] && !KeyLt(Key(x), Key(s[0])) {
      InsertMultiset(x, s[1..]);
      assert s == [s[0]] + s[1..];
    }
  }

  /** Every stop of `Insert(x, s)` is `x` or a stop of `s`. */
  lemma {:induction false} InsertMembers(x: ScheduleStop, s: seq<ScheduleStop>)
    ensures forall j :: 0 <= j < |Insert(x, s)| ==>
      Insert(x, s)[j] == x || exists m :: 0 <= m < |s| && s[m] == Insert(x, s)[j]
  {
    var r := Insert(x, s);
    if s != [] {
      if KeyLt(Key(x), Key(s[0])) {
        forall j | 1 <= j < |r| ensures exists m :: 0 <= m < |s| && s[m] == r[j] {
          assert s[j - 1] == r[j];
        }
      } else {
        InsertMembers(x, s[1..]);
        var t := Insert(x, s[1..]);
        forall j | 0 <= j < |r| && r[j] != x ensures exists m :: 0 <= m < |s| && s[m] == r[j] {
          if j == 0 {
            assert s[0] == r[0];
          } else {
            assert r[j] == t[j - 1];
            var m :| 0 <= m < |s[1..]| && s[1..][m] == t[j - 1];
            assert s[m + 1] == r[j];
          }
        }
      }
    }
  }

  lemma {:induction false} InsertSorted(x: ScheduleStop, s: seq<ScheduleStop>)
    requires SortedByKey(s)
    ensures SortedByKey(Insert(x, s))
  {
    var r := Insert(x, s);
    if s == [] {
    } else if KeyLt(Key(x), Key(s[0])) {
      forall j | 1 <= j < |r| ensures KeyLe(Key(x), Key(r[j])) {
        assert r[j] == s[j - 1];
        KeyLtOrder(Key(x), Key(s[0]), Key(x));
        KeyLeOrder(Key(x), Key(s[0]), Key(s[j - 1]));
      }
      forall i, j | 1 <= i < j < |r| ensures KeyLe(Key(r[i]), Key(r[j])) {
        assert r[i] == s[i - 1] && r[j] == s[j - 1];
      }
    } else {
      InsertSorted(x, s[1..]);
      InsertMembers(x, s[1..]);
      var t := Insert(x, s[1..]);
      assert r == [s[0]] + t;
      KeyLtOrder(Key(x), Key(s[0]), Key(x));
      forall j | 0 <= j < |t| ensures KeyLe(Key(s[0]), Key(t[j])) {
        if t[j] != x {
          var m :| 0 <= m < |s| - 1 && s[1..][m] == t[j];
          assert s[1 + m] == t[j];
        }
      }
      forall i, j | 0 <= i < j < |r| ensures KeyLe(Key(r[i]), Key(r[j])) {
        if i == 0 {
          assert r[j] == t[j - 1];
        } else {
          assert r[i] == t[i - 1] && r[j] == t[j - 1];
        }
      }
    }
  }

  lemma {:induction false} InsertWithKey(x: ScheduleStop, s: seq<ScheduleStop>, k: (int, string))
    requires SortedByKey(s)
    ensures WithKey(Insert(x, s), k) == WithKey(s, k) + (if Key(x) == k then [x] else [])
  {
    if s == [] {
      assert [x][..0] == [];
    } else if KeyLt(Key(x), Key(s[0])) {
      InsertBeforeGreater(x, s, k);
    } else {
      var t := Insert(x, s[1..]);
      var head := if Key(s[0]) == k then [s[0]] else [];
      var tail := if Key(x) == k then [x] else [];
      InsertWithKey(x, s[1..], k);
      WithKeyCons(s[0], t, k);
      WithKeyCons(s[0], s[1..], k);
      AppendAssoc(head, WithKey(s[1..], k), tail);
      assert [s[0]] + s[1..] == s;
    }
  }

  /** Keys of a sorted sequence: when `x` is smaller than the first, no stop of `s` shares its key. */
  lemma InsertBeforeGreater(x: ScheduleStop, s: seq<ScheduleStop>, k: (int, string))
    requires SortedByKey(s) && s != [] && KeyLt(Key(x), Key(s[0]))
    ensures WithKey([x] + s, k) == WithKey(s, k) + (if Key(x) == k then [x] else [])
  {
    WithKeyCons(x, s, k);
    if Key(x) == k {
      forall i | 0 <= i < |s| ensures Key(s[i]) != k {
        KeyLtOrder(Key(x), Key(s[0]), Key(s[i]));
        if i > 0 {
          KeyLtOrder(Key(s[i]), Key(x), Key(s[0]));
        }
      }
      WithKeyNone(s, k);
    }
  }

  lemma {:induction false} WithKeyNone(s: seq<ScheduleStop>, k: (int, string))
    requires forall i :: 0 <= i < |s| ==> Key(s[i]) != k
    ensures WithKey(s, k) == []
  {
    if s != [] {
      WithKeyNone(s[..|s| - 1], k);
    }
  }

  /** Filtering by key distributes over putting one stop in front. */
  lemma {:induction false} WithKeyCons(x: ScheduleStop, s: seq<ScheduleStop>, k: (int, string))
    ensures WithKey([x] + s, k) == (if Key(x) == k then [x] else []) + WithKey(s, k)
  {
    if s == [] {
      assert ([x] + s)[..0] == [];
    } else {
      var pre := s[..|s| - 1];
      WithKeyCons(x, pre, k);
      assert ([x] + s)[..|[x] + s| - 1] == [x] + pre;
    }
  }

  /**
   * The sort Python performs: the result is ordered by key, holds the
   * same stops, and is stable — the stops sharing any one key keep their
   * input order.
   */
  lemma {:induction false} SortStopsCorrect(stops: seq<ScheduleStop>)
    ensures var r := SortStops(stops);
      && SortedByKey(r)
      && multiset(r) == multiset(stops)
      && (forall k :: WithKey(r, k) == WithKey(stops, k))
  {
    if stops != [] {
      var pre := stops[..|stops| - 1];
      var last := stops[|stops| - 1];
      SortStopsCorrect(pre);
      InsertMultiset(last, SortStops(pre));
      InsertSorted(last, SortStops(pre));
      forall k ensures WithKey(SortStops(stops), k) == WithKey(stops, k) {
        InsertWithKey(last, SortStops(pre), k);
      }
      assert stops == pre + [last];
    }
  }

  // ---------------------------------------------------------------------
  // Grouping by train and the stored rows
  // ---------------------------------------------------------------------

  /** The schedule entries of train `number`, in file order. */
  function EntriesOf(schedules: seq<ScheduleStop>, number: string): seq<ScheduleStop> {
    if schedules == [] then []
    else
      var last := schedules[|schedules| - 1];
      EntriesOf(schedules[..|schedules| - 1], number) + (if last.trainNumber == number then [last] else [])
  }

  /** Train numbers in order of first appearance, each once. */
  function TrainNumbers(schedules: seq<ScheduleStop>): seq<string> {
    if schedules == [] then []
    else
      var pre := TrainNumbers(schedules[..|schedules| - 1]);
      var number := schedules[|schedules| - 1].trainNumber;
      if number in pre then pre else pre + [number]
  }

  /** The grouped dictionary: one (train number, entries) pair per train, in first-appearance order. */
  function Groups(schedules: seq<ScheduleStop>): seq<(string, seq<ScheduleStop>)> {
    var numbers := TrainNumbers(schedules);
    seq(|numbers|, i requires 0 <= i < |numbers| => (numbers[i], EntriesOf(schedules, numbers[i])))
  }

  /** Every train number of the file appears once among the group keys, and nothing else does. */
  lemma {:induction false} TrainNumbersExact(schedules: seq<ScheduleStop>)
    ensures var numbers := TrainNumbers(schedules);
      && (forall i, j :: 0 <= i < j < |numbers| ==> numbers[i] != numbers[j])
      && (forall i :: 0 <= i < |schedules| ==> schedules[i].trainNumber in numbers)
      && (forall n :: n in numbers ==> exists i :: 0 <= i < |schedules| && schedules[i].trainNumber == n)
  {
    if schedules != [] {
      var pre := schedules[..|schedules| - 1];
      var last := schedules[|schedules| - 1];
      TrainNumbersExact(pre);
      var p := TrainNumbers(pre);
      var numbers := TrainNumbers(schedules);
      if last.trainNumber !in p {
        assert numbers == p + [last.trainNumber];
        forall i, j | 0 <= i < j < |numbers| ensures numbers[i] != numbers[j] {
          assert numbers[i] == p[i];
          if j < |p| {
            assert numbers[j] == p[j];
          }
        }
      }
      forall i | 0 <= i < |schedules| ensures schedules[i].trainNumber in numbers {
        if i < |pre| {
          assert schedules[i] == pre[i];
        }
      }
      forall n | n in numbers ensures exists i :: 0 <= i < |schedules| && schedules[i].trainNumber == n {
        if n in p {
          var i :| 0 <= i < |pre| && pre[i].trainNumber == n;
          assert schedules[i] == pre[i];
        } else {
          assert schedules[|schedules| - 1].trainNumber == n;
        }
      }
    }
  }

  /** A group holds exactly the entries of its train, and no group is empty. */
  lemma {:induction false} EntriesOfMembers(schedules: seq<ScheduleStop>, number: string)
    ensures forall e :: e in EntriesOf(schedules, number) <==> e in schedules && e.trainNumber == number
    ensures |EntriesOf(schedules, number)| <= |schedules|
  {
    if schedules != [] {
      var pre := schedules[..|schedules| - 1];
      EntriesOfMembers(pre, number);
      assert schedules == pre + [schedules[|schedules| - 1]];
    }
  }

  /** `stop.get(field) if stop.get(field) != 'None' else None`: the text "None" is stored as null. */
  function NullIfNoneText(t: Option<string>): (r: Option<string>)
    ensures r.Some? <==> t.Some? && t.value != "None"
    ensures r.Some? ==> r == t
  {
    if t == Some("None") then None else t
  }

  /** The train_stops columns written for a scheduled stop; the day becomes a 0-based offset. */
  function ScheduledRow(stop: ScheduleStop): (r: StopRow)
    ensures r.stationCode == stop.stationCode
    ensures r.arrivalTime == NullIfNoneText(stop.arrival) && r.departureTime == NullIfNoneText(stop.departure)
    ensures r.dayOffset == Some(DayOrFirst(stop) - 1)
    ensures stop.day.None? ==> r.dayOffset == Some(0)
  {
    StopRow(stop.stationCode, NullIfNoneText(stop.arrival), NullIfNoneText(stop.departure), Some(DayOrFirst(stop) - 1))
  }

  /** The dictionary grouping of import_schedules: keys in first-appearance order, each with its entries. */
  method GroupByTrain(schedules: seq<ScheduleStop>) returns (order: seq<string>, groups: map<string, seq<ScheduleStop>>)
    ensures order == TrainNumbers(schedules)
    ensures forall n :: n in groups <==> n in order
    ensures forall n :: n in groups ==> groups[n] == EntriesOf(schedules, n)
  {
    order := [];
    groups := map[];
    var i := 0;
    while i < |schedules|
      invariant 0 <= i <= |schedules|
      invariant order == TrainNumbers(schedules[..i])
      invariant forall n :: n in groups <==> n in order
      invariant forall n :: n in groups ==> groups[n] == EntriesOf(schedules[..i], n)
    {
      var entry := schedules[i];
      var number := entry.trainNumber;
      assert schedules[..i + 1][..i] == schedules[..i];
      if number in groups {
        groups := groups[number := groups[number] + [entry]];
      } else {
        EntriesOfAbsent(schedules[..i], number);
        groups := groups[number := [entry]];
        order := order + [number];
      }
      i := i + 1;
    }
    assert schedules[..i] == schedules;
  }

  /** A train number that no entry carries has no entries, and is no group key. */
  lemma EntriesOfAbsent(schedules: seq<ScheduleStop>, number: string)
    requires number !in TrainNumbers(schedules)
    ensures EntriesOf(schedules, number) == []
  {
    TrainNumbersExact(schedules);
    EntriesOfMembers(schedules, number);
  }

  // ---------------------------------------------------------------------
  // Upserting a train's stops
  // ---------------------------------------------------------------------

  /**
   * The upserts of one train's sorted stops: stop number s (from 1) goes
   * to key (train, s), replacing any row there.
   */
  function ScheduleUpserts(stops: map<StopKey, StopRow>, trainId: int, sorted: seq<ScheduleStop>): map<StopKey, StopRow> {
    if sorted == [] then stops
    else
      var n := |sorted|;
      ScheduleUpserts(stops, trainId, sorted[..n - 1])[(trainId, n) := ScheduledRow(sorted[n - 1])]
  }

  /**
   * After the upserts, at one key: the train's sequences 1..n hold its
   * stops in order, numbered with no gap; every other key, including the
   * train's own sequences past n, keeps what it had.
   */
  lemma {:induction false} ScheduleUpsertsAt(stops: map<StopKey, StopRow>, trainId: int, sorted: seq<ScheduleStop>, key: StopKey)
    ensures var after := ScheduleUpserts(stops, trainId, sorted);
      && (key in after <==> key in stops || (key.0 == trainId && 1 <= key.1 <= |sorted|))
      && (key.0 == trainId && 1 <= key.1 <= |sorted| ==> after[key] == ScheduledRow(sorted[key.1 - 1]))
      && (key in stops && !(key.0 == trainId && 1 <= key.1 <= |sorted|) ==> after[key] == stops[key])
  {
    if sorted != [] {
      ScheduleUpsertsAt(stops, trainId, sorted[..|sorted| - 1], key);
    }
  }

  /** The upserts of every group whose train number is known, in group order. */
  function ImportGroups(stops: map<StopKey, StopRow>, groups: seq<(string, seq<ScheduleStop>)>, trainIds: map<string, int>)
    : map<StopKey, StopRow>
  {
    if groups == [] then stops
    else
      var before := ImportGroups(stops, groups[..|groups| - 1], trainIds);
      var group := groups[|groups| - 1];
      if group.0 in trainIds then ScheduleUpserts(before, trainIds[group.0], SortStops(group.1)) else before
  }

  /** How many stops the groups of known trains hold. */
  function ImportedCount(groups: seq<(string, seq<ScheduleStop>)>, trainIds: map<string, int>): nat {
    if groups == [] then 0
    else
      var group := groups[|groups| - 1];
      ImportedCount(groups[..|groups| - 1], trainIds) + (if group.0 in trainIds then |group.1| else 0)
  }

  /** The groups of known trains have pairwise distinct train ids. */
  predicate DistinctTrainIds(groups: seq<(string, seq<ScheduleStop>)>, trainIds: map<string, int>) {
    forall i, j :: 0 <= i < j < |groups| && groups[i].0 in trainIds && groups[j].0 in trainIds ==>
      trainIds[groups[i].0] != trainIds[groups[j].0]
  }

  /** After importing all groups, each known train's sequences 1..n hold its entries sorted by (day, departure). */
  lemma {:induction false} ImportGroupsWritten(stops: map<StopKey, StopRow>, groups: seq<(string, seq<ScheduleStop>)>,
      trainIds: map<string, int>, g: nat, s: int)
    requires DistinctTrainIds(groups, trainIds)
    requires g < |groups| && groups[g].0 in trainIds && 1 <= s <= |groups[g].1|
    ensures var after := ImportGroups(stops, groups, trainIds);
      (trainIds[groups[g].0], s) in after &&
      after[(trainIds[groups[g].0], s)] == ScheduledRow(SortStops(groups[g].1)[s - 1])
  {
    var n := |groups| - 1;
    var pre := groups[..n];
    var before := ImportGroups(stops, pre, trainIds);
    var key := (trainIds[groups[g].0], s);
    if g < n {
      assert pre[g] == groups[g];
      DistinctTrainIdsPrefix(groups, trainIds);
      ImportGroupsWritten(stops, pre, trainIds, g, s);
    }
    if groups[n].0 in trainIds {
      ScheduleUpsertsAt(before, trainIds[groups[n].0], SortStops(groups[n].1), key);
    }
  }

  lemma DistinctTrainIdsPrefix(groups: seq<(string, seq<ScheduleStop>)>, trainIds: map<string, int>)
    requires groups != [] && DistinctTrainIds(groups, trainIds)
    ensures DistinctTrainIds(groups[..|groups| - 1], trainIds)
  {
    var pre := groups[..|groups| - 1];
    forall i, j | 0 <= i < j < |pre| ensures pre[i] == groups[i] && pre[j] == groups[j] {
    }
  }

  /** A key of a train that no group of a known train names keeps its row. */
  lemma {:induction false} ImportGroupsUntouched(stops: map<StopKey, StopRow>, groups: seq<(string, seq<ScheduleStop>)>,
      trainIds: map<string, int>, key: StopKey)
    requires key in stops
    requires forall g :: 0 <= g < |groups| && groups[g].0 in trainIds ==> key.0 != trainIds[groups[g].0]
    ensures var after := ImportGroups(stops, groups, trainIds);
      key in after && after[key] == stops[key]
  {
    if groups != [] {
      var n := |groups| - 1;
      var pre := groups[..n];
      forall g | 0 <= g < |pre| && pre[g].0 in trainIds ensures key.0 != trainIds[pre[g].0] {
        assert pre[g] == groups[g];
      }
      ImportGroupsUntouched(stops, pre, trainIds, key);
      if groups[n].0 in trainIds {
        ScheduleUpsertsAt(ImportGroups(stops, pre, trainIds), trainIds[groups[n].0], SortStops(groups[n].1), key);
      }
    }
  }
}
