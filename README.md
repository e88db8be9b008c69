# Railway reservation: seat inventory, route import and train search

This project models the logic of the railway-reservation system that
actually computes something, and proves properties of it in Dafny. The
repository contains no itinerary search (the v1 search router is a stub
and the routing graph is a TODO), so the model covers three components:

- **Seat-inventory generation** (`backend/app/services/seatgen.py`):
  - `parse_classes_config` turns a train's `classes` text into a class table, with its defaults and fallbacks.
  - `generate_seat_rows` expands one class into coach-by-coach seat rows labelled `S1-1`, `A2-17`, …, with an integer per-km fare in paise.
  - `generate_seats_for_runs` selects the runs of the window that have no seats, builds every class's rows, inserts them in batches, sets each run's totals and counts statistics.
  - `generate_seats_for_train_run` does the same for one run. It does nothing when the run already has seats or does not exist.
  - Modules `Seatgen` (one class) and `SeatgenRuns` (whole runs). `SeatSession` is the database session: the seats table, with its unique key on (run id, seat number), plus the insert statements that took effect. `TrainRun` is a run whose totals are updated in place.
- **Route and schedule import** (`scripts/import_data.py`):
  - The brute-force branch of `SpatialIndex.find_nearest`, a running minimum over the station list.
  - `map_route_to_stations`, which keeps a station only when it differs from the last one kept and counts mapped and unmapped points and mapping warnings.
  - The route-derived `train_stops` rows, numbered 1..n with `INSERT OR IGNORE`.
  - `import_schedules`: entries grouped by train number, each train's stops stably sorted by (day, departure) in Python's tuple and string order, and upserted as stops 1..n with a 0-based day offset.
  - Modules `RouteImport` and `Schedules` hold the specification functions. `Importer.RailwayImporter` is the importer object: its counters, its warnings table and its `train_stops` table keyed by (train id, stop sequence).
- **Through-train search fallback** (`backend/app/api/search.py`):
  - When no direct train exists, the origin's (train, stop sequence) rows become a dict in which the last row wins.
  - A destination row is kept when its train reached the origin at a smaller stop sequence.
  - At most `limit` selected ids are passed on, with Python's slice semantics.
  - Module `TrainSearch`.

Python exceptions that the code lets escape are modelled as `Result`
errors:
- `.items()` on a decoded value that is not a dict gives `AttributeError`.
- `range()` on a count that is not an int gives `TypeError`.
- A batch size of 0 gives `ValueError`.
- An insert that repeats a (run id, seat number) pair breaks the seats table's unique key `uq_seat_number` and gives `IntegrityError`.

A `bool` counts as an int, as it does in Python. `json.loads` and the
great-circle distance are function parameters. Database queries are
inputs, and the tables they write are fields or maps.

## Model

| member | source | states |
|---|---|---|
| Seatgen.FallbackPriceIs500Km | backend/app/services/seatgen.py:121-126 | With no distance or a distance of 0, a class with a rate is priced as a 500 km journey, and a class without a rate costs 500 × 100 paise, the SL price at 500 km. |
| Seatgen.SeatPriceByDistance | backend/app/services/seatgen.py:121-126 | With a known distance d other than 0, a class with a rate costs d × rate, which is d/500 of its 500 km fallback price. A class without a rate costs 50000 paise whatever the distance. |
| Seatgen.CoachPrefixesDistinct | backend/app/services/seatgen.py:37-45 | Every coach prefix is one letter. Distinct classes of the prefix table get distinct prefixes, and none of them is the unknown-class prefix "X". |
| Seatgen.ParseClassesConfig | backend/app/services/seatgen.py:59-95 | The normalising loop computes the class-table specification, and a table it returns is never empty. |
| Seatgen.NormalizeFromInput | backend/app/services/seatgen.py:78-93 | Every normalised class comes from an item of the decoded dict with the same key, normalised by the per-value rule. There are never more classes than items. |
| Seatgen.NormalizeLookup | backend/app/services/seatgen.py:79-93 | For a decoded dict with distinct keys, looking up any key in the table gives the rule for its value:<br>- an int or bool v becomes (coaches v, seats default-or-72);<br>- a dict takes `coaches` (default 1) and `seats_per_coach` (default-or-72);<br>- any other value is dropped. |
| Seatgen.NormalizeDistinct | backend/app/services/seatgen.py:78-93 | A decoded dict with distinct keys gives a class table with distinct keys. |
| Seatgen.NormalizePrefixed | backend/app/services/seatgen.py:78-93 | If at most one key of the decoded dict lacks a coach prefix, the same holds for the class table. |
| Seatgen.ClassesConfigKeys | backend/app/services/seatgen.py:68-95 | A parsed table is non-empty. It is either the one-SL-coach default or holds only keys of the decoded dict. Parsing fails exactly when the text is non-empty and decodes to something other than a dict. |
| Seatgen.PositionsAt | backend/app/services/seatgen.py:128-131 | Coach c, seat s sits at index (c−1)·seats + (s−1): coach-major, then seat-ascending order. |
| Seatgen.SeatLabelInjective | backend/app/services/seatgen.py:129-134 | Equal labels `<prefix><coach>-<seat>` have equal coach and seat numbers. |
| Seatgen.ClassSeatNumbersDistinct | backend/app/services/seatgen.py:128-134 | All seat numbers generated for one class are pairwise distinct. |
| Seatgen.ClassSeatRowAt | backend/app/services/seatgen.py:128-134 | The row of coach c, seat s is at index (c−1)·seats + (s−1). It is labelled `<prefix><c>-<s>` in coach `<prefix><c>`. |
| Seatgen.ClassSeatRowsFields | backend/app/services/seatgen.py:165-172 | Every row of a class carries the run id, the class code, AVAILABLE and the one class price. |
| Seatgen.ClassSeatRowsShape | backend/app/services/seatgen.py:117-174 | A class yields max(0, coaches) × max(0, seats) rows, coach-major. Each row has its position's label, all labels are distinct, and every row carries the run, the class, AVAILABLE and the price. |
| Seatgen.GenerateSeatRows | backend/app/services/seatgen.py:98-174 | The nested coach and seat loops produce exactly the class's rows: coaches × seats of them, with pairwise distinct seat numbers. |
| SeatgenRuns.TableRowsSize | backend/app/services/seatgen.py:242-254 | A run's row count is the sum over its classes of coaches × max(0, seats), counting only classes with at least one coach. |
| SeatgenRuns.TableRowsErrorPersists | backend/app/services/seatgen.py:243-254 | Once a class fails, building the run's rows fails with that class's error. |
| SeatgenRuns.ClassRowsRules | backend/app/services/seatgen.py:128-131 | The count rules of one class:<br>- a coach count that is neither an int nor a bool raises TypeError;<br>- fewer than one coach gives no rows, and the seat count is never read;<br>- with at least one coach, a seat count that is neither an int nor a bool raises TypeError;<br>- a bool counts as 1 or 0, and a class that builds has as many rows as its size. |
| SeatgenRuns.ClassRowsLabels | backend/app/services/seatgen.py:117-134 | Every row of a class carries the run id and the class code, and its seat number starts with the class's coach prefix. |
| SeatgenRuns.TableRowsClasses | backend/app/services/seatgen.py:242-254 | Every row of a run carries the run id and belongs to a class of its table, and its label starts with that class's prefix. |
| SeatgenRuns.RunSeatNumbersDistinct | backend/app/services/seatgen.py:242-254 | Seat numbers are pairwise distinct across a whole run, given distinct class keys and at most one class without a prefix. |
| SeatgenRuns.TwoUnknownClassesCollide | backend/app/services/seatgen.py:117-134 | The classes text {"FOO": 1, "BAR": 1} gives rows 0 and 72 the same seat number "X1-1". With a positive batch size, the run fails with IntegrityError. |
| SeatgenRuns.UnprefixedClassesCollide | backend/app/services/seatgen.py:117-134 | Any two classes without a coach prefix, one coach each, give 144 rows whose rows 0 and 72 are both "X1-1". The seat numbers are not pairwise distinct, so with a positive batch size the run fails with IntegrityError. |
| SeatgenRuns.RunPlanSeatNumbersDistinct | backend/app/services/seatgen.py:239-254 | A run whose classes text decodes to a dict with at most one class lacking a coach prefix gets pairwise distinct seat numbers. It never fails with IntegrityError. |
| SeatgenRuns.SmokeTestFifteenSeats | backend/scripts/smoke_test_seatgen.py:71-134 | The smoke test's train (SL 1×10, 3A 1×5) gets 15 rows: 10 SL rows in coach S1, then 5 3A rows in coach A1. |
| SeatgenRuns.ChunksPartition | backend/app/services/seatgen.py:257-259 | The insert batches are consecutive slices. Each holds 1 to batch_size rows, all but the last hold exactly batch_size, and together they are exactly the run's rows. |
| SeatgenRuns.SeatSession.Insert | backend/app/db/models.py:177 | The statement takes effect exactly when the unique key admits its rows: no new row repeats the (run id, seat number) of a stored row or of another new row. It then appends the rows and is recorded. Otherwise it raises IntegrityError and changes nothing. |
| SeatgenRuns.AdmitsAppend | backend/app/db/models.py:177 | Inserting a + b in one statement is admitted exactly when inserting a and then b is. |
| SeatgenRuns.AdmitsRun | backend/app/db/models.py:177 | On a table without rows of the run, the run's rows are admitted exactly when their seat numbers are pairwise distinct. |
| SeatgenRuns.AcceptedAll | backend/app/services/seatgen.py:257-259 | Every batch gets through exactly when all the batches' rows together satisfy the unique key. |
| SeatgenRuns.InsertBatches | backend/app/services/seatgen.py:257-259 | A batch size of 0 raises ValueError, and a negative size inserts nothing. With a positive size the batches take effect in order until the unique key refuses one, which raises IntegrityError; the earlier batches stay. With no refusal the table gains exactly the run's rows, one statement per batch. |
| SeatgenRuns.RunsNeedingSeatsMembers | backend/app/services/seatgen.py:211-229 | The selected runs are exactly the candidate runs with no seat, of a listed train when a non-empty list is given. They keep candidate order. |
| SeatgenRuns.CountSeatsNone | backend/app/services/seatgen.py:215-225 | The query's seat count of a run is 0 exactly when the table holds no seat of the run. |
| SeatgenRuns.RunFailure | backend/app/services/seatgen.py:235-259 | The error of one run, in the order the loop body meets them:<br>- the class's error when the rows cannot be built;<br>- then ValueError for batch size 0;<br>- then IntegrityError when the batch size is positive and two of the run's rows share a seat number. |
| SeatgenRuns.RefusedBatch | backend/app/services/seatgen.py:257-259 | With a positive batch size, on a table without rows of the run, a run whose rows build fails with IntegrityError exactly when the key refuses one of its batches. It completes exactly when every batch gets through. |
| SeatgenRuns.CompletedStep | backend/app/services/seatgen.py:235-270 | The loop stops at the first failing run: with the runs before k completed, run k ends the loop exactly when it fails. |
| SeatgenRuns.PlannedSeatsSize | backend/app/services/seatgen.py:262-269 | The seats-created count of the processed runs is the sum of their row counts. |
| SeatgenRuns.BuildRunSeats | backend/app/services/seatgen.py:239-254 | The class loop produces the run's row specification, including its first error. |
| SeatgenRuns.ProcessRun | backend/app/services/seatgen.py:235-270 | One loop step has two outcomes:<br>- On failure the run is the first failing one and the totals are unchanged. The session gains the run's batches that took effect before the refused one, and none for any other error.<br>- On success the session gains the run's rows and batches, the run's totals become its row count, and the other runs keep theirs. |
| SeatgenRuns.ProcessRuns | backend/app/services/seatgen.py:233-277 | The runs before the first failure have their rows and batches inserted in order and their totals set to their row counts. Later runs keep their totals. After a failure the session also holds the failing run's batches that took effect. On success the statistics are (runs, rows, distinct trains). |
| SeatgenRuns.GenerateSeatsForRuns | backend/app/services/seatgen.py:177-284 | Only runs without seats (of the listed trains) are processed. Their rows and batches are inserted and their totals set. Every other candidate keeps its totals. Failures, including the IntegrityError of a run with repeated seat numbers, and statistics are as for the run loop. |
| SeatgenRuns.FindRun | backend/app/services/seatgen.py:310-320 | Finds the first joined row of the run, or reports that there is none. |
| SeatgenRuns.GenerateSeatsForTrainRun | backend/app/services/seatgen.py:287-351 | A run that already has seats, or is missing, yields 0 and changes nothing. A run whose rows repeat a seat number fails with IntegrityError and changes nothing. Otherwise the result is the run's row count; the rows are inserted in one statement and the totals set only when there are rows. |
| SeatgenRuns.InsertRunSeats | backend/app/services/seatgen.py:339-346 | On a table without rows of the run, the one insert takes effect exactly when the rows' seat numbers are pairwise distinct, and the run's totals then become the row count. Otherwise nothing changes. |
| RouteImport.ArgMin | scripts/import_data.py:148-155 | The position found holds the least distance, and no earlier position holds one as small (strict `<` keeps the first). |
| RouteImport.Nearest | scripts/import_data.py:121-159 | There is no result for an empty index. A result names a station at the least distance within the radius. No result means every station is beyond the radius. |
| RouteImport.FindNearest | scripts/import_data.py:133-159 | The running-minimum loop, starting from infinity, returns the nearest-station specification. |
| RouteImport.RouteScanShape | scripts/import_data.py:280-294 | The previous station is the last kept. Coordinate indices strictly increase and are in range, so there are no more pairs than coordinates. Each pair names the station found at its index, and no two adjacent pairs repeat a station. |
| RouteImport.RouteScanCovers | scripts/import_data.py:283-293 | At every coordinate where a station was found, the station in force (the last kept at or before it) is that station. |
| RouteImport.RouteScanExamples | scripts/import_data.py:281-310 | A, unmapped, A keeps A once; A, B, A keeps all three. |
| RouteImport.RouteWarningsCount | scripts/import_data.py:309-321 | The route has exactly as many NO_STATION_NEARBY warnings as unmapped coordinates. |
| RouteImport.RouteWarningsCover | scripts/import_data.py:296-321 | Every unmapped coordinate gets a NO_STATION_NEARBY warning at its index and position. Every coordinate whose station is more than 5 km away gets a LARGE_DISTANCE warning naming that station and distance. |
| RouteImport.RouteWarningsFrom | scripts/import_data.py:296-321 | Every warning sits at a coordinate of the route, with its train number and that coordinate's position. A NO_STATION_NEARBY sits at an unmapped coordinate, and a LARGE_DISTANCE at one whose station was found more than 5 km away, naming that station and distance. |
| RouteImport.RouteWarningsShape | scripts/import_data.py:296-321 | Joins the three facts above: the count, every coordinate's due warning present, and every warning at its coordinate. |
| RouteImport.InsertRouteStopRowsAt | scripts/import_data.py:408-413 | Sequences 1..n of the train are present afterwards. Existing rows are kept, new rows hold their position's station and no times, and nothing else is added. |
| Importer.RailwayImporter.MapRouteToStations | scripts/import_data.py:264-323 | With no index the result is empty and nothing changes. Otherwise:<br>- the result is the scan of the lookups;<br>- the mapped counter grows by its length and the unmapped counter by the misses;<br>- the warnings of the route are appended. |
| Importer.RailwayImporter.ScanCoordinate | scripts/import_data.py:284-321 | One coordinate advances the scan one step. The counter that matches the outcome grows by one, and the coordinate's warning is appended. |
| Importer.RailwayImporter.InsertRouteStops | scripts/import_data.py:408-413 | The `INSERT OR IGNORE` loop produces the route-stop table specification and touches nothing else. |
| Importer.RailwayImporter.UpsertTrainStops | scripts/import_data.py:469-488 | The upsert loop writes stop s at (train, s) and counts every stop. |
| Importer.RailwayImporter.ImportSchedules | scripts/import_data.py:439-488 | The groups of known trains are upserted in first-appearance order and unknown trains are skipped. The stop counter grows by the known trains' stop count. |
| Importer.RouteStopsDense | scripts/import_data.py:402-413 | The route stops of a train are numbered 1..n with no gap. A new row holds the kept station of its position, and adjacent stops name different stations. |
| Schedules.StrLtTransitive | scripts/import_data.py:463-466 | Python's string order is transitive. |
| Schedules.StrLtTotal | scripts/import_data.py:463-466 | Any two distinct strings are ordered one way or the other. |
| Schedules.KeyLtOrder | scripts/import_data.py:463-466 | The (day, departure) tuple order is a strict total order. |
| Schedules.SortStopsCorrect | scripts/import_data.py:463-466 | The sorted stops are ordered by (day or 1, departure or "00:00:00") and are a permutation of the input. The sort is stable: stops with equal keys keep their input order. |
| Schedules.TrainNumbersExact | scripts/import_data.py:439-444 | The group keys are the file's train numbers, each exactly once. |
| Schedules.EntriesOfMembers | scripts/import_data.py:443-444 | A group holds exactly the entries of its train, in file order. |
| Schedules.GroupByTrain | scripts/import_data.py:439-444 | The defaultdict loop yields the keys in first-appearance order, each with its entries. |
| Schedules.NullIfNoneText | scripts/import_data.py:483-484 | A time is stored as null exactly when it is missing or is the text "None". Otherwise it is kept. |
| Schedules.ScheduledRow | scripts/import_data.py:481-485 | A scheduled stop keeps its station. Its arrival and departure are stored as null exactly when missing or "None". Its day offset is (day or 1) − 1, so a missing day gives offset 0. |
| Schedules.ScheduleUpsertsAt | scripts/import_data.py:469-486 | Sequences 1..n of the train hold its sorted stops in order, with no gap. Every other key, including the train's sequences past n, keeps its row. |
| Schedules.ImportGroupsWritten | scripts/import_data.py:449-486 | After the import, stop s of a known train holds its s-th stop in (day, departure) order, given distinct train ids. |
| Schedules.ImportGroupsUntouched | scripts/import_data.py:449-486 | A row of a train that no imported group names is kept. |
| TrainSearch.FromTrainMapLast | backend/app/api/search.py:34 | The map holds exactly the trains with an origin row. Each maps to its last origin row's stop sequence. |
| TrainSearch.ValidTrainIds | backend/app/api/search.py:42-46 | The append loop produces the selection specification. |
| TrainSearch.SelectIdsMembers | backend/app/api/search.py:42-46 | An id is selected if and only if one of its destination rows has a larger stop sequence than its mapped origin sequence. There are no more ids than destination rows. |
| TrainSearch.ThroughTrain | backend/app/api/search.py:30-46 | A selected train's last origin row has a smaller stop sequence than one of its destination rows. |
| TrainSearch.PySliceTo | backend/app/api/search.py:51 | `s[:limit]` is a prefix. It has min(limit, len) items for limit ≥ 0, and drops the last −limit items for a negative limit. |
| TrainSearch.TrainsWithIdsMembers | backend/app/api/search.py:50-53 | The `in_` query returns exactly the table rows whose id is listed. |
| TrainSearch.SearchTrains | backend/app/api/search.py:21-55 | Direct rows, when there are any, are returned unchanged. Otherwise a table row is returned if and only if its id is among the first `limit` selected ids, and every returned train is a through train. |
| TrainSearch.LastOriginRowWins | backend/app/api/search.py:34 | Origin rows (7, 1) and (7, 5) with destination (7, 3) select nothing: only the later origin row counts. |
| TrainSearch.RepeatedDestinationRows | backend/app/api/search.py:43-46 | A train with two qualifying destination rows is selected twice, in destination order. |

## Left out

- The itinerary search does not exist in the repository. `backend/app/api/v1/search.py` returns a fixed answer, and `backend/app/main.py` only holds a TODO; neither is modelled.
- `search_direct_trains` and the direct-train query are not modelled: their result is an input to `SearchTrains`. The query's `.limit(limit)` therefore lives in the caller of the model.
- The great-circle distance `haversine_distance` is a function parameter over reals. Floating-point rounding, NaN and infinity are not modelled; the brute-force minimum's starting infinity is `None`.
- The BallTree branch of `find_nearest` is not modelled. The program takes it when scikit-learn imports and the index holds at least one station (scripts/import_data.py:110-117). The model's importer always uses the brute-force loop, so it does not capture the BallTree's own distance computation or which of two equally near stations it returns.
- `map_route_to_stations` does not model the unpacking error raised for a coordinate that is not a pair; coordinates are (lon, lat) pairs by type.
- MappingWarning: the `message` column is not modelled, since it is formatted text.
- All SQL, Supabase and SQLAlchemy I/O is modelled by values:
  - query results are input sequences in table order (the database leaves row order unspecified);
  - writes update `SeatSession`, `TrainRun` and the importer's `trainStops` map;
  - commits, transactions, foreign keys and the `train_routes` insert are not modelled;
  - the unique key `uq_seat_number` of the seats table is modelled, and no other constraint is.
- The date window of `generate_seats_for_runs` (`date.today()`, `days`) is not modelled: the runs of the window and their trains are the input `candidates`.
- Train distances are whole kilometres (`Option<int>`). The `int(...)` truncation of a float fare is not modelled.
- The `berth_type` computation of `generate_seat_rows` is not modelled, because it is never stored.
- Logging is not modelled: the per-run log line, the final summary and the importer's printed progress.
- `import_trains` is modelled only as far as its route stops go: the `trains_imported` counter and the other train columns are not modelled.
- A `KeyError` for a schedule entry without `train_number` or `station_code` is not modelled; those fields are always present in `ScheduleStop`.
- Schedules.Key: a day of another type than int (which Python could not compare with an int) is not modelled; days are ints or missing.
- SeatgenRuns.SmokeTestFifteenSeats: the smoke test stores its class text as `classes_json`, which the generator does not read. The lemma gives the test's text to the `classes` column the code uses. The test's `coach`, `berth_type`, station coordinate checks and its database setup are not modelled.
- SeatgenRuns.RunSeatNumbersDistinct: requires at most one class without a coach prefix, because two such classes do produce the same labels (shown by SeatgenRuns.TwoUnknownClassesCollide).
- SeatgenRuns.GenerateSeatsForRuns: requires the candidate rows to have distinct run ids. The run id is the primary key, and the query groups by it, so each run appears once.
- SeatgenRuns.ProcessRuns: after a failing run, the session still holds the batches of that run that took effect before the refused one. The program commits after each completed run; the caller rolls back the open transaction when the exception escapes, which removes those batches. Neither the commit nor the rollback is modelled.
- Authentication, bookings, ORM models (apart from the unique key of the seats table), schemas, configuration and the data migration scripts are outside the modelled core.
