# Quick-queue backend: a Dafny model

This project models the backend of a crowd-sourced wait-time service. Visitors
report how long they waited at a location, and a dashboard aggregates the
recent reports. Visitors can also join a virtual queue at a location.

Each SQLite table is a sequence of records. Row `k` has id `k`, since the
tables use AUTOINCREMENT and the modelled code never deletes. The clock is a
parameter `now` in whole seconds.

Modules, in the order the code depends on them:

- `Wrappers`, `Seqs`: `Option`/`Result`, filtering (SQL `WHERE`) and sorting
  (SQL `ORDER BY`) of sequences, and the lemmas that relate them.
- `JsValues`: the JavaScript values a JSON body carries and the coercions the
  handlers apply to them. These are truthiness, `Number(...)`,
  `parseInt(..., 10)`, `trim()`, `toLowerCase()`, `includes(...)` and the
  rendering of numbers in template strings.
- `Categories`: the read-only `categories` table.
- `Locations`: the `locations` table. Its queries are functions. `create` and
  `update` are methods of the class `LocationRepository`. Each method is proved
  equal to a function of the old table (`CreateOutcome`, `UpdateOutcome`), and
  each keeps the table's `UNIQUE(name, categoryId, state)` invariant.
- `Reports`: the append-only report log. The window queries are functions.
  `create` is a method of the class `ReportRepository`.
- `Aggregation`: the two classifiers and the dashboard rows.
- `Queue`: the `queue_entries` table and the class `QueueRepository`.
  - `joinQueue`, `markAsNotified` and `completeEntry` update the sequence field.
  - `updateQueuePositions` is a loop that rewrites one row per step. It is
    proved to produce `Renumbered`, the table in which the waiting entries hold
    1..N in join order.
- `Validation`: the three request validators, as functions.
- `Http`, `ReportRoutes`, `LocationRoutes`, `QueueRoutes`: the route handlers.
  Each handler returns a `Reply` (a status with a body, or a status with an
  error code). The handlers that write are methods, and each states the whole
  new table for every outcome.

Several behaviours follow from the code as written. Each is proved in the model.

- A location posted without a state is never a duplicate. `POST
  /api/locations` passes only `name` and `categoryId`, and the SQL `state = ?`
  never matches NULL, so the same body posted twice creates two rows
  (`LocationRoutes.SamePostTwiceCreatesTwo`).
  `LocationRepository.test.js:34-46` expects the second `create` to fail. The
  model follows the code.
- `PUT /api/locations/:id` with `categoryId: "0"` validates. The handler then
  skips its category check, because 0 is falsy, and the foreign key rejects
  category 0. The reply is a 500, not a 400
  (`LocationRoutes.ZeroCategoryUpdateIsInternalError`).
- Completing a queue entry never renumbers the queue. A later join can
  therefore receive a position that a waiting entry already holds
  (`Queue.CompleteThenJoinRepeatsPosition`).
- The join estimate is `average || 15`, so an average of 0 also becomes 15
  (`QueueRoutes.ZeroAverageFallsBack`).
- An entry whose estimate is under 5 minutes is never selected by
  `getEntriesNeedingNotification` at its default of 5. The query builds the
  modifier `'+' || (estimatedWaitTime - 5) || ' minutes'`, which reads
  `'+-2 minutes'` for an estimate of 3. SQLite's date functions reject that
  modifier, so `datetime` is NULL and the comparison never holds. The status
  route still reports `shouldNotify` for such an entry
  (`QueueRoutes.ShortEstimateNeverNotified`).

## Model

| member | source | states |
|---|---|---|
| Aggregation.CalculateConfidenceLevel | backend/src/services/aggregationService.js:10-15 | 0 reports is none, 1-2 low, 3-9 medium, 10 or more high; each level holds exactly on its range |
| Aggregation.ConfidenceMonotone | backend/src/services/aggregationService.js:10-15 | more reports never give a lower confidence level |
| Aggregation.CategorizeWaitTime | backend/src/services/aggregationService.js:22-27 | null is unknown, up to 10 short, 11-30 moderate, above 30 long; each severity holds exactly on its range |
| Aggregation.ApplyCategory | backend/src/services/aggregationService.js:47-49 | keeps exactly the rows in the category when the id is truthy, otherwise all rows, each as many times as it occurs in the input; name order is kept |
| Aggregation.ApplySearch | backend/src/services/aggregationService.js:50-55 | keeps exactly the rows whose lower-cased name contains the lower-cased search text when it is non-empty, each as many times as it occurs in the input; name order is kept |
| Aggregation.SelectLocations | backend/src/services/aggregationService.js:38-55 | a location is selected exactly when it is active (under the default `activeOnly`) and passes the category and search filters; with `activeOnly` false, inactive ones are included; each selected location appears as many times as it is stored, so the result is a permutation of the filtered table; the result is sorted by name |
| Aggregation.RowFor | backend/src/services/aggregationService.js:65-84 | id and name are copied; the count is the length of the window; average and last report time are null exactly when the count is 0; the average is `calculateAverage` over the same two-hour window; the last report time is the timestamp of an in-window report and no in-window report is newer; confidence and severity are the classifiers applied to count and average |
| Aggregation.GetAggregatedLocationData | backend/src/services/aggregationService.js:37-87 | exactly one row per selected location, in the same order, with the category name looked up in the category map |
| Aggregation.ListedRowsMatchFilters | backend/src/services/aggregationService.js:38-55 | every listed row is a location that is active by default, in the requested category when truthy, and whose name contains the search text |
| Aggregation.ListCategoryIsLookup | backend/src/services/aggregationService.js:57-62 | the category map lookup, with the fallback, is the category's name, or 'Unknown' when the category is missing or its name is empty |
| Aggregation.GetLocationAggregatedData | backend/src/services/aggregationService.js:94-117 | null exactly for an unknown id; otherwise the row of that location, with the category's name or 'Unknown' |
| Aggregation.SingleViewMatchesList | backend/src/services/aggregationService.js:65-117 | for a listed location (unique ids, non-empty category names) the single-location view equals its list row |
| Categories.FindAll | backend/src/repositories/CategoryRepository.js:8-12 | every category exactly once, by ascending displayOrder |
| Categories.FindById | backend/src/repositories/CategoryRepository.js:19-23 | the row with that id, or None when no row has it |
| Categories.Exists | backend/src/repositories/CategoryRepository.js:30-35 | true exactly when some category has that id |
| Categories.ExistsIffFound | backend/src/repositories/CategoryRepository.js:19-35 | `exists` and `findById` agree on every id |
| Categories.FindByIdAfterFindAll | backend/src/repositories/CategoryRepository.js:8-23 | under unique ids, looking up in the sorted list gives the same row as in the table |
| Categories.NameMapLookup | backend/src/services/aggregationService.js:58-62 | the map filled by `forEach` holds exactly the table's ids, each bound to that category's name |
| Reports.FindRecentByLocation | backend/src/repositories/WaitTimeReportRepository.js:31-42 | exactly the location's reports with `submittedAt >= now - hoursBack*3600`, as a permutation of the filtered log, newest first |
| Reports.FirstIsNewest | backend/src/repositories/WaitTimeReportRepository.js:31-42 | the first row is an in-window report whose timestamp is no earlier than any other in-window report |
| Reports.RoundHalfUp | backend/src/repositories/WaitTimeReportRepository.js:61 | the result is the nearest integer to sum/n, with halves rounded up (`2n*r <= 2*sum + n < 2n*r + 2n`) |
| Reports.CalculateAverage | backend/src/repositories/WaitTimeReportRepository.js:50-62 | null exactly when no report of the location lies in the window |
| Reports.CountZeroIffNoneCounted | backend/src/repositories/WaitTimeReportRepository.js:70-82 | the count is 0 exactly when no report of the location lies in the window |
| Reports.CountMatchesFind | backend/src/repositories/WaitTimeReportRepository.js:31-82 | `countReports` equals the length of `findRecentByLocation` for the same location and window |
| Reports.SumBounds | backend/src/repositories/WaitTimeReportRepository.js:53-58 | the window's total lies between `n*lo` and `n*hi` when every minute in it lies between `lo` and `hi` |
| Reports.RoundHalfUpBounds | backend/src/repositories/WaitTimeReportRepository.js:61 | the rounded mean of values within `[lo, hi]` lies within `[lo, hi]` |
| Reports.AverageBounds | backend/src/repositories/WaitTimeReportRepository.js:53-61 | a non-null average lies between the least and the greatest wait time in the window |
| Reports.StaleReportIgnored | backend/src/repositories/WaitTimeReportRepository.js:57-77 | a report older than the window changes neither the count nor the average |
| Reports.ReportRepository.Create | backend/src/repositories/WaitTimeReportRepository.js:11-23 | for an existing location, exactly one report is appended with the next id, the given location and minutes and `submittedAt = now`, and it is returned; an unknown location is a foreign-key error and the log is unchanged |
| Locations.ByName | backend/src/repositories/LocationRepository.js:26 | sorting by name keeps exactly the selected rows and orders them by name, ties by id |
| Locations.FindAll | backend/src/repositories/LocationRepository.js:11-30 | exactly the rows matching the category (when truthy) and containing the search text case-insensitively (when non-empty), each as many times as it is stored, sorted by name |
| Locations.FindActive | backend/src/repositories/LocationRepository.js:36-40 | exactly the rows with `isActive`, each as many times as it is stored, sorted by name |
| Locations.FindById | backend/src/repositories/LocationRepository.js:47-51 | the row with that id, or None when no row has it |
| Locations.NullIfEmpty | backend/src/repositories/LocationRepository.js:81-83 | a falsy value is stored as null: the stored value is never the empty string |
| Locations.CreateOutcome | backend/src/repositories/LocationRepository.js:61-86 | duplicate error exactly when a row with the same name, category and non-null state exists; foreign-key error exactly when there is no duplicate and the category is missing; success exactly when there is no duplicate and the category exists, giving a new active row with the next id, falsy state/city/address stored as null, stamped `now` |
| Locations.CreateKeepsUniqueKeys | backend/src/repositories/LocationRepository.js:64-85 | a successful create keeps `UNIQUE(name, categoryId, state)` |
| Locations.StatelessDuplicateAccepted | backend/src/repositories/LocationRepository.js:64-71 | a location without a state is never reported as a duplicate |
| Locations.ApplyPatch | backend/src/repositories/LocationRepository.js:121-149 | only the supplied name, category and active flag change, plus `updatedAt = now`; id, state, city, address and `createdAt` are kept |
| Locations.UpdateOutcome | backend/src/repositories/LocationRepository.js:98-151 | not-found exactly for an unknown id; the conflict error holds exactly when a truthy name or category is supplied and another row has the resulting name and category; otherwise, for a known id, the UPDATE runs: the unique-constraint error holds exactly when the patched row clashes with another row, the foreign-key error exactly when there is no clash and a supplied category is missing, and success exactly in the remaining case, giving the patched row |
| Locations.ConflictCheckCoversUnique | backend/src/repositories/LocationRepository.js:108-119 | when the conflict check runs and passes on validated input, the unique constraint cannot fire |
| Locations.UpdateKeepsUniqueKeys | backend/src/repositories/LocationRepository.js:125-150 | a successful update keeps the unique keys and the row ids |
| Locations.LocationRepository.Create | backend/src/repositories/LocationRepository.js:61-86 | the result is `CreateOutcome` of the old table; on success exactly that row is appended, on error the table is unchanged |
| Locations.LocationRepository.Update | backend/src/repositories/LocationRepository.js:98-151 | the result is `UpdateOutcome` of the old table; on success exactly the row with that id is replaced, on error the table is unchanged |
| Validation.ValidateWaitTime | backend/src/utils/validation.js:6-38 | required (null, undefined, ''), then number, then non-negative, each error exactly on its case in that order; a success is the number read and is at least 0 |
| Validation.WaitTimeOfNumeral | backend/src/utils/validation.js:16-37 | a rendered integer validates to itself when non-negative and fails the sign check when negative; surrounding blanks do not matter |
| Validation.WaitTimeNotNumeric | backend/src/utils/validation.js:16-24 | text that starts with neither a digit, a sign nor a blank, and does not end in a blank, fails the number check |
| Validation.CheckLocationId | backend/src/utils/validation.js:49-53 | falsy (0 included) is 'Location is required'; a value `Number` cannot read is 'Location ID must be a valid number'; no error otherwise |
| Validation.ValidateReportSubmission | backend/src/utils/validation.js:45-71 | valid exactly when both field checks pass; both errors are collected independently; valid data are `Number(locationId)` and the validated minutes |
| Validation.ZeroLocationIsMissing | backend/src/utils/validation.js:49-59 | location 0 is reported missing, and a bad wait time is reported alongside it |
| Validation.CheckName | backend/src/utils/validation.js:84-90 | falsy or non-string, then blank after trim, then longer than 255 untrimmed characters, each message exactly on its case |
| Validation.CheckCategoryId | backend/src/utils/validation.js:95-99 | falsy is 'Category is required'; a value `Number` cannot read is 'Category ID must be a valid number'; no error otherwise |
| Validation.ValidateLocationData | backend/src/utils/validation.js:79-119 | a present non-string name throws at `trim()`; otherwise the verdict is valid exactly when every checked field passes (create checks name and category, update only present fields, `isActive` must be boolean); valid data hold exactly the present fields, the name trimmed |
| Validation.NullNameThrows | backend/src/utils/validation.js:110 | a present null name throws on create and on update alike |
| Queue.LengthIsFilterLength | backend/src/repositories/QueueRepository.js:120-130 | the queue length counts exactly the waiting entries at the location |
| Queue.NewEntry | backend/src/repositories/QueueRepository.js:16-34 | the inserted entry has the next id, position = waiting count + 1, status waiting, no notified or completed time, `joinedAt = now` |
| Queue.JoinRaisesLength | backend/src/repositories/QueueRepository.js:12-42 | a join raises its location's queue length by one and leaves every other location's length unchanged |
| Queue.NotifiedOverwrites | backend/src/repositories/QueueRepository.js:87-97 | marking twice equals marking once with the later time; only `notifiedAt` of that entry changes |
| Queue.UnknownIdIsNoOp | backend/src/repositories/QueueRepository.js:87-113 | completing or notifying an unknown id changes nothing |
| Queue.CompleteLowersLength | backend/src/repositories/QueueRepository.js:103-130 | completing a waiting entry lowers its location's queue length by one |
| Queue.CompletedStaysCompleted | backend/src/repositories/QueueRepository.js:87-158 | no write moves an entry from completed back to waiting |
| Queue.WaitingInJoinOrder | backend/src/repositories/QueueRepository.js:140-144 | exactly the location's waiting entries, as a permutation, sorted by `joinedAt` ascending |
| Queue.JoinOrder | backend/src/repositories/QueueRepository.js:140-144 | the ids of those entries in that order; every waiting entry's id is among them |
| Queue.JoinOrderFacts | backend/src/repositories/QueueRepository.js:140-157 | the ids are distinct, each names a waiting row, they are exactly the waiting entries' ids, and their number is the queue length |
| Queue.Renumbered | backend/src/repositories/QueueRepository.js:136-158 | entries other than the location's waiting ones are unchanged; waiting ones change only `queuePosition` |
| Queue.RenumberedIsContiguous | backend/src/repositories/QueueRepository.js:136-158 | after renumbering, waiting positions at the location are distinct and within 1..N |
| Queue.RenumberedIsOnto | backend/src/repositories/QueueRepository.js:136-158 | after renumbering, every position in 1..N is held |
| Queue.RenumberedFollowsJoinOrder | backend/src/repositories/QueueRepository.js:136-158 | after renumbering, an entry that joined earlier holds a smaller position |
| Queue.JoinKeepsContiguous | backend/src/repositories/QueueRepository.js:16-34 | a join keeps contiguous positions contiguous, as the joiner takes N + 1 |
| Queue.CompleteThenJoinRepeatsPosition | backend/src/routes/queue.js:94 | completing without renumbering and then joining gives two waiting entries the same position |
| Queue.UserEntries | backend/src/repositories/QueueRepository.js:49-61 | exactly the user's waiting entries at a known location, each as many times as it is stored, latest join first |
| Queue.GetUserQueues | backend/src/repositories/QueueRepository.js:49-61 | every row is one of the user's waiting entries with its location's name, state and city; the rows' entries are the user's waiting entries, each as many times as it is stored; rows are by `joinedAt` descending |
| Queue.GetEntriesNeedingNotification | backend/src/repositories/QueueRepository.js:68-81 | the rows are exactly the waiting, never-notified entries whose estimate is at least `minutesBefore` and with `joinedAt + (estimate - minutesBefore)` minutes no later than now, each as many times as it is stored and with its location's name; a smaller estimate makes the modifier `'+-n minutes'`, which SQLite rejects, so `datetime` is NULL and the row is not selected |
| Queue.NotifiedLeavesList | backend/src/repositories/QueueRepository.js:68-97 | once an entry is marked notified it is no longer on the notification list |
| Queue.QueueRepository.JoinQueue | backend/src/repositories/QueueRepository.js:12-42 | for a known location, exactly one new entry is appended and its receipt (id, position, estimate, join time) returned; an unknown location is a foreign-key error and nothing changes |
| Queue.QueueRepository.MarkAsNotified | backend/src/repositories/QueueRepository.js:87-97 | the new table is `MarkedNotified` of the old one |
| Queue.QueueRepository.CompleteEntry | backend/src/repositories/QueueRepository.js:103-113 | the new table is `MarkedCompleted` of the old one |
| Queue.QueueRepository.UpdateQueuePositions | backend/src/repositories/QueueRepository.js:136-158 | the loop leaves exactly `Renumbered` of the old table |
| QueueRoutes.EstimatedWait | backend/src/routes/queue.js:25 | the estimate is 15 exactly when the 2-hour average is null, 0 or 15; otherwise it is the average |
| QueueRoutes.ZeroAverageFallsBack | backend/src/routes/queue.js:25 | an average of 0 falls back to 15, as no reports do |
| QueueRoutes.JoinMessageStatesPosition | backend/src/routes/queue.js:36 | reading the number after "You are #" in the message gives the position back |
| QueueRoutes.Join | backend/src/routes/queue.js:11-47 | falsy location or user is 400 MISSING_FIELDS and nothing is written; an unknown location is 500 and nothing is written; otherwise one entry is appended and the reply is 201 with the receipt and the message |
| QueueRoutes.ElapsedMinutes | backend/src/routes/queue.js:61-63 | whole minutes since joining, rounded down |
| QueueRoutes.StatusOf | backend/src/routes/queue.js:60-71 | the row is copied; remaining is `max(0, estimate - elapsed)`; `shouldNotify` holds exactly when remaining is at most 5 and the entry was never notified |
| QueueRoutes.GetStatus | backend/src/routes/queue.js:53-84 | 200 with one status per row of `getUserQueues`, in the same order; each status carries the elapsed minutes, remaining minutes and `shouldNotify` that `StatusOf` states for its row and `now` |
| QueueRoutes.RemainingWithinEstimate | backend/src/routes/queue.js:64 | remaining is never negative and never above the estimate once the entry has joined |
| QueueRoutes.ShouldNotifyMatchesNotifier | backend/src/routes/queue.js:66-71 | for a waiting entry with an estimate of at least 5 minutes, `shouldNotify` holds exactly when the notifier query at its default of 5 minutes selects the entry; with a shorter estimate the query never selects it |
| QueueRoutes.ShortEstimateNeverNotified | backend/src/routes/queue.js:66-71 | with an estimate under 5 minutes, a joined, never-notified entry has `shouldNotify` set while the notifier query does not select it |
| QueueRoutes.Complete | backend/src/routes/queue.js:90-109 | always 200; a parsable id completes that entry, an unparsable one changes nothing; no renumbering |
| QueueRoutes.GetLength | backend/src/routes/queue.js:115-134 | 200 with the parsed id and the count of waiting entries there (0, with a null id, when the parameter is not a number) |
| ReportRoutes.SubmitReport | backend/src/routes/reports.js:12-53 | invalid body is 400 VALIDATION_ERROR with the field errors before any lookup; a valid body for a missing location is 404; otherwise exactly one report is appended and 201 returns its id; the log is unchanged on every rejection |
| ReportRoutes.NewReportIsCounted | backend/src/routes/reports.js:37-43 | an accepted report enters its location's 2-hour count at once and leaves other locations' counts unchanged |
| LocationRoutes.QueryFilters | backend/src/routes/locations.js:18-36 | `activeOnly` is always true; the category filter is present exactly when the query's category is truthy, as its `parseInt`; the search is kept when truthy |
| LocationRoutes.GetLocations | backend/src/routes/locations.js:14-49 | 400 INVALID_CATEGORY exactly when a truthy category does not parse; otherwise 200 with the aggregated rows for those filters |
| LocationRoutes.ListedLocationsAreActiveAndMatch | backend/src/routes/locations.js:14-39 | every listed row is an active location in the requested non-zero category whose name contains the search text |
| LocationRoutes.CategoryZeroIsNoFilter | backend/src/routes/locations.js:22-23 | `?category=0` lists the same rows as no category |
| LocationRoutes.CreateFailure | backend/src/routes/locations.js:82-99 | a message containing 'already exists' is 409 DUPLICATE_LOCATION carrying it; any other is 500 |
| LocationRoutes.CreateLocation | backend/src/routes/locations.js:55-100 | throw in validation is mapped by the catch; invalid is 400 VALIDATION_ERROR; missing category is 400 INVALID_CATEGORY; otherwise the state-less row is appended and returned with 201; nothing is written on any rejection |
| LocationRoutes.SamePostTwiceCreatesTwo | backend/src/routes/locations.js:80 | posting the same valid body twice creates two rows |
| LocationRoutes.UpdateFailure | backend/src/routes/locations.js:146-172 | 'Location not found' is 404 NOT_FOUND; a message containing 'already exists' is 409 carrying it; any other is 500 |
| LocationRoutes.ForeignKeyFailureIsInternal | backend/src/routes/locations.js:82-99 | the foreign-key message maps to 500 in both handlers |
| LocationRoutes.PatchOf | backend/src/routes/locations.js:144 | the patch holds exactly the validated fields |
| LocationRoutes.UpdateLocation | backend/src/routes/locations.js:106-173 | an unparsable id is 400 INVALID_ID before validation; then the validation throw, 400 VALIDATION_ERROR, and 400 INVALID_CATEGORY only for a truthy category; otherwise the result of `update` with 200, or its error mapped by the catch; nothing is written on any rejection |
| LocationRoutes.ZeroCategoryStringValidates | backend/src/routes/locations.js:119-132 | `categoryId: "0"` validates on update and skips the category check |
| LocationRoutes.ZeroCategoryUpdateIsInternalError | backend/src/routes/locations.js:132-172 | such an update reaches the foreign key when no category 0 exists, and the reply is 500 |

## Left out

- HTTP framing (Express routing, JSON serialisation, `success: true` flags,
  console logging) is left out. A handler's reply is a `Reply` value.
- The SQLite engine is left out. Tables are sequences, and only the schema's
  defaults and constraints are kept: AUTOINCREMENT ids, `isActive` default 1,
  the status default 'waiting', `UNIQUE(name, categoryId, state)` and the
  foreign keys, which `database.js:17` switches on.
- The ORDER BY tie order is not fixed by SQL. The model breaks ties by id
  (newest first for reports and user queues, oldest first otherwise).
- Clock and timestamp text are left out. `datetime('now')`, ISO strings, the
  JavaScript `Date` parsing of `joinedAt` and time zones become integer
  seconds and the parameter `now`. The join receipt's `joinedAt` is that same
  `now`.
- Floating point is left out. Minutes are integers, as the schema declares, and
  `AVG` with `Math.round` is integer rounding half up. Non-integral numbers that
  `Number(...)` accepts are not modelled.
- JsValues.StringToNumber: JavaScript coercion is limited to integral decimal
  text. The model reads any other text as NaN, including text that `Number`
  accepts such as `"12.5"`, `"0x10"`, `"1e3"` or `"Infinity"`. For such
  input the model rejects what the source accepts. For example,
  `Validation.ValidateWaitTime` answers "Wait time must be a number" where
  `validation.js` passes the value. Arrays and objects coerced through
  `toString` are not modelled either. Objects are `NaN`.
- LocationRoutes.GetLocations: query-string values are single strings.
  Express turns a repeated key, such as `?search=a&search=b`, into an array.
  `search.toLowerCase()` then throws, and `GET /api/locations` answers 500.
  That path is not modelled, so the model states no 500 reply for this route.
- `LIKE` wildcards inside the search text are not modelled. Case folding covers
  ASCII letters only. String lengths count code points, not UTF-16 units.
- QueueRoutes.Join: the body's `locationId` and `userId` are taken as a JSON
  integer and a string. Other JSON types are not modelled. The average is
  looked up with the same id that `parseInt` passes to `joinQueue`.
- The unreachable `catch` paths are left out. These are the 500 of `GET
  /api/queue/status`, of `POST /api/queue/complete` and of `GET
  /api/queue/length`. `POST /api/reports` keeps its 500 path, but the model
  shows it cannot be taken.
- Concurrency is left out. The read-then-insert in `joinQueue` runs as one
  sequential step.
- The frontend, the category route, seeding, migration and the server
  bootstrap are not part of this model.
