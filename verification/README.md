# flexahorro — a Dafny model of the dashboard's data core

flexahorro is a single-user personal-finance dashboard. It keeps one JSON
document with metadata, a savings plan, accounts and a ledger of day
records. The document lives in local storage and, optionally, in a
cloud-drive file. This project models the pure data logic of
`public/app.js` and proves properties about it:

- **Reconciler** (`mergeByDate`): the remote copy is the base. Day records
  go into a `Map` keyed by `date`, remote first and then local. When both
  copies hold a date, the record with the later `updated_at` wins, and a
  tie keeps the local record. The result is sorted by date.
  `meta.updated_at` becomes the maximum of the local stamp, the remote
  stamp and the clock. `currency` and `timezone` are defaulted only when
  they are falsy.
- **Month aggregator** (`calcMonth`, `monthKey`, `parseNum`, `clamp0`):
  sums over one month's records, the plan fallbacks (5000 rigid, 1000
  flexible), the flexible-fund remainder, and account totals where paid
  receivables are excluded.
- **Soft alerts** (`softAlerts`): a flexible-fund warning, and a
  staleness warning once the greatest date is at least 3 whole days old.
- **Day store** (`getOrCreateDay` and the delete-day filter): find the
  record for a date or append a blank one, and drop a date.

Modules: `Wrappers` (Option/Result), `Lex` (the string order used for
sorting dates), `Document` (data model and value coercions), `Reconciler`,
`Month`, `Alerts`, `DayStore`.

Modelling choices:

- Timestamps are integers in milliseconds. An `updated_at` is a `Stamp`:
  - `NoStamp`: missing or "". It falls back to `"1970-01-01T00:00:00Z"`, which is 0.
  - `At(ms)`: a timestamp that parses.
  - `BadStamp`: non-empty text that `Date.parse` rejects, which gives NaN.

  NaN makes `lu >= ru` false, so the remote record wins that date. A NaN
  in `meta.updated_at` makes `toISOString` throw a RangeError; the model
  returns `Failure(InvalidTimeValue)`.
- An array-valued field read with `x || []` is a `ListField`:
  - `Missing`: falsy, read as `[]`.
  - `Items(xs)`: an array.
  - `NotAList`: a truthy non-array. `for…of`, `filter`, `find` and
    `reduce` throw a TypeError on it; the model returns `Failure(NotIterable)`.
    `softAlerts` only reads `.length` there, which is `undefined`, so it
    finds no days and raises no error.
- Amounts are `real`. `parseNum` is abstract: `Blank` and `NonNumeric`
  read as 0, and `Numeric(v)` reads as `v`, negative values included.
- The clock (`Date.now()` / `nowIso()`) is a parameter `now`. So are
  `window.APP_CONFIG` (`Config`, with "" for an unset entry) and, for
  `softAlerts`, the local-time midnight of a date string,
  `new Date(date + "T00:00:00")`, as a function
  `midnight: string -> Option<int>`.
- The JavaScript `Map` is `DayMap`: keys in insertion order plus a
  `map`. The sort is a functional insertion sort by date.

Three behaviours of the code worth stating plainly:

- Only a missing or empty `updated_at` counts as the epoch. Non-empty
  unparsable text gives NaN, with the effects described above.
- `currency` and `timezone` are defaulted whenever they are falsy, so an
  empty string is replaced as well as a missing value.
- There is no dedicated malformed-document error. A non-array ledger
  makes the iteration throw a TypeError (`NotIterable`). An empty `date`
  is an ordinary map key.

## Model

| member | source | states |
|---|---|---|
| Document.ParseNum | public/app.js:22-27 | a missing or non-numeric value reads as 0; a non-zero result is the stored number, negative values pass through unclamped |
| Document.Clamp0 | public/app.js:28 | the result is the larger of 0 and `n`: at least both, and equal to one of them |
| Document.ParseStamp | public/app.js:118-119 | a missing or empty `updated_at` parses as epoch 0, a parsable one as its own milliseconds, and the parse fails (NaN) exactly for unparsable text |
| Document.DefaultCurrency | public/app.js:131 | the configured currency when it is set (non-empty), otherwise "MXN" |
| Document.DefaultTimezone | public/app.js:132 | the configured time zone when it is set (non-empty), otherwise "America/Mexico_City" |
| Document.Max | public/app.js:130 | `Math.max` of two stamps: at least both, and equal to one of them |
| Document.Lookup | public/app.js:110 | what a `Map` filled by `map.set(d.date, d)` holds for a date: the LAST record of the sequence with that date (no later record carries it), present exactly when the date occurs |
| Document.LookupUnique | public/app.js:110 | with one record per date, looking a record's date up returns that record |
| Document.SortedByLookup | public/app.js:124 | two date-sorted ledgers that hold the same record for every date are identical |
| Lex.LessTransitive | public/app.js:124 | the date order used by the sort is transitive |
| Lex.LessTotal | public/app.js:124 | any two different dates are ordered one way or the other |
| Lex.LessIrreflexive | public/app.js:124 | no date sorts before itself |
| Reconciler.Resolve | public/app.js:114-120 | per-date winner: present when either side is; when both are, the local record is kept exactly when `lu >= ru` holds (ties go to local, NaN to remote) |
| Reconciler.Put | public/app.js:110 | `map.set` stores the record under its date and leaves every other date unchanged; a new date is appended to the key order, an existing one keeps its place |
| Reconciler.Seed | public/app.js:109-110 | after the remote loop the map holds, for each remote date, the last remote record with that date, and nothing else new |
| Reconciler.Absorb | public/app.js:113-121 | one local record is resolved against what the map holds for its date; other dates are untouched |
| Reconciler.Overlay | public/app.js:112-122 | after the local loop the map holds, for every date, the fold of the per-date rule over the local records with that date |
| Reconciler.Values | public/app.js:124 | `Array.from(map.values())` lists each stored record exactly once, in the order its date was first inserted: the i-th value carries the i-th key, no two values share a date, and a record is listed exactly when the map stores it under its date |
| Reconciler.Insert | public/app.js:124 | inserting into a date-sorted ledger keeps it sorted and adds exactly that record |
| Reconciler.SortByDate | public/app.js:124 | the sort returns a permutation of its input, in strictly ascending date order |
| Reconciler.SortedDays | public/app.js:123-124 | the merged `ledger.days` is sorted by date and holds for each date exactly the map's record |
| Reconciler.MergeByDate | public/app.js:106-134 | fails exactly on a non-array ledger (TypeError, `NotIterable`) or, with both ledgers arrays, a NaN meta stamp (RangeError, `InvalidTimeValue`); otherwise every non-ledger section is taken from remote, the days are sorted and hold the per-date winners, `meta.updated_at` is the maximum of local, remote and now (so at least all three), and currency/timezone are defaulted only when falsy on remote |
| Reconciler.ReplayPresence | public/app.js:114-116 | after the local loop a date has a record exactly when it had one before or a local record carries it |
| Reconciler.ReplayUnique | public/app.js:113-121 | with one local record per date, the loop's outcome for a date is that record resolved against the remote one |
| Reconciler.ReplayAbsent | public/app.js:113-121 | local records with other dates leave a date's record untouched |
| Reconciler.MergedDatesAreUnion | public/app.js:109-124 | the merged ledger's dates are exactly the union of both inputs' dates |
| Reconciler.MergeWinnerPerDate | public/app.js:114-120 | with unique local dates, the merged record for each date is the local-only record, the remote-only record, or the winner by `updated_at` (ties to local) |
| Reconciler.MergeConflict | public/app.js:114-120 | with one record per date on each side, for a local and a remote record sharing a date, the merged ledger holds the local one when `lu >= ru` and the remote one otherwise, and no other record for that date |
| Reconciler.MergeWithItself | public/app.js:106-134 | merging a sorted document whose stamp parses and whose currency and timezone are set with itself returns it unchanged except that `meta.updated_at` advances to now if now is later |
| Reconciler.DeletedDayComesBack | public/app.js:109-122 | no tombstones: after a date is filtered out locally, the merge holds whatever the remote copy has for it |
| Reconciler.LocalOnlyDayKept | public/app.js:115-116 | with one local record per date, any local record whose date the remote ledger lacks is in the merged ledger and is its only record for that date |
| Reconciler.SingleLocalDayKept | public/app.js:115-116 | a ledger holding one day, merged into an empty remote ledger, comes back as exactly that day |
| Reconciler.SingleConflict | public/app.js:114-120 | one local and one remote record for the same date merge into a ledger holding only the winner: local when `lu >= ru`, remote otherwise |
| Reconciler.NewerRemoteWins | public/app.js:118-120 | a record stamped 12:00Z remotely beats the same date stamped 10:00Z locally; the merged cash income is 80 |
| Month.MonthKey | public/app.js:136-138 | the month key is the prefix of the date of length min(7, length) |
| Month.MonthKeyIsPrefixTest | public/app.js:136-138 | for a seven-character month, a date belongs to it exactly when the month is a prefix of the date |
| Month.InMonth | public/app.js:146 | the filter keeps exactly the records whose month key equals the month |
| Month.InMonthCounts | public/app.js:146 | the filter keeps each record of the month as many times as the ledger holds it, and no record of another month |
| Month.InMonthIdempotent | public/app.js:146 | filtering the month's records again changes nothing |
| Month.SumOfAppend | public/app.js:147 | the reduction adds one more element's value |
| Month.OutstandingOnly | public/app.js:172 | the receivables kept are exactly those whose status (missing means pending) is not "paid" |
| Month.OutstandingCounts | public/app.js:172 | each receivable that is not paid is kept as many times as it occurs, and no paid one |
| Month.CalcMonth | public/app.js:145-179 | fails exactly when days, investments, debts or receivables is a non-array; otherwise a zero or missing rigid/flexible plan falls back to 5000/1000, `flexRemaining` = max(0, flexPlan − flexUsed) ≥ 0, `ahorroReal` = rigid + flexRemaining ≥ rigid, `cashNet` = incomeCash − spendCash − (rigid + flexPlan) |
| Month.EmptyMonthReport | public/app.js:145-179 | base case: with no record in the month and empty accounts, every day total and account total is 0, `flexRemaining` is the flexible plan clamped at 0, `cashNet` is −(rigid + flexPlan) and `vouchersNet` is 0 |
| Month.NoMonthDays | public/app.js:146 | when no record is dated in the month, the filter is empty |
| Month.OtherMonthDayIgnored | public/app.js:146 | adding a record dated in another month leaves the whole report unchanged |
| Month.InMonthDayAdds | public/app.js:149-154 | adding a record dated in the month adds its income, spend and flexible-fund amounts to the totals and leaves every account total (`invTotal`, `rendAnual`, `debtTotal`, `rcvTotal`) alone |
| Month.OnlyMonthDaysCount | public/app.js:146 | the report depends only on the month's own records |
| Month.ReceivableCounting | public/app.js:171-172 | a paid receivable changes nothing; any other one (missing status = pending) adds its amount to `rcvTotal` and changes nothing else |
| Month.InvestmentCounting | public/app.js:164-166 | an appended investment adds its principal to `invTotal` and principal × annual rate to `rendAnual`, and changes nothing else |
| Month.DebtCounting | public/app.js:168-169 | an appended debt adds its balance to `debtTotal` and changes nothing else |
| Month.MarchIncomeExample | public/app.js:149 | two March records with cash income 100 and 200 give 300 for "2024-03" |
| Month.FlexExhaustedExample | public/app.js:154-158 | a flexible plan of 1000 fully used leaves `flexRemaining` 0 |
| Alerts.LastDate | public/app.js:187 | the date the sort puts last occurs in the ledger and no date sorts after it |
| Alerts.DaysSince | public/app.js:189 | whole days elapsed, rounded down: `r` days fit into the interval and `r + 1` do not |
| Alerts.GreatestDateIsUnique | public/app.js:187 | every record carrying a greatest date carries that same date |
| Alerts.SoftAlerts | public/app.js:181-193 | at most two chips and never the same chip twice; the flexible-fund chip appears iff `flexUsed > 0` and then comes first; a staleness chip appears iff some record holds the greatest date, its midnight is a valid time, and at least 3 whole days have passed since; it carries that day count; no days means no staleness chip |
| Alerts.FlexExhaustedAlert | public/app.js:183 | a fully used flexible fund raises the flexible-fund warning first |
| DayStore.FindByDate | public/app.js:294 | `find` returns the first record with the date, or nothing exactly when the date is absent |
| DayStore.GetOrCreateDay | public/app.js:291-308 | fails only on a non-array ledger; otherwise nothing but `ledger.days` changes, the returned record has the date, an existing date leaves the days as they were and returns the first match, a new date appends exactly one record stamped `now` whose seven amounts are the number 0, with no debt payments and no notes |
| DayStore.GetOrCreateIdempotent | public/app.js:294-307 | a second call with the same date returns the same record and document, adding nothing |
| DayStore.GetOrCreateKeepsDatesUnique | public/app.js:294-306 | if dates were unique before, they still are |
| DayStore.BlankDayLeavesReport | public/app.js:296-304 | a record whose amounts all read as zero does not change a report |
| DayStore.GetOrCreateLeavesReport | public/app.js:291-308 | creating a day record leaves every month's report unchanged |
| DayStore.DeleteDay | public/app.js:513 | the filtered days keep exactly the records with another date, so the date is gone; a date not present leaves the days unchanged |
| DayStore.DeleteDayCounts | public/app.js:513 | each record with another date is kept as many times as it occurs |
| DayStore.DeleteDayAppend | public/app.js:513 | the filter keeps the records in their order: filtering two ledgers joined end to end equals filtering each and joining |

## Left out

- Local storage, Google Drive and OAuth (`loadLocal`, `saveLocal`, `driveDownload`, `driveUpload`, `initGoogle`, `connectDrive`, `syncNow`): I/O and third-party calls. `syncNow` only orchestrates download → merge → save → re-stamp → upload, and its re-stamp after `saveLocal` is not modelled.
- DOM and UI code (`renderDashboard`, `setSyncBadge`, `showTab`, `fillCaptureFromDay`, `updateLiveSummary`, `updateFlexRemaining`, event wiring in `bindUI`): it reads and writes form fields.
- `ensureSkeleton`, `fmtMXN`, `goalSummary`, `getCurrentMonth`: document construction with literal defaults, locale formatting, and string building, none of which is part of the data logic proved here.
- `public/sw.js`: a cache-first service worker, pure I/O. `public/config.js` only sets `window.APP_CONFIG`, which is the `cfg` parameter.
- ISO-string conversion and time zones: `Date.parse`, `toISOString` and local-midnight parsing are abstracted as integers (`Stamp`, the `midnight` parameter). The model assumes `toISOString` followed by `Date.parse` returns the same milliseconds, and does not model the ±8.64e15 ms range limit of `Date`.
- Floating point: `parseFloat`'s decimal parsing and IEEE rounding of sums. Amounts are exact reals.
- A record without a `date` is modelled with date "". The code keeps `undefined` and "" as two different `Map` keys that both sort as "". In `softAlerts` it also sorts an `undefined` date last, which yields an invalid Date and so no staleness chip. For an empty date argument, `find(d => d.date === dateStr)` and `filter(d => d.date !== dateStr)` neither match nor remove an `undefined`-date record, whereas `FindByDate`, `GetOrCreateDay` and `DeleteDay` match and remove it as a "" record.
- `localeCompare` and the default array sort are modelled as character-by-character code-point order (`Lex.Less`). This agrees with `localeCompare` on `YYYY-MM-DD` dates but not on arbitrary strings. It also differs from UTF-16 code-unit order for characters beyond the Basic Multilingual Plane. Likewise `MonthKey` takes the first seven characters (code points), where `slice(0,7)` takes seven UTF-16 code units; the two agree on ASCII dates such as `YYYY-MM-DD`.
- A missing `meta`, `ledger`, `plan` or `accounts` object is represented by its empty version. Every modelled operation treats the two the same way. A remote document that is `null` or not an object (so `out.ledger` throws) is not modelled.
- An array-valued field holding a non-empty string (iterable, yet without `find`/`filter`), and array elements that are `null`, are not modelled.
- Fields of investments, debts and receivables that `calcMonth` does not read are not represented.
- DeleteDay: models only the `filter` on the days. The handler's re-stamp of `meta.updated_at` is left out, and so is the TypeError it raises when `ledger` is missing.
- Reconciler.MergeWinnerPerDate: stated for a local ledger with one record per date. For duplicate local dates, `MergeByDate`'s own contract gives the general per-date fold (`Replay`).
- Alerts.SoftAlerts: the chip texts and the constant level "warn" are not modelled, only which chips appear and the day count.
