# Mercado inmobiliario: a verified model of the import, filtering and reporting core

This project is a Dafny model of the core of a Chilean real-estate market dashboard. It covers
three TINSA market-data CSV importers (two Python scripts and a Next.js API route) that turn
rows of Chilean-formatted numbers into project and typology records. It also covers the
dashboard's filters, tables, charts, reports, alerts and map logic, a geocoding script with its
cache, a small TTL cache, the system-prompt administration router, and two helpers for knowledge
files and markdown.

Every operation is written as a Dafny function or method. Where the source changes state in
place, the model is a class or a method with a loop. Its contract ties the result, or the new
state, to a specification function, and the properties promised by the source are proved about
that function.

Modules follow the source files:

| module | source |
|---|---|
| `TinsaParsers`, `TinsaTransform`, `TinsaReconcile` | `backend/app/etl/tinsa_importer.py` (cell parsers; grouping and the latest period; the database passes) |
| `ImportTinsa` | `backend/app/etl/import_tinsa.py` |
| `ImportRoute` | `frontend/src/app/api/admin/import-tinsa/route.ts` |
| `DashboardMapFilters` | `frontend/src/components/DashboardMapFilters.tsx` |
| `ProjectsTable` | `frontend/src/components/ProjectsTable.tsx` |
| `Analytics` | `frontend/src/app/dashboard/analytics/page.tsx` |
| `Reports` | `frontend/src/app/dashboard/reports/page.tsx` |
| `Alerts` | `frontend/src/lib/alerts.ts` |
| `MapboxMap` | `frontend/src/components/MapboxMap.tsx` |
| `GeocodeProjects` | `backend/app/etl/geocode_projects.py` |
| `TtlCache` | `backend/app/utils/cache.py` |
| `AdminRouter` | `backend/app/brain/admin_router.py` |
| `KnowledgeFileParser` | `frontend/src/lib/knowledge-file-parser.ts` |
| `MarkdownRenderer` | `frontend/src/components/shared/MarkdownRenderer.tsx` |

Shared modules:

- `Wrappers`: `Option`.
- `Text`: strip and trim, case mapping, search and replace, decimal printing.
- `Numeric`: Python `float()` and `round()`, JavaScript `parseFloat`, `Number` and `Math.round`, and truthiness.
- `Collections`: filter, sum, grouping, stable sort, top-N and folds.
- `Storage`: a Supabase/PostgREST table with `upsert`, `insert`, `delete` and `select`.

Modelling conventions:

- Floating-point numbers are modelled as exact reals.
- Rounding to a number of decimals is left out. Python's `round()` to an integer (ties to even) and JavaScript's `Math.round` are modelled exactly.
- A CSV cell that pandas reads as NaN is `None`.
- A database call that can fail is a `Table` whose constant `accepts` predicate says which records the schema admits. A batch is atomic: it is all stored or none of it is. The constant `permitsDelete` says which deletes the server carries out; a refused delete removes nothing.
- Clocks, UUIDs and the geocoding provider are parameters.
- Locale-aware string comparison is a fixed order on characters.

## Model

| member | source | states |
|---|---|---|
| `TinsaParsers.ChileanToPython` | backend/app/etl/tinsa_importer.py:63-64 | after the rewrite no comma is left, and a point is left only where the text had a comma |
| `TinsaParsers.ParseChileanInt` | backend/app/etl/tinsa_importer.py:71-75 | defined exactly when `parse_chilean_number` is; within 0.5 of it; a tie rounds to the even integer (Python `round`) |
| `TinsaParsers.ChileanToPythonDecimal` | backend/app/etl/tinsa_importer.py:63-64 | `w,f` with dot-grouped `w` becomes `w`-without-dots, a point, `f` |
| `TinsaParsers.ParseChileanNumberPlain` | backend/app/etl/tinsa_importer.py:60-68 | on stripped text that is not a null token the parser is `float` of the rewritten text |
| `TinsaParsers.ChileanDecimal` | backend/app/etl/tinsa_importer.py:56-68 | a dot-grouped number with a decimal comma parses to its value (`"4.250,5"` is 4250.5) |
| `TinsaParsers.ChileanToPythonInteger` | backend/app/etl/tinsa_importer.py:63-64 | an optionally signed dot-grouped integer loses only its dots |
| `TinsaParsers.ChileanInteger` | backend/app/etl/tinsa_importer.py:56-68 | a dot-grouped integer parses to its value (`"334.565"` is 334565) |
| `TinsaParsers.ChileanNegativeInteger` | backend/app/etl/tinsa_importer.py:56-68 | a minus sign and a dot-grouped integer parse to the negated value |
| `TinsaParsers.ChileanNumberNullToken` | backend/app/etl/tinsa_importer.py:60-62 | a cell that strips to `-`, empty, `nan`, `None` or `NaN` is missing |
| `TinsaParsers.ChileanNumberDash` | backend/app/etl/tinsa_importer.py:60-62 | `" - "` is missing |
| `TinsaParsers.ChileanNumberBlank` | backend/app/etl/tinsa_importer.py:60-62 | an all-whitespace cell is missing |
| `TinsaParsers.PercentageText` | backend/app/etl/tinsa_importer.py:82 | the text handed to `float` has no `%` and no comma |
| `TinsaParsers.PercentageTextDecimal` | backend/app/etl/tinsa_importer.py:82 | `w,f%` becomes the Python literal `w.f` |
| `TinsaParsers.PercentageOfDecimal` | backend/app/etl/tinsa_importer.py:78-88 | a percentage with a decimal comma parses to that number, not divided by 100 (`"4,5%"` is 4.5) |
| `TinsaParsers.ParseBooleanIgnoresCase` | backend/app/etl/tinsa_importer.py:95 | the flag does not depend on letter case |
| `TinsaParsers.StripLower` | backend/app/etl/tinsa_importer.py:95 | lower-casing commutes with stripping |
| `TinsaParsers.ParseBooleanSi` | backend/app/etl/tinsa_importer.py:96-97 | `"si"` is true |
| `TinsaParsers.ParseBooleanNo` | backend/app/etl/tinsa_importer.py:98-99 | `"NO"` is false |
| `TinsaParsers.ParseBooleanDash` | backend/app/etl/tinsa_importer.py:100 | any other token, such as `"-"`, is missing |
| `TinsaParsers.DayField` | backend/app/etl/tinsa_importer.py:112-114 | `%d` accepts only a day from 1 to 31 |
| `TinsaParsers.MonthField` | backend/app/etl/tinsa_importer.py:112-114 | `%m` accepts only a month from 1 to 12 |
| `TinsaParsers.YearField` | backend/app/etl/tinsa_importer.py:112-114 | `%Y` accepts exactly four digits, so a year below 10000 |
| `TinsaParsers.Strptime` | backend/app/etl/tinsa_importer.py:113-114 | `strptime` yields only valid calendar dates |
| `TinsaParsers.FirstStrptime` | backend/app/etl/tinsa_importer.py:112-116 | defined exactly when some format of the list parses the text; the date is a valid calendar date |
| `TinsaParsers.IsoDate` | backend/app/etl/tinsa_importer.py:114 | `isoformat` is ten characters with dashes at positions 4 and 7 |
| `TinsaParsers.FirstMonthIn` | backend/app/etl/tinsa_importer.py:125-126 | the index of the first Spanish month name contained in the lower-cased text; no earlier month is contained |
| `TinsaParsers.FirstFourDigits` | backend/app/etl/tinsa_importer.py:127-129 | the first run of four digits read as a number below 10000 |
| `TinsaParsers.MonthNameDate` | backend/app/etl/tinsa_importer.py:124-130 | the corrected month-name fallback is an ISO date on day 01 |
| `TinsaParsers.MonthNameDateUnpadded` | backend/app/etl/tinsa_importer.py:129-130 | `"0099 enero"` gives `"99-01-01"` as written and `"0099-01-01"` corrected |
| `TinsaParsers.UnpaddedAsWritten` | backend/app/etl/tinsa_importer.py:129-130 | as written, the year 99 is printed unpadded: `"99-01-01"` |
| `TinsaParsers.UnpaddedCorrected` | backend/app/etl/tinsa_importer.py:129-130 | with the year padded to four digits the result is `"0099-01-01"` |
| `TinsaParsers.ParseDateSpec` | backend/app/etl/tinsa_importer.py:103-132 | with the corrected year padding, every date `parse_date` returns is `YYYY-MM-DD`-shaped |
| `TinsaParsers.ParseDateText` | backend/app/etl/tinsa_importer.py:107-132 | the same on the stripped text |
| `TinsaParsers.ParseDate` | backend/app/etl/tinsa_importer.py:103-132 | the method (format loop, then month-name loop) returns what the specification returns, with the corrected year padding |
| `TinsaParsers.TryFormats` | backend/app/etl/tinsa_importer.py:112-116 | the loop returns the ISO form of the first format that parses, and nothing when none does |
| `TinsaParsers.TryMonthNames` | backend/app/etl/tinsa_importer.py:119-130 | the loop over the month names returns the month-name date, with the corrected year padding |
| `TinsaParsers.FirstStrptimeAt` | backend/app/etl/tinsa_importer.py:112-116 | when every earlier format fails and format `i` parses, the result is format `i`'s |
| `TinsaParsers.DigitsValuePad2` | backend/app/etl/tinsa_importer.py:130 | two zero-padded digits read back as the number |
| `TinsaParsers.DigitsValuePad4` | backend/app/etl/tinsa_importer.py:130 | four zero-padded digits read back as the number |
| `TinsaParsers.DayFieldPad2` | backend/app/etl/tinsa_importer.py:112-114 | a padded day is accepted by `%d` as itself |
| `TinsaParsers.MonthFieldPad2` | backend/app/etl/tinsa_importer.py:112-114 | a padded month is accepted by `%m` as itself |
| `TinsaParsers.YearFieldPad4` | backend/app/etl/tinsa_importer.py:112-114 | a padded year is accepted by `%Y` as itself |
| `TinsaParsers.SplitThree` | backend/app/etl/tinsa_importer.py:112-114 | three digit fields joined by a non-digit separator split back into the three fields |
| `TinsaParsers.StrptimeDayFirst` | backend/app/etl/tinsa_importer.py:112-114 | `%d-%m-%Y` reads a date written that way back as that date |
| `TinsaParsers.ParseDateDayFirst` | backend/app/etl/tinsa_importer.py:103-116 | a `DD-MM-YYYY` cell parses to the ISO form of that date |
| `TinsaParsers.ParseDateTextDayFirst` | backend/app/etl/tinsa_importer.py:107-116 | the same on the stripped text |
| `TinsaParsers.StrptimeIso` | backend/app/etl/tinsa_importer.py:112-114 | an ISO date fails both day-first formats and is read by `%Y-%m-%d` as itself |
| `TinsaParsers.ParseDateIso` | backend/app/etl/tinsa_importer.py:103-116 | `parse_date` is idempotent on its own output: an ISO date reads back as itself |
| `TinsaParsers.ParseDateTextIso` | backend/app/etl/tinsa_importer.py:107-116 | the same on the stripped text |
| `TinsaParsers.FirstFit` | backend/app/etl/tinsa_importer.py:153-157 | the first divisor index from `k` on at which the divided pair is in the box; none before it fits |
| `TinsaParsers.FixValues` | backend/app/etl/tinsa_importer.py:153-167 | any pair returned has latitude in [-60,-15] and longitude in [-80,-60] |
| `TinsaParsers.FixCoordinatesSpec` | backend/app/etl/tinsa_importer.py:135-167 | the same for the two cells; a missing or unparsable cell gives `(None, None)` |
| `TinsaParsers.FixCoordinates` | backend/app/etl/tinsa_importer.py:135-167 | the method returns what the specification returns |
| `TinsaParsers.SweepDivisors` | backend/app/etl/tinsa_importer.py:153-167 | the two sweeps, unswapped first, compute `FixValues` |
| `TinsaParsers.Sweep` | backend/app/etl/tinsa_importer.py:153-157 | one sweep returns the pair divided by the first divisor that fits, or nothing when none fits |
| `TinsaParsers.FixValuesInBox` | backend/app/etl/tinsa_importer.py:153-157 | a pair already in the box is returned undivided |
| `TinsaParsers.FixValuesScaled` | backend/app/etl/tinsa_importer.py:153-157 | a pair in the box scaled up by `10^k` is recovered exactly |
| `TinsaParsers.FixValuesSwapped` | backend/app/etl/tinsa_importer.py:153-164 | a swapped pair, once scaled by `10^k`, is swapped back and recovered |
| `TinsaParsers.SwappedFitsUnswapped` | backend/app/etl/tinsa_importer.py:153-157 | even when the unswapped sweep finds a fit for a scaled swapped pair, the pair it returns is the original one |
| `TinsaParsers.SwappedFitsOnlyAt` | backend/app/etl/tinsa_importer.py:153-157 | a scaled swapped pair can fit unswapped at no divisor other than its scale |
| `TinsaParsers.SwappedFitsSwapped` | backend/app/etl/tinsa_importer.py:160-164 | otherwise the swapped sweep returns the original pair |
| `TinsaParsers.ScaledTooLarge` | backend/app/etl/tinsa_importer.py:153-156 | a smaller divisor than the scale leaves a value below -15 at -150 or less |
| `TinsaParsers.ScaledTooSmall` | backend/app/etl/tinsa_importer.py:153-156 | a larger divisor than the scale leaves a value in [-80,-15] in [-8,0] |
| `TinsaParsers.FixValuesExample` | backend/app/etl/tinsa_importer.py:135-167 | `-334565` and `-706600`, which lost their decimal points to the thousands rule, come back as (-33.4565, -70.66) |
| `TinsaParsers.FixValuesMixedDecimals` | backend/app/etl/tinsa_importer.py:135-167 | with different numbers of lost decimals no common divisor fits, and the pair is dropped |
| `TinsaTransform.PeriodRank` | backend/app/etl/tinsa_importer.py:256 | the rank is at most 9; a positive rank is the leading digit of the stripped label |
| `TinsaTransform.PeriodRankAgrees` | backend/app/etl/tinsa_importer.py:256 | without leading whitespace the corrected rank and the rank as written agree |
| `TinsaTransform.PeriodRankLeadingSpace` | backend/app/etl/tinsa_importer.py:256 | `" 2P"`: as written `int(" ")` raises; corrected the rank is 2 |
| `TinsaTransform.SortKeyOrder` | backend/app/etl/tinsa_importer.py:255-257 | the sort key orders rows by year, then period rank |
| `TinsaTransform.LatestFirst` | backend/app/etl/tinsa_importer.py:257 | the sort is a permutation of the rows |
| `TinsaTransform.LatestFirstSorted` | backend/app/etl/tinsa_importer.py:257 | the sorted rows are in descending (year, rank) order |
| `TinsaTransform.Grouped` | backend/app/etl/tinsa_importer.py:260 | every row `groupby` keeps has both a name and a commune (NaN keys are dropped) |
| `TinsaTransform.GroupSorted` | backend/app/etl/tinsa_importer.py:260 | each group keeps the sorted order |
| `TinsaTransform.LatestRowsAsWrittenNaN` | backend/app/etl/tinsa_importer.py:272-279 | as written, a group whose first row has a NaN period keeps no row (the `iloc[0]` after it raises) |
| `TinsaTransform.LatestRows` | backend/app/etl/tinsa_importer.py:272-276 | every retained row shares the first row's year and period label |
| `TinsaTransform.LatestRowsHead` | backend/app/etl/tinsa_importer.py:272-279 | the corrected selection always keeps the first row, so row 0 exists |
| `TinsaTransform.LatestRowsAreLatest` | backend/app/etl/tinsa_importer.py:255-276 | in a sorted group every retained row sorts no earlier than any row of the group |
| `TinsaTransform.GroupLatest` | backend/app/etl/tinsa_importer.py:255-276 | the same for the groups the pipeline builds |
| `TinsaTransform.SumUnitsPermutation` | backend/app/etl/tinsa_importer.py:285-288 | unit totals do not depend on the order of the rows |
| `TinsaTransform.ColumnValues` | backend/app/etl/tinsa_importer.py:291-303 | one parsed value per row, read from the first column present |
| `TinsaTransform.MeanPositive` | backend/app/etl/tinsa_importer.py:292-297 | defined exactly when some value is positive; then positive, and times the count of positives it is their sum |
| `TinsaTransform.MinPositive` | backend/app/etl/tinsa_importer.py:305-344 | defined exactly when some value is positive; the least positive value, taken from the list |
| `TinsaTransform.MaxPositive` | backend/app/etl/tinsa_importer.py:306-345 | defined exactly when some value is positive; the greatest positive value, taken from the list |
| `TinsaTransform.PriceMeanBetween` | backend/app/etl/tinsa_importer.py:344-346 | the mean of the positive values lies between their minimum and maximum |
| `TinsaTransform.PositiveOrNull` | backend/app/etl/tinsa_importer.py:333-337 | a unit total is written as null exactly when it is not positive |
| `TinsaTransform.CleanValue` | backend/app/etl/tinsa_importer.py:362-364 | no text that lower-cases to `nan`, `none` or empty survives; other values pass unchanged |
| `TinsaTransform.Clean` | backend/app/etl/tinsa_importer.py:361-364 | cleaning keeps the keys and replaces each value by its cleaned value |
| `TinsaTransform.CleanHasNoNoneText` | backend/app/etl/tinsa_importer.py:361-364 | a cleaned record holds no `nan`/`none`/empty text |
| `TinsaTransform.DigitRun` | backend/app/etl/tinsa_importer.py:376 | the length of the leading run of digits (`\d+`) |
| `TinsaTransform.MatchTypologyOf` | backend/app/etl/tinsa_importer.py:376-379 | a code `aD-bB…` or `aD+bB…` gives bedrooms `a` and bathrooms `b` |
| `TinsaTransform.MatchTypologyRoundTrip` | backend/app/etl/tinsa_importer.py:376-379 | printing bedrooms and bathrooms into a code and matching it gives them back |
| `TinsaTransform.MatchTypologyNoDigit` | backend/app/etl/tinsa_importer.py:375-377 | a code that does not start with a digit gives no bedrooms or bathrooms |
| `TinsaTransform.SurfaceIndoor` | backend/app/etl/tinsa_importer.py:392 | surface minus terrace when both are truthy, otherwise the surface |
| `TinsaTransform.TypologyRecordCarriesParent` | backend/app/etl/tinsa_importer.py:384-386 | each typology record carries its project's name and commune |
| `TinsaTransform.TypologiesOf` | backend/app/etl/tinsa_importer.py:369-372 | one typology per retained row whose code is neither empty nor `nan` |
| `TinsaTransform.TypologiesFromRows` | backend/app/etl/tinsa_importer.py:369-411 | every typology record is built from a retained row that has a code |
| `TinsaTransform.TransformGroups` | backend/app/etl/tinsa_importer.py:266-269 | every group is either turned into a project or counted as skipped |
| `TinsaTransform.GroupsNonEmpty` | backend/app/etl/tinsa_importer.py:260-266 | every group holds at least one row |
| `TinsaTransform.TransformSpec` | backend/app/etl/tinsa_importer.py:244-414 | projects plus skipped groups equal the number of groups |
| `TinsaTransform.TransformProjects` | backend/app/etl/tinsa_importer.py:244-414 | the method returns what the specification returns |
| `TinsaTransform.TransformLoop` | backend/app/etl/tinsa_importer.py:266-411 | the loop over the groups computes the specification |
| `TinsaTransform.TransformGroupsStep` | backend/app/etl/tinsa_importer.py:266-411 | one group either adds one to the skip count, or adds one project and its typologies |
| `TinsaTransform.CollectTypologies` | backend/app/etl/tinsa_importer.py:369-411 | the inner loop collects exactly the group's typology records |
| `TinsaTransform.TypologyCount` | backend/app/etl/tinsa_importer.py:369-411 | the number of typologies is the sum over the groups of their rows with a code |
| `TinsaTransform.ProjectsOfKeptGroups` | backend/app/etl/tinsa_importer.py:266-366 | one project per group not skipped; the skip count is the number of skipped groups |
| `TinsaTransform.TypologiesCarryParent` | backend/app/etl/tinsa_importer.py:384-386 | every typology of a group carries its parent's key |
| `TinsaTransform.TransformCarriesParent` | backend/app/etl/tinsa_importer.py:244-414 | every typology the transformation returns carries its parent's key |
| `TinsaReconcile.DropEmpty` | backend/app/etl/tinsa_importer.py:432 | exactly the keys whose value is None or `nan`/`none`/empty text are dropped; the others keep their values |
| `TinsaReconcile.DropEmptyIdempotent` | backend/app/etl/tinsa_importer.py:432 | cleaning twice is cleaning once; a cleaned record holds no such value |
| `TinsaReconcile.Cleaned` | backend/app/etl/tinsa_importer.py:431-432 | one cleaned record per project, in order |
| `TinsaReconcile.GroupByShape` | backend/app/etl/tinsa_importer.py:430-434 | the groups partition the cleaned records by their sorted key set, in order of first appearance |
| `TinsaReconcile.AddToGroup` | backend/app/etl/tinsa_importer.py:433-434 | appending one record to its shape's group keeps the partition |
| `TinsaReconcile.ProjectKeyColumns` | backend/app/etl/tinsa_importer.py:442-446 | the conflict columns of a record are its (name, commune) key |
| `TinsaReconcile.RegisteredExtends` | backend/app/etl/tinsa_importer.py:436-462 | the id map stays correct while the table only grows |
| `TinsaReconcile.RegisterRow` | backend/app/etl/tinsa_importer.py:458-459 | recording a returned row keeps every entry of the id map pointing at the stored row with that key |
| `TinsaReconcile.RegisterRows` | backend/app/etl/tinsa_importer.py:444-446 | exactly the keys of the returned rows enter the map, and the map stays correct |
| `TinsaReconcile.RowKeysOfBatch` | backend/app/etl/tinsa_importer.py:440-446 | the rows an upsert answers carry exactly the keys of the batch's records |
| `TinsaReconcile.UpsertBatch` | backend/app/etl/tinsa_importer.py:437-462 | whether the batch goes through or is retried record by record, the table ends as the upsert of exactly the batch's accepted records, in order; the count grows by their number; the errors grow by one exactly when the batch is refused; exactly their keys enter the map, which stays correct |
| `TinsaReconcile.UpsertRecord` | backend/app/etl/tinsa_importer.py:451-462 | a record the table accepts is upserted, counted, and its key mapped to the returned row; a refused record changes nothing |
| `TinsaReconcile.UpsertOneByOne` | backend/app/etl/tinsa_importer.py:450-462 | the retry upserts exactly the batch's accepted records, in order, counts them, and maps exactly their keys |
| `TinsaReconcile.ShapeBatchesFlatten` | backend/app/etl/tinsa_importer.py:436-438 | the batches, sent in order, send each shape's group in turn |
| `TinsaReconcile.ProjectBatchesPermutation` | backend/app/etl/tinsa_importer.py:430-438 | the batches hold exactly the cleaned records, each once, regrouped by shape |
| `TinsaReconcile.ProjectBatchesFacts` | backend/app/etl/tinsa_importer.py:430-447 | the batches hold as many accepted records as the cleaned records, with the same keys; when the table accepts every record and no two share a key, no batch fails and every project is counted |
| `TinsaReconcile.NoBatchRefused` | backend/app/etl/tinsa_importer.py:436-449 | when the table accepts every cleaned record and no two share a key, no batch fails |
| `TinsaReconcile.UpsertGroup` | backend/app/etl/tinsa_importer.py:437-462 | a shape's batches upsert exactly their accepted records, in order; they are counted, each refused batch counts one error, and exactly their keys enter the map |
| `TinsaReconcile.UpsertShapes` | backend/app/etl/tinsa_importer.py:436-463 | the same over the batches of every shape, shape after shape |
| `TinsaReconcile.InsertProjects` | backend/app/etl/tinsa_importer.py:423-466 | the table ends as the upsert of the accepted records of every batch, in order; the map's keys are exactly the keys of the accepted cleaned records, each naming the row stored under it; `inserted` is the number of accepted records and `errors` the number of refused batches; when every record is accepted and no two share a key, every project is counted and there are no errors |
| `TinsaReconcile.Attach` | backend/app/etl/tinsa_importer.py:475-478 | the two parent columns are popped and `project_id` is set; every other column is kept |
| `TinsaReconcile.Resolve` | backend/app/etl/tinsa_importer.py:474-481 | every resolved typology points at an identifier of the map |
| `TinsaReconcile.Unresolved` | backend/app/etl/tinsa_importer.py:474-481 | resolved plus unresolved is the number of typologies |
| `TinsaReconcile.ResolveDropsOrphans` | backend/app/etl/tinsa_importer.py:476-481 | typologies whose parent is unknown are all dropped and counted |
| `TinsaReconcile.ResolveKeepsResolved` | backend/app/etl/tinsa_importer.py:476-479 | typologies whose parent is known are all kept, in order, attached to that parent |
| `TinsaReconcile.ResolveParents` | backend/app/etl/tinsa_importer.py:472-481 | the loop computes the resolved list and the unresolved count |
| `TinsaReconcile.ListSet` | backend/app/etl/tinsa_importer.py:487 | `list(set(...))` lists each element once |
| `TinsaReconcile.OutsideUnion` | backend/app/etl/tinsa_importer.py:488-491 | deleting two batches of parents in turn deletes their union |
| `TinsaReconcile.DeletePrevious` | backend/app/etl/tinsa_importer.py:486-493 | exactly the rows whose parent is in a batch whose delete went through are deleted, the others stay in order; a failed batch is skipped, and when every delete is permitted every resolved parent's rows are gone; a parent left undeleted was in a failed batch |
| `TinsaReconcile.InsertResolved` | backend/app/etl/tinsa_importer.py:495-510 | the table ends as the old rows followed by exactly the resolved records it accepts, in order, with fresh ids; the count is their number, and all of them when every record is accepted |
| `TinsaReconcile.InsertBatch` | backend/app/etl/tinsa_importer.py:496-510 | a batch inserted at once, or record by record after a failure, appends exactly its accepted records, in order, and counts them |
| `TinsaReconcile.InsertTypologies` | backend/app/etl/tinsa_importer.py:469-512 | the table ends as the rows the deletes kept followed by the resolved typologies it accepts, in order; the count is their number and the unresolved count is returned; the deleted parents are resolved parents, all of them when every delete is permitted; every row afterwards was there before or points at a resolved parent |
| `TinsaReconcile.KeptOrResolved` | backend/app/etl/tinsa_importer.py:486-510 | every row afterwards was there before or points at a resolved parent |
| `TinsaReconcile.ImportFile` | backend/app/etl/tinsa_importer.py:519-574 | without projects, or in a dry run, nothing is written and the counts are reported; otherwise the projects table is the upsert of the accepted batched records, the map holds exactly the accepted records' keys and names their rows, and the typologies table holds the rows the deletes kept followed by the accepted resolved typologies, which are counted |
| `ImportTinsa.CleanNumericDecimalComma` | backend/app/etl/import_tinsa.py:52-62 | text `w,f` becomes the number `w.f` |
| `ImportTinsa.CleanNumericKeepsDots` | backend/app/etl/import_tinsa.py:58-62 | text without commas or spaces, other than `-`, is read by `float` unchanged, so dots stay decimal points |
| `ImportTinsa.CleanNumericThousandsDot` | backend/app/etl/import_tinsa.py:58-62 | a Chilean thousands dot is read as a decimal point: `w.f` is `w.f`, not `wf` |
| `ImportTinsa.CommaNormalized` | backend/app/etl/import_tinsa.py:78-92 | no comma is left; with at most one comma the length is unchanged (the comma became a point) |
| `ImportTinsa.Rescaled` | backend/app/etl/import_tinsa.py:97-104 | a value of magnitude at most 100 is unchanged; a larger one is divided down to magnitude in [10,100) with its sign kept |
| `ImportTinsa.RescaledBounds` | backend/app/etl/import_tinsa.py:101 | a magnitude above 100 has at least 3 integer digits, and dividing by `10^(digits-2)` leaves it in [10,100) |
| `ImportTinsa.CleanAxis` | backend/app/etl/import_tinsa.py:75-104 | NaN gives nothing; any value returned has magnitude at most 100 |
| `ImportTinsa.CleanCoordinates` | backend/app/etl/import_tinsa.py:64-115 | a result exists exactly when both cells are present, both clean and the pair is in [-56,-17] x [-75,-66]; that pair is then returned |
| `ImportTinsa.CleanCoordinatesNoSwap` | backend/app/etl/import_tinsa.py:109-113 | unlike the other importer, a swapped pair is not swapped back: it is rejected |
| `ImportTinsa.CleanAxisThousandsCommas` | backend/app/etl/import_tinsa.py:99-101 | `-3345650.0` is scaled to `-33.4565` |
| `ImportTinsa.CountOr0` | backend/app/etl/import_tinsa.py:126-128 | a NaN count is 0 |
| `ImportTinsa.UnitsRules` | backend/app/etl/import_tinsa.py:130-134 | available is recomputed from stock minus sold only when it is 0 and stock is positive, never negative; the total is the stock when positive, otherwise sold plus available |
| `ImportTinsa.SalesSpeed` | backend/app/etl/import_tinsa.py:148 | the annual velocity when it is truthy, otherwise the period velocity |
| `ImportTinsa.AddressJoin` | backend/app/etl/import_tinsa.py:151-153 | null when the stripped street is empty; otherwise street and number joined by one space, or the street alone |
| `ImportTinsa.TextOrNull` | backend/app/etl/import_tinsa.py:158-159 | null exactly when the cell is NaN |
| `ImportTinsa.Name` | backend/app/etl/import_tinsa.py:157 | the corrected name is null for a NaN cell, otherwise the stripped text |
| `ImportTinsa.NameOfNaNAsWritten` | backend/app/etl/import_tinsa.py:157 | as written, a NaN name becomes the text `"nan"` |
| `ImportTinsa.MapRow` | backend/app/etl/import_tinsa.py:117-195 | with the corrected name, a row maps to a record exactly when its counts and floors parse to integers (otherwise `int()` raises and the row gives `None`) |
| `ImportTinsa.ProjectFields` | backend/app/etl/import_tinsa.py:155-189 | the record carries the name, commune and the three unit counts |
| `ImportTinsa.MapRowKey` | backend/app/etl/import_tinsa.py:157-159 | the mapped record's name and commune are the cleaned cells |
| `ImportTinsa.Kept` | backend/app/etl/import_tinsa.py:245-251 | at most one record per row, and each has a name and a commune |
| `ImportTinsa.KeepRows` | backend/app/etl/import_tinsa.py:242-251 | with the corrected name, the loop keeps exactly those records and counts every other row as skipped |
| `ImportTinsa.NaNNameSkipped` | backend/app/etl/import_tinsa.py:157 | with the corrected name, a row whose name is NaN is skipped (also line 248) |
| `ImportTinsa.NaNNameNoKey` | backend/app/etl/import_tinsa.py:157 | such a row maps to nothing or to a record without a key (also line 248) |
| `ImportTinsa.Merge` | backend/app/etl/import_tinsa.py:272-281 | the new non-null fields are added; a field already set that is not a unit count is kept; a null one is filled from the new record |
| `ImportTinsa.MergeMaxStep` | backend/app/etl/import_tinsa.py:276-279 | sold and available units become the larger of the two counts |
| `ImportTinsa.MergeAllMax` | backend/app/etl/import_tinsa.py:265-281 | after merging a group, sold and available hold the group's maximum |
| `ImportTinsa.MaxCountBounds` | backend/app/etl/import_tinsa.py:279 | that maximum bounds every row of the group |
| `ImportTinsa.MergeAllKeepsFirst` | backend/app/etl/import_tinsa.py:268-281 | a field set by the first record is never overwritten |
| `ImportTinsa.MergeAllFirstValue` | backend/app/etl/import_tinsa.py:268-281 | each other field holds the first non-null value of the group |
| `ImportTinsa.MergeKeepsKey` | backend/app/etl/import_tinsa.py:272-281 | merging keeps the name and commune |
| `ImportTinsa.Dedup` | backend/app/etl/import_tinsa.py:263-281 | the key list and the dictionary have the same keys |
| `ImportTinsa.DedupOrder` | backend/app/etl/import_tinsa.py:263-283 | keys appear in order of first occurrence, as in a Python dict |
| `ImportTinsa.DedupGroups` | backend/app/etl/import_tinsa.py:263-281 | each key's record is the merge of all the records with that key |
| `ImportTinsa.DedupKeys` | backend/app/etl/import_tinsa.py:263-283 | each merged record has the key it is stored under, and the keys are distinct |
| `ImportTinsa.Values` | backend/app/etl/import_tinsa.py:283 | the dictionary's values in key order |
| `ImportTinsa.Unique` | backend/app/etl/import_tinsa.py:283 | one record per distinct key |
| `ImportTinsa.DedupProjects` | backend/app/etl/import_tinsa.py:263-283 | the loop computes the unique records |
| `ImportTinsa.UniqueDistinctKeys` | backend/app/etl/import_tinsa.py:283-307 | the unique records have pairwise distinct conflict keys, so no upsert batch hits the same row twice |
| `ImportTinsa.UpsertBatches` | backend/app/etl/import_tinsa.py:298-322 | the table ends as the upsert of exactly the slices it admits, in order, and every key of them is stored; `inserted` is the number of their records and `errors` the number of refused slices; when the table accepts every record and the keys are distinct, all are counted and there are no errors |
| `ImportTinsa.WrittenFacts` | backend/app/etl/import_tinsa.py:298-322 | every record written is stored under its key; when every record is admitted, every slice is written and none is refused |
| `ImportTinsa.UpsertSlice` | backend/app/etl/import_tinsa.py:302-308 | one batch succeeds exactly when the table admits it; it always does when every record is accepted and the keys are distinct |
| `ImportTinsa.MigrateFile` | backend/app/etl/import_tinsa.py:224-322 | with the corrected name: a dry run leaves the table unchanged and reports the unique count; a real run leaves the table as the upsert of the admitted slices of the unique records, counts their records and the refused slices, and reports all of them with no errors when every record is accepted |
| `ImportRoute.ParseChileanNumber` | frontend/src/app/api/admin/import-tinsa/route.ts:260-271 | an empty or blank value is 0 |
| `ImportRoute.NormalizedDecimal` | frontend/src/app/api/admin/import-tinsa/route.ts:264-267 | `w,t` with dot-grouped `w` becomes `w`-without-dots, a point, `t` |
| `ImportRoute.ParseNotBlank` | frontend/src/app/api/admin/import-tinsa/route.ts:264-270 | a non-blank value parses to `parseFloat` of the normalized text |
| `ImportRoute.ChileanDecimal` | frontend/src/app/api/admin/import-tinsa/route.ts:260-271 | `"1.234,56"` style input parses to its value |
| `ImportRoute.ChileanValue` | frontend/src/app/api/admin/import-tinsa/route.ts:260-271 | only the first comma becomes a point; the rest of the text after the decimals is ignored by `parseFloat` |
| `ImportRoute.ChileanSecondComma` | frontend/src/app/api/admin/import-tinsa/route.ts:267-269 | `w,f,g` parses to `w.f`: `replace(',', '.')` changes only the first comma |
| `ImportRoute.ChileanInteger` | frontend/src/app/api/admin/import-tinsa/route.ts:260-271 | `"1234"` and `"1.234"` parse to 1234 |
| `ImportRoute.ChileanNotANumber` | frontend/src/app/api/admin/import-tinsa/route.ts:269-270 | text that does not start like a number gives 0 (NaN replaced by 0) |
| `Numeric.JsParseFloatPrefix` | frontend/src/app/api/admin/import-tinsa/route.ts:269 | `parseFloat` reads the longest numeric prefix |
| `ImportRoute.CsvFields` | frontend/src/app/api/admin/import-tinsa/route.ts:276-296 | a line always gives at least one field |
| `ImportRoute.ParseCsvLine` | frontend/src/app/api/admin/import-tinsa/route.ts:276-296 | the character loop computes the scanner's fields |
| `ImportRoute.ScanFromAppend` | frontend/src/app/api/admin/import-tinsa/route.ts:281-292 | scanning a concatenation is scanning the parts in turn |
| `ImportRoute.ScanQuotes` | frontend/src/app/api/admin/import-tinsa/route.ts:284-285 | after a prefix the scanner is inside quotes exactly when the prefix holds an odd number of quotes |
| `ImportRoute.ScanValues` | frontend/src/app/api/admin/import-tinsa/route.ts:286-288 | one field is closed per comma outside quotes |
| `ImportRoute.FieldCount` | frontend/src/app/api/admin/import-tinsa/route.ts:276-296 | the number of fields is the number of unquoted commas plus one |
| `ImportRoute.ScanDropsQuotes` | frontend/src/app/api/admin/import-tinsa/route.ts:284-291 | no quote character ever reaches a field |
| `ImportRoute.FieldsHaveNoQuotes` | frontend/src/app/api/admin/import-tinsa/route.ts:276-296 | no field of a parsed line contains a quote |
| `ImportRoute.ScanPlain` | frontend/src/app/api/admin/import-tinsa/route.ts:289-291 | characters that are neither quotes nor separating commas are appended to the current field |
| `ImportRoute.QuotedComma` | frontend/src/app/api/admin/import-tinsa/route.ts:276-296 | `a,"q",b` with a comma-free `a` and `b` gives the three trimmed fields, even when `q` holds commas |
| `ImportRoute.Lines` | frontend/src/app/api/admin/import-tinsa/route.ts:45 | no kept line is blank |
| `ImportRoute.HeaderNames` | frontend/src/app/api/admin/import-tinsa/route.ts:55 | one name per comma-separated piece of the header line, none holding a quote or a comma |
| `ImportRoute.HeaderName` | frontend/src/app/api/admin/import-tinsa/route.ts:55 | a header name has its quotes removed and holds only characters of the piece |
| `ImportRoute.RowOfColumns` | frontend/src/app/api/admin/import-tinsa/route.ts:77-81 | the row has exactly the header's columns |
| `ImportRoute.RowOfCell` | frontend/src/app/api/admin/import-tinsa/route.ts:79-81 | a column not repeated later in the header holds its value, or empty text when the line is short |
| `ImportRoute.BuildRow` | frontend/src/app/api/admin/import-tinsa/route.ts:77-81 | the `forEach` loop computes that row |
| `ImportRoute.RowKeyOf` | frontend/src/app/api/admin/import-tinsa/route.ts:84 | the group key is name, `_`, commune, trimmed as a whole |
| `ImportRoute.DataRows` | frontend/src/app/api/admin/import-tinsa/route.ts:70-94 | one row per data line |
| `ImportRoute.GroupRows` | frontend/src/app/api/admin/import-tinsa/route.ts:67-94 | the groups partition the rows by key, keys in order of first appearance |
| `ImportRoute.NumEmpty` | frontend/src/app/api/admin/import-tinsa/route.ts:121-123 | a missing or empty cell counts as `'0'`, that is 0 |
| `ImportRoute.GroupTotals` | frontend/src/app/api/admin/import-tinsa/route.ts:116-132 | the `forEach` accumulation computes the group's totals |
| `ImportRoute.SumRows` | frontend/src/app/api/admin/import-tinsa/route.ts:120-128 | the totals are the sums of units and sold, and the prices are the positive prices in row order |
| `ImportRoute.AvgPriceBounds` | frontend/src/app/api/admin/import-tinsa/route.ts:130-132 | the average is null exactly when there are no prices, otherwise between their minimum and maximum |
| `ImportRoute.ProjectFiguresColumns` | frontend/src/app/api/admin/import-tinsa/route.ts:149-173 | total, sold, available (total minus sold) and average price as computed; developer and region only when present |
| `ImportRoute.ProjectUpdateKeepsKey` | frontend/src/app/api/admin/import-tinsa/route.ts:149-157 | an update never rewrites the name or the commune |
| `ImportRoute.PricePerM2Meaning` | frontend/src/app/api/admin/import-tinsa/route.ts:209 | the price per m2 is set exactly when price and surface are positive, and times the surface it is the price |
| `ImportRoute.TypologyRecordKey` | frontend/src/app/api/admin/import-tinsa/route.ts:201-211 | the conflict key of a typology record is (project, bedrooms, bathrooms) |
| `ImportRoute.TypologyAvailable` | frontend/src/app/api/admin/import-tinsa/route.ts:207-209 | available is units minus sold; the price per m2 is as above |
| `ImportRoute.TypologyRecords` | frontend/src/app/api/admin/import-tinsa/route.ts:188-196 | at most one record per row |
| `ImportRoute.TypologyRecordsCount` | frontend/src/app/api/admin/import-tinsa/route.ts:188-212 | one record per row that is not a 0-bedroom, 0-bathroom row, each pointing at the project |
| `ImportRoute.UpsertEachExtends` | frontend/src/app/api/admin/import-tinsa/route.ts:199-212 | upserting records one at a time keeps every stored key and a well-formed table |
| `ImportRoute.ImportTypologies` | frontend/src/app/api/admin/import-tinsa/route.ts:187-219 | the table is the records upserted one by one; created counts the accepted ones; every other one adds one typology error |
| `ImportRoute.ImportTypology` | frontend/src/app/api/admin/import-tinsa/route.ts:188-219 | an upsert of one typology that is not (0, 0) extends the one-by-one upsert, the created count and the `TypologyFailed` messages by that record; a (0, 0) typology is skipped and changes none of them |
| `ImportRoute.UpsertTypology` | frontend/src/app/api/admin/import-tinsa/route.ts:199-217 | the upsert succeeds exactly when the table accepts the record, and changes the table only then |
| `ImportRoute.SavedProjectStored` | frontend/src/app/api/admin/import-tinsa/route.ts:134-185 | saving keeps every row, and a saved project is stored under its name and commune |
| `ImportRoute.SaveProject` | frontend/src/app/api/admin/import-tinsa/route.ts:134-185 | an existing project is updated, otherwise one is inserted; the outcome is the specification's |
| `ImportRoute.ImportGroup` | frontend/src/app/api/admin/import-tinsa/route.ts:100-223 | a group without name or commune adds one error and writes nothing; a failed insert adds one error and no typologies; otherwise the project is saved and its typologies upserted |
| `ImportRoute.ReportGroup` | frontend/src/app/api/admin/import-tinsa/route.ts:100-223 | one group's import is exactly one step of the import of the groups: the tables and the outcome it ends with |
| `ImportRoute.ImportStepSaves` | frontend/src/app/api/admin/import-tinsa/route.ts:134-190 | a named group whose name and commune select one existing row updates that row and is counted as updated; otherwise it inserts a new project with the next id and is counted as created when the table accepts it, and fails with `ProjectNotCreated`, writing nothing, when it does not |
| `ImportRoute.ImportStepFacts` | frontend/src/app/api/admin/import-tinsa/route.ts:100-223 | one group's import ends with the messages and counts its outcome reports, keeps both tables well formed, loses no project row and keeps every stored typology key |
| `ImportRoute.FoldStep` | frontend/src/app/api/admin/import-tinsa/route.ts:99-224 | importing one more group extends the import of the groups before it by that group's step |
| `ImportRoute.ImportFoldReported` | frontend/src/app/api/admin/import-tinsa/route.ts:99-224 | every group of an import is reported by its outcome, and both tables only grow |
| `ImportRoute.ImportGroups` | frontend/src/app/api/admin/import-tinsa/route.ts:99-224 | the two tables end as the groups imported one after the other, in order: a group without a name or a commune writes nothing and leaves one `MissingFields` message; otherwise its project is updated when its name and commune select one row, or inserted, and a refused insert leaves one `ProjectNotCreated` message and no typologies; a saved project's typology records are upserted one by one under its id, each refused one leaving a `TypologyFailed` message; `created`, `updated` and `typologies` are the sums over the groups' outcomes and the error list is their messages one group after the other; created plus updated plus failed groups is the number processed |
| `ImportRoute.ReportedTally` | frontend/src/app/api/admin/import-tinsa/route.ts:99-224 | every group is counted once: as created, as updated, or by the one message that ended it |
| `ImportRoute.AllReportedAt` | frontend/src/app/api/admin/import-tinsa/route.ts:99-224 | each group's outcome reports that group |
| `ImportRoute.Post` | frontend/src/app/api/admin/import-tinsa/route.ts:18-254 | status 400 exactly when the file is missing, not `.csv`, or has fewer than two non-blank lines, with nothing written; otherwise the two tables end as the groups of the upload's data lines imported one after the other, the statistics are the sums over the groups' outcomes, the error list is their messages in order, and the first 10 are returned |
| `DashboardMapFilters.Decompose` | frontend/src/components/DashboardMapFilters.tsx:123 | NFD leaves characters below U+00C0 alone |
| `DashboardMapFilters.NfdExample` | frontend/src/components/DashboardMapFilters.tsx:123 | `"Ñuñoa"` decomposes into N, combining tilde, u, n, combining tilde, o, a |
| `DashboardMapFilters.CombiningPassRedundant` | frontend/src/components/DashboardMapFilters.tsx:124-125 | the combining-mark pass removes nothing the `[^\w\s-]` pass has not already removed |
| `DashboardMapFilters.NormalizeIsNormal` | frontend/src/components/DashboardMapFilters.tsx:121-127 | a normalized value is ASCII word characters, spaces and dashes, lower case, trimmed |
| `DashboardMapFilters.NormalIsFixed` | frontend/src/components/DashboardMapFilters.tsx:121-127 | normalizing such a text changes nothing |
| `DashboardMapFilters.NormalizeIdempotent` | frontend/src/components/DashboardMapFilters.tsx:121-127 | normalizing twice is normalizing once, so option keys compare equal to normalized fields |
| `DashboardMapFilters.TitleCaseOnlyCase` | frontend/src/components/DashboardMapFilters.tsx:129-133 | title-casing changes only letter case, and the first letter is upper case |
| `DashboardMapFilters.BuildUniqueOptions` | frontend/src/components/DashboardMapFilters.tsx:135-153 | the `forEach` and `Map` loop computes the specified options |
| `DashboardMapFilters.MapEntries` | frontend/src/components/DashboardMapFilters.tsx:150-151 | one option per map entry, in insertion order |
| `DashboardMapFilters.CollectLabels` | frontend/src/components/DashboardMapFilters.tsx:139-148 | the map holds each listed key once, with the label of its first occurrence |
| `DashboardMapFilters.FirstLabelSnoc` | frontend/src/components/DashboardMapFilters.tsx:145-147 | a later value never replaces a key's label |
| `DashboardMapFilters.ByLabelPreorder` | frontend/src/components/DashboardMapFilters.tsx:152 | comparing by label is a total preorder, so the stable sort is well defined |
| `DashboardMapFilters.EntriesByDistinct` | frontend/src/components/DashboardMapFilters.tsx:139-151 | one entry per distinct key, keys in first-appearance order, no duplicates |
| `DashboardMapFilters.UniqueOptionsSorted` | frontend/src/components/DashboardMapFilters.tsx:135-153 | the options are sorted by label, a permutation of the entries, with distinct values |
| `DashboardMapFilters.OptionOffered` | frontend/src/components/DashboardMapFilters.tsx:142-147 | every value that is present and normalizes to a non-empty key is offered |
| `DashboardMapFilters.OptionSource` | frontend/src/components/DashboardMapFilters.tsx:142-147 | every option comes from a listed value, and its label is that of the first value with its key |
| `DashboardMapFilters.FormatCodeCanonical` | frontend/src/components/DashboardMapFilters.tsx:156 | a shown code has no whitespace and no lower case, and formatting it again gives it back |
| `DashboardMapFilters.CountsLabelInjective` | frontend/src/components/DashboardMapFilters.tsx:157-158 | `bD-bB` labels are equal exactly when the counts are |
| `DashboardMapFilters.FormatTypologyShown` | frontend/src/components/DashboardMapFilters.tsx:155-161 | a label exists exactly when there is a non-empty code or both counts; without a code it is `bD-bB` |
| `DashboardMapFilters.MatchesTypologyOf` | frontend/src/components/DashboardMapFilters.tsx:163-166 | a project without typologies matches none; each of its labelled typologies matches |
| `DashboardMapFilters.FindRange` | frontend/src/components/DashboardMapFilters.tsx:169-194 | `find` returns a range with the selected key, and nothing exactly when no range has it |
| `DashboardMapFilters.RangeTablesContiguous` | frontend/src/components/DashboardMapFilters.tsx:90-119 | the price, absorption and months-of-stock tables are contiguous with distinct keys |
| `DashboardMapFilters.PriceRangesContiguous` | frontend/src/components/DashboardMapFilters.tsx:90-97 | the price table is contiguous |
| `DashboardMapFilters.AbsorptionRangesContiguous` | frontend/src/components/DashboardMapFilters.tsx:106-112 | the absorption table is contiguous |
| `DashboardMapFilters.MaoRangesContiguous` | frontend/src/components/DashboardMapFilters.tsx:114-119 | the months-of-stock table is contiguous |
| `DashboardMapFilters.ContiguousOrdered` | frontend/src/components/DashboardMapFilters.tsx:189-197 | in a contiguous table an earlier range ends before a later one starts |
| `DashboardMapFilters.AtMostOneRange` | frontend/src/components/DashboardMapFilters.tsx:189-197 | a value lies in at most one range of a contiguous table |
| `DashboardMapFilters.CoveredOnce` | frontend/src/components/DashboardMapFilters.tsx:189-197 | a value between the first bound and the last lies in exactly one range |
| `DashboardMapFilters.InRangeExact` | frontend/src/components/DashboardMapFilters.tsx:189-197 | `inRange` with a known key is membership of that range; an unknown key lets everything through |
| `DashboardMapFilters.CheapProjectNoTicket` | frontend/src/components/DashboardMapFilters.tsx:168-173 | a project priced below 1000 UF matches no ticket range |
| `DashboardMapFilters.AbsorptionInOneRange` | frontend/src/components/DashboardMapFilters.tsx:175-180 | with sold at most total, absorption is in [0,100] and in exactly one range (also line 288) |
| `DashboardMapFilters.StalledProjectInNoMaoRange` | frontend/src/components/DashboardMapFilters.tsx:182-187 | with no sales speed the months of stock are `MAX_SAFE_INTEGER`, which lies in no range (also line 289) |
| `DashboardMapFilters.MaoInOneRange` | frontend/src/components/DashboardMapFilters.tsx:182-187 | with a positive sales speed, non-negative available units and a figure below `Number.MAX_SAFE_INTEGER`, the months of stock lie in exactly one range (also line 289) |
| `DashboardMapFilters.FilteredDefault` | frontend/src/components/DashboardMapFilters.tsx:74-88 | the default filters keep every project (also lines 270-304) |
| `DashboardMapFilters.FilteredExact` | frontend/src/components/DashboardMapFilters.tsx:270-304 | filtering keeps exactly the projects that pass every selected filter, with no duplicates added |
| `DashboardMapFilters.QuarterAsSemester` | frontend/src/components/DashboardMapFilters.tsx:99-104 | selecting a quarter is selecting its semester: q1,q2 are 1P and q3,q4 are 2P (also lines 276-279) |
| `DashboardMapFilters.UnknownQuarterKeepsNothing` | frontend/src/components/DashboardMapFilters.tsx:277-278 | an unknown quarter keeps no project |
| `DashboardMapFilters.YearFilterSelects` | frontend/src/components/DashboardMapFilters.tsx:272 | year `y` keeps exactly the projects of year `y` |
| `DashboardMapFilters.SubsidyTypesPartition` | frontend/src/components/DashboardMapFilters.tsx:297-298 | `sin_subsidio` and `con_subsidio` split the matching projects by `isSubsidized` |
| `DashboardMapFilters.UpdateOnlyKey` | frontend/src/components/DashboardMapFilters.tsx:393-399 | an update sets only its key, and a region update also resets the commune |
| `DashboardMapFilters.UpdateNarrows` | frontend/src/components/DashboardMapFilters.tsx:270-304 | setting a filter that was `all` can only narrow the result (also lines 393-399) |
| `DashboardMapFilters.PassesAll` | frontend/src/components/DashboardMapFilters.tsx:270-304 | every project passes a filter left at `all` |
| `DashboardMapFilters.ToFixed1Close` | frontend/src/components/DashboardMapFilters.tsx:323-327 | `Number(x.toFixed(1))` is within 0.05 of `x`, a whole number of tenths, negative exactly when `x <= -0.05` |
| `DashboardMapFilters.DeltaTypeMeaning` | frontend/src/components/DashboardMapFilters.tsx:326-328 | the delta is a decrease exactly when the analysed set is smaller than the whole by at least 0.05 percent |
| `DashboardMapFilters.DeltaSign` | frontend/src/components/DashboardMapFilters.tsx:327-328 | the rounded percentage is negative exactly when the shortfall is at least 0.0005 of the baseline |
| `DashboardMapFilters.AvgSalesSpeedClose` | frontend/src/components/DashboardMapFilters.tsx:321-324 | the average speed is within 0.05 of the mean speed |
| `DashboardMapFilters.RegionLabel` | frontend/src/components/DashboardMapFilters.tsx:344 | the region label is never empty (`Sin Región` by default) |
| `DashboardMapFilters.RegionChart` | frontend/src/components/DashboardMapFilters.tsx:340-363 | the `forEach` and `Map` loop computes the region rows |
| `DashboardMapFilters.RegionRowsPartition` | frontend/src/components/DashboardMapFilters.tsx:340-360 | the region rows count every project once and sum all stock |
| `DashboardMapFilters.RegionDataChosen` | frontend/src/components/DashboardMapFilters.tsx:362 | the chart holds the five regions with the most projects |
| `DashboardMapFilters.MixChart` | frontend/src/components/DashboardMapFilters.tsx:365-376 | the loop computes the product mix |
| `DashboardMapFilters.MixEntriesOfMap` | frontend/src/components/DashboardMapFilters.tsx:366-373 | the map's entries are given in first-appearance order with their counts |
| `DashboardMapFilters.MixPartition` | frontend/src/components/DashboardMapFilters.tsx:366-370 | the counts add up to the number of projects |
| `DashboardMapFilters.MixTableDistinct` | frontend/src/components/DashboardMapFilters.tsx:372-373 | each product type appears once |
| `DashboardMapFilters.MixDataChosen` | frontend/src/components/DashboardMapFilters.tsx:374-375 | the chart holds the six largest types |
| `DashboardMapFilters.TopCommunesChart` | frontend/src/components/DashboardMapFilters.tsx:422-432 | the loop computes the top communes |
| `DashboardMapFilters.CommuneEntriesOfMap` | frontend/src/components/DashboardMapFilters.tsx:423-429 | the map's entries are given in first-appearance order with their stock |
| `DashboardMapFilters.CommunePartition` | frontend/src/components/DashboardMapFilters.tsx:318 | the commune stocks add up to the KPI's total stock (also lines 423-427) |
| `DashboardMapFilters.TopCommunesChosen` | frontend/src/components/DashboardMapFilters.tsx:430-431 | the chart holds the five communes with the most stock |
| `DashboardMapFilters.PriceBucketsDisjoint` | frontend/src/components/DashboardMapFilters.tsx:378-383 | a project falls in at most one price bucket, and in none below 1000 UF |
| `DashboardMapFilters.PriceRangeRowsExact` | frontend/src/components/DashboardMapFilters.tsx:378-391 | one row per price range, labelled by it, holding exactly the projects priced in it |
| `DashboardMapFilters.FilterPanel.constructor` | frontend/src/components/DashboardMapFilters.tsx:211-214 | default filters, no viewport ids, viewport-only analysis |
| `DashboardMapFilters.FilterPanel.Filtered` | frontend/src/components/DashboardMapFilters.tsx:270-304 | the filtered projects for the current filters |
| `DashboardMapFilters.FilterPanel.MapProjects` | frontend/src/components/DashboardMapFilters.tsx:306 | the filtered projects with both coordinates truthy |
| `DashboardMapFilters.FilterPanel.MapScoped` | frontend/src/components/DashboardMapFilters.tsx:307-311 | all filtered projects, or those whose id is visible on the map |
| `DashboardMapFilters.FilterPanel.Analysis` | frontend/src/components/DashboardMapFilters.tsx:312-315 | the viewport-scoped projects when viewport-only is on, otherwise all filtered projects |
| `DashboardMapFilters.FilterPanel.UpdateFilter` | frontend/src/components/DashboardMapFilters.tsx:219-221 | the filters are updated, and the visible ids are cleared, so the scoped set is the filtered set again (also lines 393-399) |
| `DashboardMapFilters.FilterPanel.ResetFilters` | frontend/src/components/DashboardMapFilters.tsx:219-221 | the defaults keep every project; the ids are cleared unless the filters already were the default object (also line 401) |
| `DashboardMapFilters.FilterPanel.SetVisibleProjectIds` | frontend/src/components/DashboardMapFilters.tsx:213 | only the visible ids change (also lines 307-311) |
| `DashboardMapFilters.FilterPanel.SetUseViewportOnly` | frontend/src/components/DashboardMapFilters.tsx:214 | only the viewport flag changes (also lines 312-315) |
| `ProjectsTable.EmptySearchMatchesAll` | frontend/src/components/ProjectsTable.tsx:55-57 | the empty search matches any project with a name (`includes("")` holds) |
| `ProjectsTable.NoFiltersKeepAll` | frontend/src/components/ProjectsTable.tsx:54-65 | no search and every select at `all` keeps every project |
| `ProjectsTable.FilteredExact` | frontend/src/components/ProjectsTable.tsx:54-65 | a project is shown exactly when it matches the search in name, developer or commune and every select |
| `ProjectsTable.TotalPagesCeil` | frontend/src/components/ProjectsTable.tsx:73 | the page count is the ceiling of items over 50: zero only without items, enough pages for all, no page to spare |
| `ProjectsTable.PageSliceItems` | frontend/src/components/ProjectsTable.tsx:74-77 | a page holds at most 50 items, taken in order from offset `(page-1)*50`; full before the last page, non-empty up to it |
| `ProjectsTable.PagesCoverItems` | frontend/src/components/ProjectsTable.tsx:73-77 | the pages, concatenated, are all the items |
| `ProjectsTable.PagesPrefix` | frontend/src/components/ProjectsTable.tsx:73-77 | the first pages are a prefix of the items |
| `ProjectsTable.CountersMatchPage` | frontend/src/components/ProjectsTable.tsx:101-103 | "start to end" is within 1..n and counts exactly the items on the page |
| `ProjectsTable.CountersWhenEmpty` | frontend/src/components/ProjectsTable.tsx:101-103 | with no items both counters are 0 |
| `ProjectsTable.LexLePreorder` | frontend/src/components/ProjectsTable.tsx:48-51 | the comparison used by `sort()` is a total preorder |
| `ProjectsTable.OptionListExact` | frontend/src/components/ProjectsTable.tsx:48-51 | the options are sorted, without duplicates, and are exactly the non-empty values present (also line 132) |
| `ProjectsTable.PresentTextsExact` | frontend/src/components/ProjectsTable.tsx:48-51 | `filter(v => !!v)` keeps exactly the non-empty values |
| `ProjectsTable.StatusBadgeMeaning` | frontend/src/components/ProjectsTable.tsx:79-94 | a badge only for a present status; success, info and warning for EN VENTA, EN CONSTRUCCION and TERMINADO only; any other status is secondary |
| `ProjectsTable.TableState.constructor` | frontend/src/components/ProjectsTable.tsx:41-67 | empty search, every select at `all`, page 1, every project visible |
| `ProjectsTable.TableState.SetSearch` | frontend/src/components/ProjectsTable.tsx:115-118 | the search changes and the first page is shown |
| `ProjectsTable.TableState.SetSelect` | frontend/src/components/ProjectsTable.tsx:125-128 | only the chosen select changes and the first page is shown |
| `ProjectsTable.TableState.Previous` | frontend/src/components/ProjectsTable.tsx:200-201 | one page back, never below 1; disabled on page 1 |
| `ProjectsTable.TableState.Next` | frontend/src/components/ProjectsTable.tsx:211-212 | one page forward, never past the last page; disabled on or after it |
| `ProjectsTable.PageShownWhenAny` | frontend/src/components/ProjectsTable.tsx:73-77 | in a valid state the page on screen is empty exactly when nothing matches |
| `Analytics.AvgPriceMeaning` | frontend/src/app/dashboard/analytics/page.tsx:72-75 | 0 without priced projects; otherwise the price sum over the number of priced projects, between the least and the greatest price |
| `Analytics.AvgPriceM2Meaning` | frontend/src/app/dashboard/analytics/page.tsx:77-80 | the same for the price per m2 |
| `Analytics.SellThroughPercent` | frontend/src/app/dashboard/analytics/page.tsx:82 | with sold at most total the rate is in [0,100], and 0 when there are no units (also lines 254-256) |
| `Analytics.StatsRatePercent` | frontend/src/app/dashboard/analytics/page.tsx:67-92 | the same for the whole portfolio |
| `Analytics.OrNA` | frontend/src/app/dashboard/analytics/page.tsx:97 | the region label is never empty (`N/A` by default) |
| `Analytics.AddProjectsRow` | frontend/src/app/dashboard/analytics/page.tsx:98-111 | folding a region's projects into an empty row gives that region's counts and sums |
| `Analytics.GroupByRegion` | frontend/src/app/dashboard/analytics/page.tsx:95-112 | the `forEach` and `Map` loop computes the region table |
| `Analytics.RegionTableKeys` | frontend/src/app/dashboard/analytics/page.tsx:95-114 | one row per distinct region, in first-appearance order, summing that region's projects |
| `Analytics.RegionTableDistinct` | frontend/src/app/dashboard/analytics/page.tsx:95-114 | no region appears twice |
| `Analytics.RegionTableCovers` | frontend/src/app/dashboard/analytics/page.tsx:95-114 | every project's region has a row |
| `Analytics.RegionTableNonEmpty` | frontend/src/app/dashboard/analytics/page.tsx:98-108 | every row counts at least one project |
| `Analytics.RegionTablePartition` | frontend/src/app/dashboard/analytics/page.tsx:95-114 | the rows add up to the project count and to the portfolio's unit totals |
| `Analytics.TopRegionsChosen` | frontend/src/app/dashboard/analytics/page.tsx:114-116 | the table holds the eight regions with the most projects, taken from the rows |
| `Analytics.BandsPartition` | frontend/src/app/dashboard/analytics/page.tsx:121-134 | a non-negative price lies in exactly one price band, a negative one in none |
| `Analytics.MissingPriceFirstBand` | frontend/src/app/dashboard/analytics/page.tsx:132 | a project without a price counts in the first band (`< 1,000 UF`) |
| `Analytics.PercentageBounds` | frontend/src/app/dashboard/analytics/page.tsx:138 | each percentage is in [0,100] |
| `Analytics.DistributionListsBands` | frontend/src/app/dashboard/analytics/page.tsx:130-140 | the distribution lists exactly the bands with at least one project, with their counts |
| `Analytics.FetchDashboardData` | frontend/src/app/dashboard/analytics/page.tsx:57-143 | a failed fetch leaves the page empty; otherwise stats, top regions and distribution are those of the fetched projects |
| `Reports.SummaryAvgPrice` | frontend/src/app/dashboard/reports/page.tsx:61-64 | 0 without priced projects; otherwise the mean of the prices, between the least and the greatest |
| `Reports.EntryOrderPermutation` | frontend/src/app/dashboard/reports/page.tsx:72 | `Object.entries` lists every key of the counts object once |
| `Reports.EntryOrderIndicesFirst` | frontend/src/app/dashboard/reports/page.tsx:72 | `Object.entries` lists the integer-like keys first, by increasing value, then the other keys in insertion order |
| `Reports.KeyCountsEntries` | frontend/src/app/dashboard/reports/page.tsx:66-72 | one entry per distinct key, in `Object.entries` order, with that key's number of projects |
| `Reports.TopOfCounts` | frontend/src/app/dashboard/reports/page.tsx:72 | the first entry of the stable descending sort is the first of the largest counts |
| `Reports.TopKeyEmpty` | frontend/src/app/dashboard/reports/page.tsx:72-80 | without projects the top key is `N/A` |
| `Reports.TopKeyIndex` | frontend/src/app/dashboard/reports/page.tsx:66-72 | the top key has the most projects, and no key listed before it by `Object.entries` has as many |
| `Reports.TopKeyPrefersIndex` | frontend/src/app/dashboard/reports/page.tsx:66-72 | when an integer-like key ties for the most projects, the top key is an integer-like key no larger than it |
| `Reports.TopRegionOfTie` | frontend/src/app/dashboard/reports/page.tsx:66-72 | regions `RM`, `13`, `RM`, `13` give the top region `13`, though `RM` came first |
| `Reports.TopOfTwoKeys` | frontend/src/app/dashboard/reports/page.tsx:66-72 | with two keys tied for the most projects, the integer-like one is the top key |
| `Reports.TopKeyTop` | frontend/src/app/dashboard/reports/page.tsx:67-80 | the top key is a key of the projects, and no key has more projects |
| `Reports.SummaryTops` | frontend/src/app/dashboard/reports/page.tsx:66-80 | the summary's top region and top developer are the most frequent ones (`N/A` when there are no projects) |
| `Reports.TopProjectsChosen` | frontend/src/app/dashboard/reports/page.tsx:83-95 | at most ten rows, from projects with a speed, in descending speed, none slower than a project left out |
| `Reports.AddProjectsAcc` | frontend/src/app/dashboard/reports/page.tsx:99-112 | folding a region's projects gives their count, the sum and count of truthy prices, and the unit sums |
| `Reports.RegionalBreakdown` | frontend/src/app/dashboard/reports/page.tsx:98-121 | the `forEach` and `Map` loop, then the sort, computes the breakdown |
| `Reports.BreakdownEntry` | frontend/src/app/dashboard/reports/page.tsx:114-120 | each row is a region with at least one project, the mean of its truthy prices and its sell-through percentage |
| `Reports.BreakdownSorted` | frontend/src/app/dashboard/reports/page.tsx:121 | the rows are a permutation of the table, in descending project count |
| `Reports.GenerateReport` | frontend/src/app/dashboard/reports/page.tsx:44-137 | no report when the fetch fails; otherwise the generation time, the period `Actual`, the summary, the top projects and the breakdown |
| `Alerts.GenerateMarketAlerts` | frontend/src/lib/alerts.ts:14-69 | a failed query gives no alerts; otherwise the rules' alerts for the fetched projects |
| `Alerts.HighMaoRule` | frontend/src/lib/alerts.ts:26-36 | the first rule only raises the high months-of-stock alert |
| `Alerts.LowAbsorptionRule` | frontend/src/lib/alerts.ts:38-51 | the second rule only raises the low-absorption alert |
| `Alerts.StagnantRule` | frontend/src/lib/alerts.ts:53-66 | the third rule only raises the stagnation alert |
| `Alerts.RulesFire` | frontend/src/lib/alerts.ts:26-66 | high months-of-stock fires exactly when some project has more than 24 months; low absorption exactly when the portfolio's absorption is strictly between 0 and 5 percent; stagnation exactly when some project is stagnant; each alert counts what it reports |
| `Alerts.MarketAlertsMeaning` | frontend/src/lib/alerts.ts:22-68 | at most three alerts, in rule order, each present exactly when its rule fires |
| `Alerts.PushedInOrder` | frontend/src/lib/alerts.ts:28-66 | pushing the three optional alerts in turn keeps that order and loses none |
| `Alerts.NoStockNoAbsorptionAlert` | frontend/src/lib/alerts.ts:41-44 | without stock there is no absorption alert |
| `Alerts.StagnantIsSlowAndUnsold` | frontend/src/lib/alerts.ts:54-58 | the stagnation filter holds exactly for a project with units, more than 70 percent of them available, and under 0.5 sales a month |
| `Alerts.StagnantAlert` | frontend/src/lib/alerts.ts:53-66 | the stagnant-projects alert is raised exactly when some project has units, more than 70 percent of them available and under 0.5 sales a month, and it reports how many such projects there are |
| `MapboxMap.ReduceCovers` | frontend/src/components/MapboxMap.tsx:78-88 | the reduced box contains the initial box and every project |
| `MapboxMap.ReduceTight` | frontend/src/components/MapboxMap.tsx:78-88 | each side of the box is the initial side or some project's coordinate |
| `MapboxMap.ProjectBoundsTight` | frontend/src/components/MapboxMap.tsx:76-88 | the box seeded with the first project is the smallest box holding every project |
| `MapboxMap.FlyIffSinglePoint` | frontend/src/components/MapboxMap.tsx:76-110 | the map flies to a point at zoom 12 exactly when every project is at one point, and otherwise fits the projects' box |
| `MapboxMap.NoProjectsNoIds` | frontend/src/components/MapboxMap.tsx:113-115 | without projects a listener receives an empty id list, and nothing happens otherwise |
| `MapboxMap.AllVisibleAfterFit` | frontend/src/components/MapboxMap.tsx:62-98 | when the view contains the fitted box, every project's id is emitted, in order |
| `MapboxMap.VisibleIdsExact` | frontend/src/components/MapboxMap.tsx:62-64 | the emitted ids are exactly those of the projects inside the view |
| `MapboxMap.Find` | frontend/src/components/MapboxMap.tsx:121 | the index of the first project with the id, and nothing when no project has it |
| `MapboxMap.HighlightTarget` | frontend/src/components/MapboxMap.tsx:119-131 | a highlighted id moves the camera exactly when some project has it, flying to the first such project at zoom 15 |
| `MapboxMap.SellThroughBounds` | frontend/src/components/MapboxMap.tsx:139-142 | with sold at most total the rounded rate is in [0,100]; the table's rate is the same function |
| `MapboxMap.ToneMonotone` | frontend/src/components/MapboxMap.tsx:144-150 | a higher rate never gives a lighter tone; the thresholds are 80, 50 and 20 |
| `MapboxMap.NoFiguresLightest` | frontend/src/components/MapboxMap.tsx:140-149 | a project without sold or total units gets the lightest tone |
| `GeocodeProjects.AddressParts` | backend/app/etl/geocode_projects.py:154-170 | one to four parts, the last `Chile`, every other one a stripped non-empty piece |
| `GeocodeProjects.StrippedParts` | backend/app/etl/geocode_projects.py:156-168 | the address and the commune are included exactly when given, the region when given and not `RM`, in that order |
| `GeocodeProjects.SplitOnJoin` | backend/app/etl/geocode_projects.py:170 | joining comma-free parts with `", "` and splitting again gives the parts back |
| `GeocodeProjects.BuildAddressParts` | backend/app/etl/geocode_projects.py:154-170 | the built address splits back into its parts |
| `GeocodeProjects.AddressPartsGiven` | backend/app/etl/geocode_projects.py:158-162 | the stripped address and commune are in the parts exactly when they are not blank |
| `GeocodeProjects.AddressPartsRegion` | backend/app/etl/geocode_projects.py:164-166 | a region other than `RM` is included; with `RM` there are at most three parts |
| `GeocodeProjects.CacheKeyIgnoresCase` | backend/app/etl/geocode_projects.py:78-81 | the cache key does not depend on letter case |
| `GeocodeProjects.CanonicalKey` | backend/app/etl/geocode_projects.py:80 | for lower-case, stripped, bar-free components the key is `address\|commune\|region` |
| `GeocodeProjects.CacheKeyInjective` | backend/app/etl/geocode_projects.py:78-81 | such components have distinct keys unless they are equal (the MD5 step is left out) |
| `GeocodeProjects.LookupAfterStore` | backend/app/etl/geocode_projects.py:83-95 | after a store the same address, in any case, finds the stored coordinates; other keys are unaffected |
| `GeocodeProjects.GeocodingCache.constructor` | backend/app/etl/geocode_projects.py:58-60 | the cache starts with the loaded entries |
| `GeocodeProjects.GeocodingCache.Get` | backend/app/etl/geocode_projects.py:83-89 | the coordinates stored under the address's key, if any |
| `GeocodeProjects.GeocodingCache.Set` | backend/app/etl/geocode_projects.py:91-95 | the entries after the store |
| `GeocodeProjects.GeocodingService.constructor` | backend/app/etl/geocode_projects.py:100-118 | the cache and providers are kept and all four counters are 0 |
| `GeocodeProjects.GeocodingService.Geocode` | backend/app/etl/geocode_projects.py:120-152 | the answer, the counters and the cache are those of the resolution: cache, then Nominatim, then Google if configured |
| `GeocodeProjects.GeocodingService.LookupProviders` | backend/app/etl/geocode_projects.py:133-152 | on a cache miss, the provider cascade gives the same |
| `GeocodeProjects.CacheHitCallsNoProvider` | backend/app/etl/geocode_projects.py:127-131 | a cached address is answered from the cache whatever the providers would say |
| `GeocodeProjects.GoogleIsFallback` | backend/app/etl/geocode_projects.py:143-149 | Google answers exactly when the cache misses, Nominatim finds nothing, Google is configured and finds the address; without a key Google is never consulted |
| `GeocodeProjects.GeocodeFindsIff` | backend/app/etl/geocode_projects.py:120-152 | coordinates are found exactly when the cache or one of the providers has them |
| `GeocodeProjects.CountedOnce` | backend/app/etl/geocode_projects.py:130-151 | each call adds exactly one to the counters' total, and a failure exactly when nothing is found |
| `GeocodeProjects.FoundIsRemembered` | backend/app/etl/geocode_projects.py:140-148 | found coordinates are cached, so the next call for that address is a cache hit; a failure caches nothing |
| `GeocodeProjects.HitIgnoresCase` | backend/app/etl/geocode_projects.py:78-89 | the same address in lower case is also a hit (also lines 127-131) |
| `GeocodeProjects.SuccessRate` | backend/app/etl/geocode_projects.py:211-225 | no rate without calls; otherwise in [0,100], 100 exactly without failures and 0 exactly when every call failed |
| `GeocodeProjects.ApplyFound` | backend/app/etl/geocode_projects.py:291-302 | a found project increments the geocoded count and queues its update |
| `GeocodeProjects.ApplyNotFound` | backend/app/etl/geocode_projects.py:316-318 | a miss increments the failed count |
| `GeocodeProjects.StepAttempted` | backend/app/etl/geocode_projects.py:288-318 | a project with an address or commune is geocoded and the result applied |
| `GeocodeProjects.StepSkipped` | backend/app/etl/geocode_projects.py:282-286 | a project without an address or commune is counted as failed, and nothing else changes |
| `GeocodeProjects.RunTallies` | backend/app/etl/geocode_projects.py:271-318 | every project ends geocoded or failed; one update per geocoded project, in order; one call per attempted project |
| `GeocodeProjects.FoundFromRow` | backend/app/etl/geocode_projects.py:291-302 | every queued update comes from an attempted project and carries the coordinates its call returned |
| `GeocodeProjects.EffectiveDryRun` | backend/app/etl/geocode_projects.py:355-356 | the run writes only when a limit was given and `--dry-run` was not |
| `GeocodeProjects.Requested` | backend/app/etl/geocode_projects.py:227-238 | without a positive limit every project without coordinates is fetched; otherwise at most the limit |
| `GeocodeProjects.RealRunNeedsLimit` | backend/app/etl/geocode_projects.py:234-235 | a real run always has a limit, which restricts the fetch only when positive and smaller than the backlog (also lines 355-356) |
| `GeocodeProjects.GeocodeRow` | backend/app/etl/geocode_projects.py:289 | the service call for one row updates the cache and counters as the model's step says |
| `GeocodeProjects.DeliveredSnoc` | backend/app/etl/geocode_projects.py:305-315 | a send adds its writes to the delivered ones exactly when it goes through |
| `GeocodeProjects.LoopSendsSnoc` | backend/app/etl/geocode_projects.py:305-315 | a send in the loop holds 50 writes after a send that went through, and repeats a failed batch with one more write otherwise |
| `GeocodeProjects.Enqueue` | backend/app/etl/geocode_projects.py:297-315 | a queued write stays in the pending batch or completes it; a full batch is sent, and cleared only when the send goes through, so a failed batch is resent one write longer; no write is delivered twice or skipped |
| `GeocodeProjects.FullLength` | backend/app/etl/geocode_projects.py:305-315 | when every send goes through, the batches sent inside the loop hold exactly 50 writes each |
| `GeocodeProjects.Flush` | backend/app/etl/geocode_projects.py:320-330 | whatever is waiting is sent at the end; if that send fails its writes are lost; when every send went through, the batches hold 50 writes each but the last, which holds 1 to 50 |
| `GeocodeProjects.FlushShape` | backend/app/etl/geocode_projects.py:305-330 | a failed send is sent again at the head of the next one, and the lost writes are those of a failed last send |
| `GeocodeProjects.ProcessRow` | backend/app/etl/geocode_projects.py:275-318 | one iteration of the loop follows the model's step |
| `GeocodeProjects.GeocodeRows` | backend/app/etl/geocode_projects.py:271-318 | the loop follows the model's run; the delivered writes and the pending batch are the found writes, in order |
| `GeocodeProjects.RunGeocoding` | backend/app/etl/geocode_projects.py:240-343 | a preview does nothing; otherwise the counts are the run's; outside a dry run the writes of the sends that went through, then those lost with a failed final send, are the found writes in order; a failed batch is resent; with every send through, nothing is lost and the batches hold 50 writes each and a last smaller one |
| `TtlCache.SimpleCache.constructor` | backend/app/utils/cache.py:5-7 | an empty cache with the given time to live |
| `TtlCache.SimpleCache.Get` | backend/app/utils/cache.py:9-16 | a value is returned exactly when its key was stored less than the time to live ago; an expired entry is deleted, and nothing else changes |
| `TtlCache.SimpleCache.Set` | backend/app/utils/cache.py:18-19 | the key now holds the value, stamped with the current time |
| `TtlCache.SimpleCache.Clear` | backend/app/utils/cache.py:21-22 | the cache is empty |
| `TtlCache.NewStatsCache` | backend/app/utils/cache.py:25 | a fresh empty cache living 600 seconds |
| `TtlCache.NewProjectsCache` | backend/app/utils/cache.py:26 | a fresh empty cache living 300 seconds |
| `TtlCache.ReadYourWrite` | backend/app/utils/cache.py:9-19 | a value just set is read back until its time to live runs out |
| `TtlCache.WriteOtherKey` | backend/app/utils/cache.py:9-19 | setting one key does not change what another key reads |
| `TtlCache.LookupIdempotent` | backend/app/utils/cache.py:9-16 | reading twice at the same moment gives the same answer and state as reading once |
| `TtlCache.LookupKeepsOthers` | backend/app/utils/cache.py:10-15 | a read deletes at most its own key |
| `TtlCache.ExpiredStaysExpired` | backend/app/utils/cache.py:12-15 | an expired key stays expired later |
| `AdminRouter.Deactivated` | backend/app/brain/admin_router.py:84-86 | every prompt keeps all its fields but `is_active`, which becomes false |
| `AdminRouter.ActivatedOnly` | backend/app/brain/admin_router.py:125-126 | every prompt keeps all its fields, and is active exactly when its id is the given one |
| `AdminRouter.CreatedKeepsOneActive` | backend/app/brain/admin_router.py:84-95 | creating a prompt keeps at most one prompt active, and an active new prompt is then the only active one |
| `AdminRouter.CreatedKeepsOthers` | backend/app/brain/admin_router.py:84-95 | creation appends exactly the new record and changes no earlier prompt except for clearing `is_active` when the new one is active; a fresh id keeps the ids distinct |
| `AdminRouter.ActivatedOnlyOne` | backend/app/brain/admin_router.py:125-131 | with distinct ids, after activation at most one prompt is active, one is active exactly when the id exists, and the answer holds that one prompt or none |
| `AdminRouter.OneWithId` | backend/app/brain/admin_router.py:131 | with distinct ids, selecting by an existing id answers exactly that prompt |
| `AdminRouter.FilePrompts` | backend/app/brain/admin_router.py:41-50 | a missing file, an unreadable one or a `null` timestamp that the sort must compare answer `[]`; otherwise the answer is a permutation of the stored prompts |
| `AdminRouter.NewerFirstPreorder` | backend/app/brain/admin_router.py:48 | the reversed `created_at` comparison is a total preorder, so the sort is well defined |
| `AdminRouter.FilePromptsNewestFirst` | backend/app/brain/admin_router.py:48 | the listed prompts are ordered newest first, a missing timestamp counting as the empty text |
| `AdminRouter.FilePromptsStable` | backend/app/brain/admin_router.py:48 | prompts with the same timestamp keep their file order |
| `AdminRouter.PromptsFile.constructor` | backend/app/brain/admin_router.py:16 | a handle on the prompts file in the given state |
| `AdminRouter.PromptsFile.Create` | backend/app/brain/admin_router.py:77-100 | an unreadable file fails with nothing written; otherwise the stored list (or `[]`) is deactivated when the new prompt is active, the new record is appended and written, and that record is the answer |
| `AdminRouter.PromptsFile.Activate` | backend/app/brain/admin_router.py:118-131 | a missing file answers 404 "No prompts found"; otherwise every prompt is active exactly when it has the id, and the prompts with the id are the answer |
| `AdminRouter.ActiveIds` | backend/app/brain/admin_router.py:61 | exactly the ids of the active rows (also line 110) |
| `AdminRouter.ClearedFor` | backend/app/brain/admin_router.py:62-63 | a row is deactivated exactly when it was active and its id is among those selected; nothing else changes (also lines 111-112) |
| `AdminRouter.PromptTable.constructor` | backend/app/brain/admin_router.py:18-24 | a table holding the given rows |
| `AdminRouter.PromptTable.SetActive` | backend/app/brain/admin_router.py:63 | only the rows with the id change, and only in `is_active`; those rows are the answer (also line 115) |
| `AdminRouter.PromptTable.DeactivateAll` | backend/app/brain/admin_router.py:61-63 | updating each selected active id deactivates every row and changes nothing else (also lines 110-112) |
| `AdminRouter.PromptTable.Create` | backend/app/brain/admin_router.py:56-75 | a successful insert appends the new row after the deactivation and answers it; a failed one answers 500 "Failed to insert prompt", the deactivation already done |
| `AdminRouter.PromptTable.Activate` | backend/app/brain/admin_router.py:106-116 | every row is active exactly when it has the id; the rows with the id are the answer |
| `AdminRouter.CreatePrompt` | backend/app/brain/admin_router.py:53-100 | the table is used when it exists and the file otherwise, the other storage left alone; an accepted insert answers the new record with its id and timestamp, an insert that returns no row answers 500 "Failed to insert prompt" after the deactivation, and an unreadable file answers an internal error with nothing written; otherwise the file gains the new record |
| `AdminRouter.ActivatePrompt` | backend/app/brain/admin_router.py:104-131 | the table is used when it exists and the file otherwise, the other storage left alone; in both, activation leaves exactly the prompts with the id active and answers them; a missing file answers 404 and an unreadable one an internal error, neither writing anything |
| `KnowledgeFileParser.TextExtensionsSupported` | frontend/src/lib/knowledge-file-parser.ts:3-17 | every extension read as text is also an extractable one |
| `KnowledgeFileParser.NoDotNoExtension` | frontend/src/lib/knowledge-file-parser.ts:29-32 | a name without a dot has the empty extension |
| `KnowledgeFileParser.ExtensionAfterLastDot` | frontend/src/lib/knowledge-file-parser.ts:29-32 | the extension is the lower-cased text after the last dot, and holds no dot |
| `KnowledgeFileParser.NoAmpersandUnchanged` | frontend/src/lib/knowledge-file-parser.ts:38-45 | text without an ampersand passes the decoder as written unchanged |
| `KnowledgeFileParser.DoubleUnescape` | frontend/src/lib/knowledge-file-parser.ts:38-45 | the stored form `&amp;lt;` of the slide text `&lt;` is decoded as written to `<` |
| `KnowledgeFileParser.DecodeEscape` | frontend/src/lib/knowledge-file-parser.ts:38-45 | the one-pass decoder inverts XML escaping for every text |
| `KnowledgeFileParser.SingleUnescape` | frontend/src/lib/knowledge-file-parser.ts:38-45 | the one-pass decoder gives back the slide text `&lt;` |
| `KnowledgeFileParser.DecodeNoAmpersand` | frontend/src/lib/knowledge-file-parser.ts:38-45 | text without an ampersand passes the one-pass decoder unchanged, as it does the one as written |
| `KnowledgeFileParser.SlideTextSkipsBlank` | frontend/src/lib/knowledge-file-parser.ts:112-118 | a fragment that is blank once decoded and trimmed adds no line to the slide, wherever it stands |
| `KnowledgeFileParser.SlideTextPlain` | frontend/src/lib/knowledge-file-parser.ts:112-118 | fragments without entities or outer spaces are the slide's lines as they are, in order, joined by line breaks |
| `KnowledgeFileParser.UnsupportedBeforeRead` | frontend/src/lib/knowledge-file-parser.ts:125-129 | an unsupported extension is refused with 400 and the long "Formato no soportado" message, whatever the file holds |
| `KnowledgeFileParser.TextFilesVerbatim` | frontend/src/lib/knowledge-file-parser.ts:131-139 | a text file comes back as its UTF-8 text, typed by its extension |
| `KnowledgeFileParser.DispatchComplete` | frontend/src/lib/knowledge-file-parser.ts:125-180 | a success has a supported extension and the file type of that extension; the final "Formato no soportado." is never reached |
| `MarkdownRenderer.CloseFrom` | frontend/src/components/shared/MarkdownRenderer.tsx:52 | the lazy `.*?\*\*` ends just after the first `**` reached without crossing a line terminator |
| `MarkdownRenderer.BoldSplitConcat` | frontend/src/components/shared/MarkdownRenderer.tsx:52 | the split by `(\*\*.*?\*\*)` loses nothing: its parts put together are the text, and there is an odd number of them |
| `MarkdownRenderer.BoldSplitMatches` | frontend/src/components/shared/MarkdownRenderer.tsx:52-62 | every captured part is a `**...**` match and is rendered as its inner text in bold |
| `MarkdownRenderer.RenderParagraphs` | frontend/src/components/shared/MarkdownRenderer.tsx:5-13 | empty content renders nothing; otherwise one block per paragraph, the paragraphs joined by blank lines being the content |
| `MarkdownRenderer.BlockKinds` | frontend/src/components/shared/MarkdownRenderer.tsx:14-41 | a paragraph is a header exactly when its trimmed text starts with `### `, a list exactly when it is no header and starts with a bullet, and a plain paragraph otherwise |
| `MarkdownRenderer.HeaderBlock` | frontend/src/components/shared/MarkdownRenderer.tsx:14-19 | a trimmed paragraph starting with `### ` becomes a header of the text after it |
| `MarkdownRenderer.ListBlock` | frontend/src/components/shared/MarkdownRenderer.tsx:21-34 | a trimmed paragraph starting with a bullet becomes one item per non-blank line, in order, none spanning two lines |
| `MarkdownRenderer.ParagraphBlock` | frontend/src/components/shared/MarkdownRenderer.tsx:36-41 | any other paragraph is rendered untrimmed |
| `MarkdownRenderer.DropMarkerPrefix` | frontend/src/components/shared/MarkdownRenderer.tsx:29 | an item loses at most its leading `- ` or `* ` |
| `Storage.KeyOf` | backend/app/etl/tinsa_importer.py:440-443 | a record has a conflict key exactly when none of the key columns is NULL, and then one value per key column |
| `Storage.UpsertOne` | frontend/src/app/api/admin/import-tinsa/route.ts:199-212 | one upsert keeps every row stored under its key, and answers a row carrying every column of the record; a record whose key is already stored overwrites that row and keeps its id |
| `Storage.UpsertAll` | backend/app/etl/tinsa_importer.py:440-447 | a batch upsert answers one row per record, with the record's key, each stored under that key, and every earlier key stays stored |
| `Storage.InsertAll` | backend/app/etl/tinsa_importer.py:499 | an insert appends the records in order with fresh ids and changes no earlier row |
| `Storage.UpdateAll` | frontend/src/app/api/admin/import-tinsa/route.ts:146-157 | an update by id merges the columns into the rows with that id and changes no other row |
| `Storage.Table.constructor` | backend/app/etl/tinsa_importer.py:440 | an empty table with the given schema check |
| `Storage.Table.Upsert` | backend/app/etl/tinsa_importer.py:440-443 | the statement succeeds exactly when every record passes the schema and no two share a conflict key; then the table is the upsert of the batch, otherwise unchanged |
| `Storage.Table.Insert` | backend/app/etl/tinsa_importer.py:499 | the statement succeeds exactly when every record passes the schema; then the records are appended, otherwise nothing changes |
| `Storage.Table.DeleteIn` | backend/app/etl/tinsa_importer.py:491 | the delete succeeds exactly when the server permits it; then exactly the rows whose column value is outside the list remain, in order, otherwise nothing changes |
| `Storage.Table.UpdateById` | frontend/src/app/api/admin/import-tinsa/route.ts:146-157 | the update succeeds exactly when the columns pass the schema; then the rows with the id are merged, otherwise nothing changes |
| `Storage.SelectOne` | frontend/src/app/api/admin/import-tinsa/route.ts:134-139 | `single()` answers a row exactly when one row matches the conditions, and that row matches |

## Left out

- Reading files: CSV reading, encoding and delimiter detection, the previews (`read_tinsa_csv`, `preview_csv`, `preview_file`), the command-line `main` functions and every `print` are I/O and are not modelled. A file is the rows or text it holds.
- The Supabase client (`get_supabase_client`): each table is the `Storage.Table` class. Only the semantics of `upsert`, `insert`, `delete ... in_`, `update ... eq` and `select ... single()` that the core relies on are modelled. The database's error messages are not.
- `check_table_exists` is the parameter `tableExists`, because it is only a probe query that either succeeds or raises.
- The database branch of `get_prompts` (backend/app/brain/admin_router.py:38-40) is not modelled: the ordering is done by the database.
- The knowledge endpoints of the admin router (`get_knowledge`, `add_knowledge`, `delete_knowledge`, `upload_knowledge_file`) call the vector store, which is not part of this model.
- Loading and saving the JSON files of prompts and of the geocoding cache: each file is the value it holds (`FileState`, a map).
- `requireAdmin` and the `GET` handler of the import route, which only answers fixed instructions: authentication and constant output.
- Floating point: numbers are exact reals. NaN appears only where the source tests for it (pandas' missing cells). Overflow and precision are not modelled.
- Rounding to a number of decimals (`round(x, 6)`, `round(x, 2)`, `toFixed`, `toLocaleString`): the model keeps the exact value.
- Python's `str()` of a float is not modelled: a number read by the first-generation importer carries its text.
- Unicode: `lower()`, `upper()` and `toLowerCase()` are modelled on ASCII letters only, and leave every other character as it is. NFD decomposition is a fixed table for the Spanish accented letters. `localeCompare('es-CL')` is a fixed total order on characters. `strip()` and `trim()` drop ASCII whitespace only. Python's `\d` also matches non-ASCII decimal digits (Arabic-Indic, Devanagari and others), but `AllDigits` accepts the ASCII digits only, so a cell written in other digits is read as missing where the source reads it.
- The md5 in the geocoding cache key is left out: the key is the text md5 is applied to, and md5 is treated as injective.
- Nominatim, Google Maps and `time.sleep`: each provider is a parameter, namely the answer it gives for an address. Rate limiting is left out.
- `uuid.uuid4()`, `datetime.now()`, `new Date()` and `time.time()` are parameters.
- The library extractors of the knowledge-file parser (PDF, DOCX, spreadsheets, PPTX, the legacy binary scan) are a parameter: what each returns for the file.
- The debounced AI-analysis request of the map filters, the map's timers and camera animations, and React rendering are asynchronous or visual and are not modelled. The markdown renderer's output is modelled as the blocks and spans it displays.
- Exceptions are modelled where the source catches them or where they decide the answer. A failed statement is an outcome that leaves the table unchanged: upserts and inserts fail on the schema (`accepts`) and deletes on `permitsDelete`. Whether a geocoding send goes through is the parameter `sendOk`. The `get_prompts` fallback and the 500 answers of the admin router are modelled too. Any other exception is outside the model.
- GeocodeProjects.RunGeocoding: a failed send is treated as a whole. In the source a send is one `update` per write, so a failure part-way leaves the writes before it stored. The model does not say which writes of a failed send were stored. They are all sent again, except after a failed final send.
- PyFloat: Python's `float()` also accepts `inf`, `-Infinity`, `nan` and `NAN` in any case, and digits grouped with underscores such as `1_000`. The model returns `None` for these. So `TinsaParsers.ParseChileanNumber`, `ImportTinsa.CleanNumeric`, `ImportTinsa.CleanAxis` and the other callers read such a cell as missing, where the source gets an infinity, a NaN or the grouped number.
- JsParseFloat: JavaScript's `parseFloat` also reads `"Infinity"` and `"-Infinity"`, and `Number` (`JsNumber`) also reads hexadecimal text such as `"0x1A"`, `"Infinity"` and `"-Infinity"`. The model returns `None` (NaN) for these. So `ImportRoute.ParseChileanNumber` reads such a cell as 0, and `DashboardMapFilters.YearIs` matches no project for such a selected year, where the source gets an infinity or the hexadecimal value.
- Reports.KeyCounts: a region or developer named `__proto__` would set the prototype of the counting object instead of adding a key. This is not modelled.

## Findings

| source | as written | input that shows it | evidently intended | confidence | as-written member | corrected member |
|---|---|---|---|---|---|---|
| backend/app/etl/tinsa_importer.py:272-279 | the latest rows are those equal to the first row's `_year` and `PERIODO`, compared with pandas `==` | a group whose first row has a missing `PERIODO`: pandas' NaN equals nothing, so no row is kept and `latest_rows.iloc[0]` raises `IndexError`, ending the import | the first row is always among the latest rows | not executed; high if the column can be empty | `TinsaTransform.LatestRowsAsWrittenNaN` | `TinsaTransform.LatestRowsHead` |
| backend/app/etl/tinsa_importer.py:256 | the guard tests the stripped label, but the digit is read from the unstripped one: `int(str(x)[0])` | `" 2P"`: the guard passes, and `int(" ")` raises `ValueError` | the leading digit of the stripped label, 2 | not executed; medium, because labels rarely have leading spaces | `TinsaTransform.PeriodRankLeadingSpace` | `TinsaTransform.PeriodRank` |
| backend/app/etl/import_tinsa.py:157 | `str(row.get('PROYECTO', 'Sin nombre')).strip()` | a row whose `PROYECTO` is NaN gets the name `"nan"`, passes the name check at line 248 and is upserted | a missing name is treated as the commune is (line 159), so the row is skipped | not executed; high | `ImportTinsa.NameOfNaNAsWritten` | `ImportTinsa.NaNNameSkipped` |
| frontend/src/lib/knowledge-file-parser.ts:38-45 | `&amp;` is replaced first, so its result is decoded again by the later replacements | the slide text `&lt;` is stored as `&amp;lt;`, and is decoded to `<` | a single pass that decodes each entity once, inverting XML escaping | not executed; high | `KnowledgeFileParser.DoubleUnescape` | `KnowledgeFileParser.DecodeEscape` |
| backend/app/etl/tinsa_importer.py:129-130 | `f"{year}-{month_num:02d}-01"` prints the year without padding | `"0099 enero"` gives `"99-01-01"`, which is not `YYYY-MM-DD` | a four-digit year, `"0099-01-01"`, like every other result of `parse_date` | not executed; low, because such years do not occur in the data | `TinsaParsers.UnpaddedAsWritten` | `TinsaParsers.MonthNameDate` |
