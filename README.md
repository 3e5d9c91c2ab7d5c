# Forecast ingestion and snapshot store of the lecture-6 weather backend

The lecture-6 weather backend fetches a JMA forecast feed for an area. The call
`parse_and_save_forecast` decodes that feed into a response: today's record,
tomorrow's record, a weekly list, the report time and the area name. While it
decodes, it writes today's record and every weekly record into a SQLite store.
That store has three tables:

- `areas`, keyed by `area_code`, written by upsert;
- `forecasts` and `weekly_forecasts`, both append-only, each with an
  AUTOINCREMENT id and `UNIQUE(area_code, forecast_date, fetched_at)`.

Read queries pick the latest row, the latest weekly snapshot, the list of fetch
times and one historical snapshot.

This project models both halves in Dafny:

- `wrappers.dfy`: `Option` and `Result`.
- `collation.dfy`: SQLite's BINARY collation on TEXT. It is lexicographic order
  over code points, proved to be a total order. The model compares codes,
  dates and timestamps with it.
- `query.dfy`: the SQL building blocks the queries use.
  - `WHERE` is `Where`, `ORDER BY` is `SortBy` (or `Ascending` over a key set),
    and `LIMIT` is `Limit` or `Top`, where a negative limit means no limit.
  - `DISTINCT` is `Uniq` and `MAX` is `MaxKey`.
  - Each comes with the order, multiset and membership facts the queries need.
- `numbers.dfy`: the `int()` the ingestion applies to precipitation strings,
  and the `str()` it applies to an int.
- `store.dfy`: `database.py`, where the class `Database` holds the three tables.
  - `areas` is a `map` from code to row. `forecasts` and `weekly` are `seq`s of
    rows.
  - Each writer is a method that changes only its own table. An Err is the
    `sqlite3.IntegrityError` that the UNIQUE key raises.
  - Each query is a function of the tables.
  - `Valid` is the tables' constraints: ids 1, 2, … and the UNIQUE keys.
- `ingest.dfy`: `parse_and_save_forecast`.
  - The feed is a `seq<Block>`, where a missing key reads as its `.get` default.
  - `Ingest` is the specification of one call: the value it returns, or the
    exception it raises, together with both forecast tables afterwards.
  - `ParseAndSaveForecast` performs the call against a `Database`, saving as it
    decodes, with the weekly loop as a `while` loop. Its postcondition says it
    agrees with `Ingest`.
  - Lemmas state what `Ingest` promises.

**Time.** The source reads the clock with `datetime.now()` inside every save
call, so `fetched_at` is a property of each row. The model passes the clock in
as a function `clock: nat -> string`, where `clock(k)` is the time the call's
k-th save reads:

- today's row is stamped `clock(0)`;
- weekly row i is stamped `clock(base + i)`, where `base` is 1 when today was
  saved and 0 otherwise.

No property assumes that the readings differ. The stamp counts whole
seconds, so the saves of one call usually share it; what keeps their
UNIQUE keys apart is the date.

`save_areas_batch` stamps its k-th entry `clock(k)`.

The model follows the code as written:

- On an empty feed, `report_datetime` and `area_name` are `None`.
- `fetched_at` is read once per save call, so the rows of one ingestion call
  may carry different stamps.
- `int()` on a precipitation string it cannot parse raises. The exception
  escapes `parse_and_save_forecast` (the route turns it into a 500). Earlier
  saves stay committed.
- A UNIQUE clash raises as well. The rows written before it stay, and the call
  returns nothing.
- Tomorrow's record is built but never saved.
- `get_latest_weekly_forecast` returns `[]` when `MAX(fetched_at)` is NULL or
  `''`, i.e. when every weekly row of the area has an empty `fetched_at`, which
  covers an area with no rows at all.
- The comment at `database.py:136` describes deleting older same-day
  forecasts. `save_forecast` deletes nothing, and the model does not either.

## Model

| member | source | states |
|---|---|---|
| Store.Upsert | lecture-6/weather/database.py:95-104 | INSERT OR REPLACE: the code is present afterwards, with the new name and created_at and updated_at both reset to the time; every other code keeps its row; no code appears or disappears otherwise |
| Store.UpsertAll | lecture-6/weather/database.py:107-116 | definition: executemany as save_area on each of the first n entries in order, entry k stamped clock(k); what it leaves is stated by UpsertAllKeys and UpsertAllLastWins |
| Store.UpsertAllKeys | lecture-6/weather/database.py:111-114 | a batch upsert adds exactly the codes its entries carry and removes none |
| Store.LastIndex | lecture-6/weather/database.py:111-114 | the position of the last batch entry carrying a code, or none: no later entry carries it |
| Store.UpsertAllLastWins | lecture-6/weather/database.py:107-116 | a batch upsert is last-write-wins: a code the batch mentions holds the row of its last entry, stamped at that entry; a code it does not mention keeps its row or stays absent |
| Store.InsertForecast | lecture-6/weather/database.py:63 | INSERT INTO forecasts fails exactly when the (area_code, forecast_date, fetched_at) key is taken, naming that key; otherwise it appends exactly the given row with the next id and keeps the table's constraints |
| Store.InsertWeekly | lecture-6/weather/database.py:81 | the same for weekly_forecasts and its UNIQUE key |
| Store.HasForecastKey | lecture-6/weather/database.py:63 | definition: some row already holds the (area_code, forecast_date, fetched_at) key |
| Store.HasWeeklyKey | lecture-6/weather/database.py:81 | definition: the same for weekly_forecasts |
| Store.ForecastTableOk | lecture-6/weather/database.py:49-65 | definition of the forecasts constraints: AUTOINCREMENT ids 1, 2, … in insertion order and no two rows with the same UNIQUE key |
| Store.WeeklyTableOk | lecture-6/weather/database.py:69-83 | definition: the same constraints for weekly_forecasts |
| Store.ForecastRowsDistinct | lecture-6/weather/database.py:51 | under the constraints no row occurs twice in forecasts (the ids differ) |
| Store.WeeklyRowsDistinct | lecture-6/weather/database.py:71 | the same for weekly_forecasts |
| Store.ForecastKeyDetermines | lecture-6/weather/database.py:63 | under the table's constraints two rows with the same key are the same row |
| Store.WeeklyKeyDetermines | lecture-6/weather/database.py:81 | the same for weekly_forecasts |
| Store.ForecastsOf | lecture-6/weather/database.py:182 | WHERE area_code = ?: exactly the area's rows, each as often as in the table |
| Store.HasForecastKeyPrefix | lecture-6/weather/database.py:175 | definition: some row is for the area and the date |
| Store.DateGiven | lecture-6/weather/database.py:172 | definition: Python truthiness of the optional date, present and not '' |
| Store.FetchedStamps | lecture-6/weather/database.py:223 | definition of SELECT fetched_at: one stamp per row, in the rows' order; what the history query makes of it is stated by ForecastHistory |
| Store.Listing | lecture-6/weather/database.py:123-126 | definition of SELECT area_code, area_name over a list of codes: one summary per code, in that order; stated by ListingCovers and AllAreas |
| Store.ListingCovers | lecture-6/weather/database.py:123 | listing every code of the table lists every area with its name |
| Store.SnapshotSortedStrictly | lecture-6/weather/database.py:239-243 | rows of one (area, fetched_at) snapshot sorted by forecast_date are strictly ascending, because the UNIQUE key leaves each date at most once |
| Store.WeeklySnapshotSortedStrictly | lecture-6/weather/database.py:204-208 | the same for a weekly snapshot sorted by forecast_date |
| Store.SnapshotFacts | lecture-6/weather/database.py:239-243 | the rows of one (area, fetched_at) snapshot sorted by date have no repeated date when the table keeps its UNIQUE key |
| Store.StrictLimit | lecture-6/weather/database.py:222-227 | a strictly descending list cut by LIMIT: a value left out is older than every value kept, and then the limit was reached |
| Store.Database.constructor | lecture-6/weather/database.py:30-92 | the tables start empty and satisfy their constraints |
| Store.Database.Valid | lecture-6/weather/database.py:49-83 | definition: both forecast tables keep their constraints (foreign keys are not enforced) |
| Store.Database.SaveArea | lecture-6/weather/database.py:95-104 | areas becomes Upsert of the old areas; both forecast tables are unchanged |
| Store.Database.SaveAreasBatch | lecture-6/weather/database.py:107-116 | executemany: areas becomes the old areas upserted entry by entry in order, the same as one save_area per entry; forecast tables unchanged |
| Store.Database.AllAreas | lecture-6/weather/database.py:119-126 | every area exactly once, with its name, strictly ascending by area_code, and nothing else |
| Store.Database.SaveForecast | lecture-6/weather/database.py:129-146 | with the time as a parameter: on a key clash an error naming the key and forecasts unchanged; otherwise exactly the given row appended with that fetched_at; other tables unchanged, constraints kept |
| Store.Database.SaveWeeklyForecast | lecture-6/weather/database.py:149-164 | the same for weekly_forecasts |
| Store.Database.LatestForecast | lecture-6/weather/database.py:167-189 | rows of the area in non-increasing fetched_at; with a non-empty date at most one row, of that date, empty exactly when the area has no row for the date, and at least as late as every row for it (later under the UNIQUE key); with no date or '' min(2, n) of the area's n rows, none left out later than a returned one |
| Store.Database.LatestForDate | lecture-6/weather/database.py:172-178 | at most one row, of the area and date; empty exactly when the area has no row for that date; its fetched_at is the largest among those rows, strictly when the key is unique |
| Store.Database.LatestTwo | lecture-6/weather/database.py:180-185 | min(2, n) of the area's n rows, in non-increasing fetched_at, and no row of the area left out is later than a returned one |
| Store.Database.LatestIsMax | lecture-6/weather/database.py:176-177 | the head of the rows sorted by fetched_at descending is at least as late as every matching row, and later than every other one under the UNIQUE key |
| Store.Database.LatestWeeklyForecast | lecture-6/weather/database.py:192-214 | empty exactly when MAX(fetched_at) is NULL or ''; otherwise exactly the area's rows stamped with the maximal fetched_at, in ascending forecast_date, strictly so under the UNIQUE key |
| Store.Database.WeeklyNoStamp | lecture-6/weather/database.py:203-214 | when MAX(fetched_at) is NULL or '' every weekly row of the area has an empty fetched_at |
| Store.Database.WeeklyLatestFacts | lecture-6/weather/database.py:203-211 | rows selected at a non-empty maximum form one snapshot of the area that no row of the area is later than |
| Store.Database.ForecastHistory | lecture-6/weather/database.py:217-231 | at most limit values (no bound when limit is negative), distinct and strictly descending, each the fetched_at of a row of the area; a stamp of the area left out is older than every value kept |
| Store.Database.HistoryFacts | lecture-6/weather/database.py:222-231 | the distinct stamps of the area's rows, strictly descending and cut by LIMIT: at most limit of them, each a stamp of the area, and a stamp left out is older than all kept |
| Store.Database.ForecastByFetchedAt | lecture-6/weather/database.py:234-247 | exactly the rows of (area, fetched_at), each as often as in the table, in ascending forecast_date, strictly so under the UNIQUE key |
| Query.SortBy | lecture-6/weather/database.py:176 | ORDER BY: sorted by the key in the given direction, and a permutation of the input |
| Query.Where | lecture-6/weather/database.py:175 | WHERE: keeps exactly the rows satisfying the condition, each as often as in the input |
| Query.Limit | lecture-6/weather/database.py:226 | definition of LIMIT n: the first n rows, or all of them when n is negative or not smaller than the count; stated by LimitPrefix |
| Query.LimitPrefix | lecture-6/weather/database.py:226 | LIMIT keeps a prefix of the input, at most n rows for a non-negative n, and fewer than all only when exactly n |
| Query.Top | lecture-6/weather/database.py:183-184 | ORDER BY … LIMIT n: sorted, min(n, size) rows (all of them for a negative n), a sub-multiset of the input, and every row left out comes after every row kept |
| Query.LimitSorted | lecture-6/weather/database.py:226 | LIMIT keeps a sorted list sorted |
| Query.Ascending | lecture-6/weather/database.py:123 | the codes of a key set in strictly ascending order, each exactly once |
| Query.MaxKey | lecture-6/weather/database.py:199 | MAX over rows: NULL exactly for no rows, otherwise the key of some row and at least every row's key |
| Query.Uniq | lecture-6/weather/database.py:223 | DISTINCT: the same values as the input, first one first, never more of them |
| Query.UniqStrictlyDescending | lecture-6/weather/database.py:223-225 | DISTINCT of a descending list is strictly descending |
| Collation.Le | lecture-6/weather/database.py:123 | definition of BINARY text order: lexicographic, a proper prefix first |
| Collation.Lt | lecture-6/weather/database.py:123 | definition: strictly before in that order |
| Collation.LeReflexive | lecture-6/weather/database.py:176 | every text sorts at or before itself |
| Collation.LeTotal | lecture-6/weather/database.py:176 | any two texts are ordered one way or the other, so ORDER BY and MAX are defined |
| Collation.LeAntisymmetric | lecture-6/weather/database.py:223-225 | two texts each at or before the other are equal, so a strict descending order has no repeats |
| Collation.LeTransitive | lecture-6/weather/database.py:176 | the order is transitive |
| Collation.LeEmpty | lecture-6/weather/database.py:203 | only '' sorts at or before '', so a MAX of '' means every stamp is '' |
| Numbers.ParseInt | lecture-6/weather/server.py:154 | int(): a value exactly for an optional sign followed by decimal digits, negative only after '-' |
| Numbers.IsDecimal | lecture-6/weather/server.py:154 | definition of the texts int() accepts here: an optional sign and at least one ASCII digit |
| Numbers.NatToString | lecture-6/weather/server.py:160 | str() of a natural number: non-empty, all digits, no leading zero |
| Numbers.IntToString | lecture-6/weather/server.py:160 | str() of an int is a decimal int() accepts |
| Numbers.NatToStringValue | lecture-6/weather/server.py:160 | the digits str() writes for a natural number denote that number |
| Numbers.IntRoundTrip | lecture-6/weather/server.py:160 | int(str(n)) == n for every integer n |
| Ingest.MaxParsed | lecture-6/weather/server.py:154 | over the non-empty entries: an error naming the first entry int() refuses, else none when no entry is given, else the maximum of their values |
| Ingest.MaxPop | lecture-6/weather/server.py:154 | max([int(p) for p in ps if p], default=0): fails exactly when a non-empty entry does not parse; 0 when none is given; otherwise a parsed value no parsed entry exceeds |
| Ingest.AnyGiven | lecture-6/weather/server.py:154 | definition of the `if p` filter: some entry is non-empty |
| Ingest.AllParse | lecture-6/weather/server.py:154 | definition: every non-empty entry is one int() accepts |
| Ingest.TodayPop | lecture-6/weather/server.py:154 | today_pop succeeds exactly when there are no pops or every non-empty entry of pops[0:4] parses, and is '' exactly when there are no pops; the value is stated by TodayPopRule |
| Ingest.TomorrowPop | lecture-6/weather/server.py:180 | tomorrow_pop succeeds exactly when there are at most four pops or every non-empty entry of pops[4:8] parses, and is '' exactly with at most four pops; the value is stated by TomorrowPopRule |
| Ingest.At | lecture-6/weather/server.py:151-153 | definition of index-or-default: s[i] when i < len(s), else ''; stated for whole calls by IngestToday, IngestTomorrow and WeeklyAdded |
| Ingest.DatePart | lecture-6/weather/server.py:150 | s[:10]: a prefix of s of length min(10, len(s)) |
| Ingest.Slice | lecture-6/weather/server.py:154 | definition of s[a:b], clipped to len(s); used by TodayPopRule and TomorrowPopRule |
| Ingest.PopText | lecture-6/weather/server.py:160 | str() of a pop: '' for no pops, else a decimal int() reads back as the value |
| Ingest.TodayPopRule | lecture-6/weather/server.py:154 | today's pop is '' without pops; otherwise the maximum of int() over the non-empty entries of pops[0:4], 0 when there are none, and an error when one of them does not parse |
| Ingest.TomorrowPopRule | lecture-6/weather/server.py:180 | tomorrow's pop is '' when there are at most four pops; otherwise the same rule over pops[4:8] |
| Ingest.ShortTermOf | lecture-6/weather/server.py:121-146 | block 0 yields its lists exactly when it has a first timeSeries with a first area; the body reads pops and temps from timeSeries 1 and 2, [] when missing |
| Ingest.WeeklyOf | lecture-6/weather/server.py:191-212 | the weekly part runs exactly when data has two blocks and block 1 has a first timeSeries with a first area; the body reads tempsMin/tempsMax from its timeSeries 1, [] when missing |
| Ingest.TodayRecord | lecture-6/weather/server.py:149-156 | definition of the today record: date time 0's first 10 characters, the other fields index 0 (temp_max index 1) or ''; stated for a whole call by IngestToday |
| Ingest.TomorrowRecord | lecture-6/weather/server.py:175-179 | definition of the tomorrow record: index 1 of each list or ''; stated for a whole call by IngestTomorrow |
| Ingest.WeeklyEntryAt | lecture-6/weather/server.py:215-220 | definition of weekly record i: date time i's first 10 characters, every other field src[i] or ''; stated for a whole call by IngestWeekly |
| Ingest.TodayRow | lecture-6/weather/server.py:158-162 | definition of the forecasts row save_forecast writes: today's fields with the pop through str(), the report time and the stamp |
| Ingest.WeeklyRowOf | lecture-6/weather/server.py:222-225 | definition of the weekly_forecasts row save_weekly_forecast writes for a record |
| Ingest.AppendWeekly | lecture-6/weather/server.py:222-225 | one save_weekly_forecast of a record: refused exactly when its key is taken, else exactly its row appended, constraints kept |
| Ingest.WeeklyEntries | lecture-6/weather/server.py:214-220 | one weekly record per time, record i built from index i of each list |
| Ingest.EntriesUpTo | lecture-6/weather/server.py:214-220 | the records of the first n times: n of them, record i built from index i |
| Ingest.WeeklyRound | lecture-6/weather/server.py:215-234 | definition of one loop round: unless a save was refused, save record k stamped clock(base + k) and append it, or record the refusal; stated by WeeklyRoundDone and WeeklyClash |
| Ingest.SaveWeeklyRows | lecture-6/weather/server.py:214-234 | definition: the first n rounds of the loop; what they leave is stated by WeeklyRounds, WeeklyClash, WeeklyRoundsKeepTable and WeeklyErrorSticks |
| Ingest.WeeklyRounds | lecture-6/weather/server.py:214-234 | after n loop rounds: the records appended are a prefix of the records, all n when none was refused, and the table is the old one plus exactly their rows, row i stamped clock(base + i) |
| Ingest.WeeklyRoundDone | lecture-6/weather/server.py:215-234 | one round extends what the earlier rounds did by its record and row, or records the refusal |
| Ingest.WeeklyClash | lecture-6/weather/server.py:222-225 | a refused round names the record it stopped at and a key the table holds |
| Ingest.WeeklyRoundsKeepTable | lecture-6/weather/database.py:81 | the weekly rounds keep weekly_forecasts' constraints |
| Ingest.WeeklyErrorSticks | lecture-6/weather/server.py:214-225 | once a round is refused later rounds change nothing: the exception leaves the loop |
| Ingest.ShortTerm | lecture-6/weather/server.py:148-188 | definition of the short-term part: today's pop parsed, its row saved stamped clock(0), then tomorrow built; stated by ShortTermRecords |
| Ingest.ShortTermStage | lecture-6/weather/server.py:120-188 | definition: the short-term part when block 0 has a first area, and nothing otherwise |
| Ingest.HasToday | lecture-6/weather/server.py:127-149 | definition: block 0 has a first area and a first time |
| Ingest.HasTomorrow | lecture-6/weather/server.py:175 | definition: block 0 has a first area and a second time |
| Ingest.ShortTermRecords | lecture-6/weather/server.py:149-188 | the short-term part: today exists exactly with a first time, tomorrow exactly with a second; their fields and pops as in the source; forecasts gains exactly today's row or nothing |
| Ingest.Ingest | lecture-6/weather/server.py:106-115 | an empty feed returns the all-None result and leaves both tables as they were |
| Ingest.IngestStages | lecture-6/weather/server.py:117-236 | a call is the short-term part followed, when that returns, by the weekly loop on block 1 |
| Ingest.IngestAppendOnly | lecture-6/weather/server.py:158-162 | a call keeps each table's old rows as a prefix, forecasts gaining at most one row, and keeps both tables' constraints |
| Ingest.IngestToday | lecture-6/weather/server.py:127-172 | a call that returns has today exactly when block 0 has a first area and a first time; date is the first 10 characters of time 0, other fields index 0 or 1 or ''; forecasts gains exactly today's row with the stringified fields, stamped clock(0), and otherwise stays |
| Ingest.IngestTomorrow | lecture-6/weather/server.py:175-188 | a call that returns has tomorrow exactly when block 0 has a first area and a second time; its fields are index 1 or ''; it is never saved, so forecasts grows only by today's row |
| Ingest.IngestWeekly | lecture-6/weather/server.py:190-234 | a call that returns has one weekly record per time of block 1, in order, record i dated time i's first 10 characters, and the weekly table is the old one followed by exactly their rows in that order; with no usable block 1 the list is empty and the table unchanged |
| Ingest.WeeklyAdded | lecture-6/weather/server.py:214-234 | definition of what the weekly part leaves: one record per time of block 1 in order, record i built from index i and dated by time i's first 10 characters, and the old table followed by exactly their rows, row i stamped clock(base + i) |
| Ingest.WeeklyLoopDone | lecture-6/weather/server.py:214-234 | a weekly loop with no refused save leaves exactly what WeeklyAdded describes |
| Ingest.StageToday | lecture-6/weather/server.py:149 | the short-term part yields today exactly when block 0 has a first area and a first time |
| Ingest.IngestHeader | lecture-6/weather/server.py:117-129 | a call on a non-empty feed reports block 0's reportDatetime ('' when missing) and the first area's name, None without an area |
| Ingest.IngestErrors | lecture-6/weather/server.py:154-225 | a call raises only for a reason: a non-empty pop of block 0 that int() refuses, or a row whose key the table already holds |
| Ingest.IngestFreshSucceeds | lecture-6/weather/server.py:154-225 | whatever the clock reads (saves in one second share a stamp): with pops int() accepts, today's key absent from forecasts and the weekly keys pairwise distinct and absent from weekly_forecasts, a call returns |
| Ingest.IngestKeysFresh | lecture-6/weather/server.py:158-225 | conversely, a call that returns wrote fresh keys: today's key was not in forecasts, and the weekly keys are pairwise distinct and were not in weekly_forecasts |
| Ingest.WeeklyKeysFresh | lecture-6/weather/database.py:81 | definition: the keys (area_code, date i, clock(base + i)) of the first n weekly saves are absent from the table and pairwise distinct |
| Ingest.FreshWeeklyRounds | lecture-6/weather/server.py:214-225 | weekly rounds whose keys are fresh (WeeklyKeysFresh) are never refused, even when they share one stamp |
| Ingest.AcceptedWeeklyRounds | lecture-6/weather/server.py:214-225 | conversely, weekly rounds that are all accepted wrote fresh keys |
| Ingest.SaveShortTerm | lecture-6/weather/server.py:121-188 | the short-term part against the database: the status and forecasts are those of the specification; areas and weekly_forecasts untouched |
| Ingest.SaveWeeklyEntry | lecture-6/weather/server.py:222-225 | save_weekly_forecast of one record: weekly_forecasts becomes AppendWeekly's table, or stays on a clash |
| Ingest.SaveWeeklyRound | lecture-6/weather/server.py:215-234 | one loop round against the database advances the specification's progress by one round |
| Ingest.SaveWeekly | lecture-6/weather/server.py:214-234 | the weekly loop against the database: records, table and error are those of the specification's rounds |
| Ingest.ParseAndSaveForecast | lecture-6/weather/server.py:104-236 | parse_and_save_forecast against the database: its result or exception and both forecast tables afterwards are those of Ingest; areas untouched; constraints kept |

## Left out

- The Flask route handlers (`server.py:20-101`) and the `__main__` block are
  not modelled. This covers HTTP, the `requests.get` calls to JMA, JSON
  encoding and `app.run`. The feed reaches `ParseAndSaveForecast` already
  decoded into datatypes.
- The SQLite mechanics are not modelled: connections, commit and close, the
  indexes and the DDL. The tables stand in for them, and each statement takes
  effect at once.
- The foreign keys on `area_code` are not modelled. SQLite does not enforce
  them by default, so a forecast row may name an area that is not in the table.
- `datetime.now()` and `CURRENT_TIMESTAMP` are parameters (`clock`, `now`).
  Nothing is assumed about them: they need not increase and need not differ.
- The `forecast_date DATE` and `fetched_at TIMESTAMP` columns
  (`database.py:53,61,73,79`) have NUMERIC affinity in SQLite. SQLite stores a
  number-looking text such as `2025` or `20250115` as an INTEGER or REAL, and
  that changes ORDER BY, MAX and the UNIQUE comparison: `2025` and `2025.0`
  clash, and numbers sort before text. The model compares every date and stamp
  as text. It agrees with SQLite only while dates and stamps are not numeric
  literals. ISO dates cut to 10 characters and `strftime('%Y-%m-%d %H:%M:%S')`
  stamps never are numeric literals.
- Concurrency between calls is not modelled; calls run one after another.
- Numbers.ParseInt: accepts an optional `+` or `-` followed by ASCII digits.
  Python's `int()` also accepts surrounding whitespace, underscores between
  digits and non-ASCII decimal digits, and the model treats those as errors.
- Ingest.Ingest: JSON values that are not strings are not modelled, such as a
  number in `temps` or a `null` value. Every list entry is a string.
  - A missing key reads as its `.get` default.
  - An explicit `null` value (as opposed to a missing key) is left out.
  - `str()` of a non-string is the identity on the strings modelled.
- Ingest.Ingest: the weekly loop stops at the first refused save. In the source
  that save raises and the exception leaves the loop, so nothing after it runs
  either way.
- Store.Database.LatestForecast: the row order among equal `fetched_at` values
  follows the model's stable sort. SQLite leaves that order unspecified, so the
  contract states properties true for every order, not which row is picked.
- Store.Database.LatestWeeklyForecast: emptiness is stated as "every row of the
  area has an empty `fetched_at`", which is the code's truthiness test on MAX,
  rather than "the area has no weekly rows". The two agree whenever stamps are
  non-empty, and `strftime` always produces non-empty stamps.
- Store.Database.SaveAreasBatch: `executemany` runs as one statement stream
  inside one transaction. The model applies the upserts one by one, and each
  entry takes its own clock reading.
- Other modules of the repository are not part of this model: the Flet
  calculator (`lecture-4`) and the browser front ends (`app.js`).
