/**
 * The SQLite store of the weather backend (lecture-6/weather/database.py), as
 * three in-memory tables: areas (primary key area_code), forecasts and
 * weekly_forecasts (each with an AUTOINCREMENT id and
 * UNIQUE(area_code, forecast_date, fetched_at)). Writes are methods of
 * Database; the SELECT queries are functions of its tables.
 */
module Store {
  import opened Wrappers
  import opened Collation
  import opened Query

  /**
   * A row of areas, stored under its area_code; created_at and updated_at take
   * CURRENT_TIMESTAMP when the row is inserted.
   */
  datatype AreaRow = AreaRow(areaName: string, createdAt: string, updatedAt: string)

  /** What get_all_areas returns per row: SELECT area_code, area_name. */
  datatype AreaSummary = AreaSummary(areaCode: string, areaName: string)

  /** A row of forecasts, as SELECT * returns it. */
  datatype ForecastRow = ForecastRow(
    id: nat, areaCode: string, forecastDate: string, weatherCode: string, weatherText: string,
    tempMin: string, tempMax: string, pop: string, wind: string, reportDatetime: string,
    fetchedAt: string)

  /** A row of weekly_forecasts, as SELECT * returns it. */
  datatype WeeklyRow = WeeklyRow(
    id: nat, areaCode: string, forecastDate: string, weatherCode: string, pop: string,
    tempMin: string, tempMax: string, reliability: string, fetchedAt: string)

  /** sqlite3.IntegrityError raised by the UNIQUE(area_code, forecast_date, fetched_at) constraint. */
  datatype StoreError = DuplicateKey(areaCode: string, forecastDate: string, fetchedAt: string)

  // ---------------------------------------------------------------- areas

  /**
   * INSERT OR REPLACE INTO areas (area_code, area_name, updated_at): a row
   * already holding the code is deleted and a whole new one inserted, so
   * created_at is reset along with updated_at; no other row changes.
   */
  function Upsert(t: map<string, AreaRow>, code: string, name: string, now: string): (r: map<string, AreaRow>)
    ensures r.Keys == t.Keys + {code}
    ensures r[code] == AreaRow(name, now, now)
    ensures forall c :: c in t && c != code ==> r[c] == t[c]
  {
    t[code := AreaRow(name, now, now)]
  }

  /** The table after executemany's first n rows of entries, row k stamped clock(k). */
  function UpsertAll(t: map<string, AreaRow>, entries: seq<(string, string)>, clock: nat -> string, n: nat): (r: map<string, AreaRow>)
    requires n <= |entries|
    decreases n
  {
    if n == 0 then t
    else Upsert(UpsertAll(t, entries, clock, n - 1), entries[n - 1].0, entries[n - 1].1, clock(n - 1))
  }

  /** A batch upsert adds exactly the codes its entries carry and removes none. */
  lemma {:induction false} UpsertAllKeys(t: map<string, AreaRow>, entries: seq<(string, string)>, clock: nat -> string, n: nat)
    requires n <= |entries|
    ensures UpsertAll(t, entries, clock, n).Keys == t.Keys + set k | 0 <= k < n :: entries[k].0
    decreases n
  {
    if n > 0 {
      UpsertAllKeys(t, entries, clock, n - 1);
      assert (set k | 0 <= k < n :: entries[k].0) == (set k | 0 <= k < n - 1 :: entries[k].0) + {entries[n - 1].0};
    }
  }

  /** The position of the last of the first n entries that carries code, if any does. */
  function LastIndex(entries: seq<(string, string)>, n: nat, code: string): (r: Option<nat>)
    requires n <= |entries|
    ensures r.Some? ==> r.value < n && entries[r.value].0 == code
    ensures r.Some? ==> forall k :: r.value < k < n ==> entries[k].0 != code
    ensures r.None? ==> forall k :: 0 <= k < n ==> entries[k].0 != code
    decreases n
  {
    if n == 0 then None
    else if entries[n - 1].0 == code then Some(n - 1)
    else LastIndex(entries, n - 1, code)
  }

  /**
   * A batch upsert is last-write-wins per code: a code the batch mentions ends
   * up with the row of its last entry, stamped when that entry ran; a code it
   * does not mention keeps its row, or stays absent.
   */
  lemma {:induction false} UpsertAllLastWins(t: map<string, AreaRow>, entries: seq<(string, string)>, clock: nat -> string, n: nat, code: string)
    requires n <= |entries|
    ensures code in UpsertAll(t, entries, clock, n) <==> code in t || LastIndex(entries, n, code).Some?
    ensures match LastIndex(entries, n, code)
            case Some(k) => UpsertAll(t, entries, clock, n)[code] == AreaRow(entries[k].1, clock(k), clock(k))
            case None => code in t ==> UpsertAll(t, entries, clock, n)[code] == t[code]
    decreases n
  {
    if n > 0 {
      UpsertAllLastWins(t, entries, clock, n - 1, code);
    }
  }

  // ------------------------------------------------------- forecast tables

  /** Some row of t already holds the key (area_code, forecast_date, fetched_at). */
  predicate HasForecastKey(t: seq<ForecastRow>, areaCode: string, forecastDate: string, fetchedAt: string)
  {
    exists x :: x in t && x.areaCode == areaCode && x.forecastDate == forecastDate && x.fetchedAt == fetchedAt
  }

  predicate SameForecastKey(x: ForecastRow, y: ForecastRow)
  {
    x.areaCode == y.areaCode && x.forecastDate == y.forecastDate && x.fetchedAt == y.fetchedAt
  }

  /** The table's constraints: ids 1, 2, ... in insertion order, and the UNIQUE key. */
  predicate ForecastTableOk(t: seq<ForecastRow>)
  {
    && (forall i :: 0 <= i < |t| ==> t[i].id == i + 1)
    && (forall i, j :: 0 <= i < j < |t| ==> !SameForecastKey(t[i], t[j]))
  }

  /** INSERT INTO forecasts: appended with the next id, or refused when the key is taken. */
  function InsertForecast(
    t: seq<ForecastRow>, areaCode: string, forecastDate: string, weatherCode: string,
    weatherText: string, tempMin: string, tempMax: string, pop: string, wind: string,
    reportDatetime: string, fetchedAt: string): (r: Result<seq<ForecastRow>, StoreError>)
    ensures r.Err? <==> HasForecastKey(t, areaCode, forecastDate, fetchedAt)
    ensures r.Err? ==> r.error == DuplicateKey(areaCode, forecastDate, fetchedAt)
    ensures r.Ok? ==> r.value == t + [ForecastRow(|t| + 1, areaCode, forecastDate, weatherCode,
                        weatherText, tempMin, tempMax, pop, wind, reportDatetime, fetchedAt)]
    ensures r.Ok? && ForecastTableOk(t) ==> ForecastTableOk(r.value)
  {
    if HasForecastKey(t, areaCode, forecastDate, fetchedAt) then
      Err(DuplicateKey(areaCode, forecastDate, fetchedAt))
    else
      var row := ForecastRow(|t| + 1, areaCode, forecastDate, weatherCode, weatherText,
                             tempMin, tempMax, pop, wind, reportDatetime, fetchedAt);
      var r := t + [row];
      assert ForecastTableOk(t) ==> ForecastTableOk(r) by {
        if ForecastTableOk(t) {
          forall i, j | 0 <= i < j < |r| ensures !SameForecastKey(r[i], r[j]) {
            if j == |t| { assert r[i] in t; }
          }
        }
      }
      Ok(r)
  }

  predicate HasWeeklyKey(t: seq<WeeklyRow>, areaCode: string, forecastDate: string, fetchedAt: string)
  {
    exists x :: x in t && x.areaCode == areaCode && x.forecastDate == forecastDate && x.fetchedAt == fetchedAt
  }

  predicate SameWeeklyKey(x: WeeklyRow, y: WeeklyRow)
  {
    x.areaCode == y.areaCode && x.forecastDate == y.forecastDate && x.fetchedAt == y.fetchedAt
  }

  predicate WeeklyTableOk(t: seq<WeeklyRow>)
  {
    && (forall i :: 0 <= i < |t| ==> t[i].id == i + 1)
    && (forall i, j :: 0 <= i < j < |t| ==> !SameWeeklyKey(t[i], t[j]))
  }

  /** INSERT INTO weekly_forecasts: appended with the next id, or refused when the key is taken. */
  function InsertWeekly(
    t: seq<WeeklyRow>, areaCode: string, forecastDate: string, weatherCode: string, pop: string,
    tempMin: string, tempMax: string, reliability: string, fetchedAt: string): (r: Result<seq<WeeklyRow>, StoreError>)
    ensures r.Err? <==> HasWeeklyKey(t, areaCode, forecastDate, fetchedAt)
    ensures r.Err? ==> r.error == DuplicateKey(areaCode, forecastDate, fetchedAt)
    ensures r.Ok? ==> r.value == t + [WeeklyRow(|t| + 1, areaCode, forecastDate, weatherCode, pop,
                        tempMin, tempMax, reliability, fetchedAt)]
    ensures r.Ok? && WeeklyTableOk(t) ==> WeeklyTableOk(r.value)
  {
    if HasWeeklyKey(t, areaCode, forecastDate, fetchedAt) then
      Err(DuplicateKey(areaCode, forecastDate, fetchedAt))
    else
      var row := WeeklyRow(|t| + 1, areaCode, forecastDate, weatherCode, pop, tempMin, tempMax,
                           reliability, fetchedAt);
      var r := t + [row];
      assert WeeklyTableOk(t) ==> WeeklyTableOk(r) by {
        if WeeklyTableOk(t) {
          forall i, j | 0 <= i < j < |r| ensures !SameWeeklyKey(r[i], r[j]) {
            if j == |t| { assert r[i] in t; }
          }
        }
      }
      Ok(r)
  }

  /** Under the ids, no two rows of a table are equal. */
  lemma ForecastRowsDistinct(t: seq<ForecastRow>)
    requires ForecastTableOk(t)
    ensures Distinct(t)
  {
  }

  lemma WeeklyRowsDistinct(t: seq<WeeklyRow>)
    requires WeeklyTableOk(t)
    ensures Distinct(t)
  {
  }

  /** Under the UNIQUE key, two rows of the table with one key are one row. */
  lemma ForecastKeyDetermines(t: seq<ForecastRow>, x: ForecastRow, y: ForecastRow)
    requires ForecastTableOk(t) && x in t && y in t && SameForecastKey(x, y)
    ensures x == y
  {
    var p :| 0 <= p < |t| && t[p] == x;
    var q :| 0 <= q < |t| && t[q] == y;
  }

  lemma WeeklyKeyDetermines(t: seq<WeeklyRow>, x: WeeklyRow, y: WeeklyRow)
    requires WeeklyTableOk(t) && x in t && y in t && SameWeeklyKey(x, y)
    ensures x == y
  {
    var p :| 0 <= p < |t| && t[p] == x;
    var q :| 0 <= q < |t| && t[q] == y;
  }

  // --------------------------------------------------------------- queries

  /** Python truthiness of the optional forecast_date argument. */
  predicate DateGiven(forecastDate: Option<string>)
  {
    forecastDate.Some? && forecastDate.value != ""
  }

  /** WHERE area_code = areaCode over forecasts. */
  function ForecastsOf(t: seq<ForecastRow>, areaCode: string): (r: seq<ForecastRow>)
    ensures forall x :: multiset(r)[x] == if x.areaCode == areaCode then multiset(t)[x] else 0
    ensures forall x :: x in r <==> x in t && x.areaCode == areaCode
  {
    Where(t, (x: ForecastRow) => x.areaCode == areaCode)
  }

  /** The fetched_at column of rows, in row order. */
  function FetchedStamps(rows: seq<ForecastRow>): (r: seq<string>)
    ensures |r| == |rows|
    ensures forall i :: 0 <= i < |rows| ==> r[i] == rows[i].fetchedAt
  {
    seq(|rows|, i requires 0 <= i < |rows| => rows[i].fetchedAt)
  }

  /** SELECT area_code, area_name for the given codes, in their order. */
  function Listing(t: map<string, AreaRow>, codes: seq<string>): (r: seq<AreaSummary>)
    requires forall c :: c in codes ==> c in t
    ensures |r| == |codes|
    ensures forall i :: 0 <= i < |codes| ==> r[i] == AreaSummary(codes[i], t[codes[i]].areaName)
  {
    seq(|codes|, i requires 0 <= i < |codes| => AreaSummary(codes[i], t[codes[i]].areaName))
  }

  lemma ListingCovers(t: map<string, AreaRow>, codes: seq<string>)
    requires forall c :: c in codes <==> c in t
    ensures forall c :: c in t ==> AreaSummary(c, t[c].areaName) in Listing(t, codes)
  {
    forall c | c in t ensures AreaSummary(c, t[c].areaName) in Listing(t, codes) {
      var k :| 0 <= k < |codes| && codes[k] == c;
      assert Listing(t, codes)[k] == AreaSummary(c, t[c].areaName);
    }
  }

  /** Two rows of one snapshot sorted by date are ordered strictly, as the key makes each date unique. */
  lemma SnapshotSortedStrictly(t: seq<ForecastRow>, r: seq<ForecastRow>, areaCode: string, fetchedAt: string)
    requires ForecastTableOk(t)
    requires multiset(r) <= multiset(t)
    requires forall x :: x in r ==> x.areaCode == areaCode && x.fetchedAt == fetchedAt
    requires forall i, j :: 0 <= i < j < |r| ==> Le(r[i].forecastDate, r[j].forecastDate)
    ensures forall i, j :: 0 <= i < j < |r| ==> Lt(r[i].forecastDate, r[j].forecastDate)
  {
    ForecastRowsDistinct(t);
    DistinctBelow(r, t);
    forall i, j | 0 <= i < j < |r|
      ensures Lt(r[i].forecastDate, r[j].forecastDate)
    {
      assert r[i] in r && r[j] in r;
      assert r[i] in multiset(t) && r[j] in multiset(t);
      if r[i].forecastDate == r[j].forecastDate {
        ForecastKeyDetermines(t, r[i], r[j]);
      }
    }
  }

  lemma WeeklySnapshotSortedStrictly(t: seq<WeeklyRow>, r: seq<WeeklyRow>, areaCode: string, fetchedAt: string)
    requires WeeklyTableOk(t)
    requires multiset(r) <= multiset(t)
    requires forall x :: x in r ==> x.areaCode == areaCode && x.fetchedAt == fetchedAt
    requires forall i, j :: 0 <= i < j < |r| ==> Le(r[i].forecastDate, r[j].forecastDate)
    ensures forall i, j :: 0 <= i < j < |r| ==> Lt(r[i].forecastDate, r[j].forecastDate)
  {
    WeeklyRowsDistinct(t);
    DistinctBelow(r, t);
    forall i, j | 0 <= i < j < |r|
      ensures Lt(r[i].forecastDate, r[j].forecastDate)
    {
      assert r[i] in r && r[j] in r;
      assert r[i] in multiset(t) && r[j] in multiset(t);
      if r[i].forecastDate == r[j].forecastDate {
        WeeklyKeyDetermines(t, r[i], r[j]);
      }
    }
  }

  /** Cutting a strictly descending sequence at n drops only values below everything it keeps. */
  lemma StrictLimit(d: seq<string>, n: int, v: string)
    requires forall i, j :: 0 <= i < j < |d| ==> Lt(d[j], d[i])
    requires v in d && v !in Limit(d, n)
    ensures 0 <= n == |Limit(d, n)|
    ensures forall t :: t in Limit(d, n) ==> Lt(v, t)
  {
    var k :| 0 <= k < |d| && d[k] == v;
    assert 0 <= n < |d|;
    forall t | t in Limit(d, n)
      ensures Lt(v, t)
    {
      var i :| 0 <= i < n && d[..n][i] == t;
      assert d[i] == t;
    }
  }

  // ---------------------------------------------------------------- store

  class Database {
    var areas: map<string, AreaRow>
    var forecasts: seq<ForecastRow>
    var weekly: seq<WeeklyRow>

    /** The schema's constraints on the two forecast tables (foreign keys are not enforced by SQLite by default). */
    ghost predicate Valid()
      reads this
    {
      ForecastTableOk(forecasts) && WeeklyTableOk(weekly)
    }

    /** init_database on a fresh file: three empty tables. */
    constructor ()
      ensures Valid()
      ensures areas == map[] && forecasts == [] && weekly == []
    {
      areas := map[];
      forecasts := [];
      weekly := [];
    }

    /** save_area, with CURRENT_TIMESTAMP read as now. */
    method SaveArea(areaCode: string, areaName: string, now: string)
      requires Valid()
      modifies this
      ensures Valid()
      ensures areas == Upsert(old(areas), areaCode, areaName, now)
      ensures forecasts == old(forecasts) && weekly == old(weekly)
    {
      areas := Upsert(areas, areaCode, areaName, now);
    }

    /** save_areas_batch: executemany runs the upsert once per entry, entry k reading clock(k). */
    method SaveAreasBatch(entries: seq<(string, string)>, clock: nat -> string)
      requires Valid()
      modifies this
      ensures Valid()
      ensures areas == UpsertAll(old(areas), entries, clock, |entries|)
      ensures forecasts == old(forecasts) && weekly == old(weekly)
    {
      var i := 0;
      while i < |entries|
        invariant 0 <= i <= |entries|
        invariant Valid()
        invariant areas == UpsertAll(old(areas), entries, clock, i)
        invariant forecasts == old(forecasts) && weekly == old(weekly)
      {
        areas := Upsert(areas, entries[i].0, entries[i].1, clock(i));
        i := i + 1;
      }
    }

    /** get_all_areas: SELECT area_code, area_name FROM areas ORDER BY area_code. */
    function AllAreas(): (r: seq<AreaSummary>)
      reads this
      ensures |r| == |areas|
      ensures forall c :: c in areas ==> AreaSummary(c, areas[c].areaName) in r
      ensures forall a :: a in r ==> a.areaCode in areas && a.areaName == areas[a.areaCode].areaName
      ensures forall i, j :: 0 <= i < j < |r| ==> Lt(r[i].areaCode, r[j].areaCode)
    {
      var codes := Ascending(areas.Keys);
      ListingCovers(areas, codes);
      Listing(areas, codes)
    }

    /** save_forecast, with datetime.now() read as fetchedAt; raises on a taken key. */
    method SaveForecast(
      areaCode: string, forecastDate: string, weatherCode: string, weatherText: string,
      tempMin: string, tempMax: string, pop: string, wind: string, reportDatetime: string,
      fetchedAt: string) returns (r: Result<(), StoreError>)
      requires Valid()
      modifies this
      ensures Valid()
      ensures match InsertForecast(old(forecasts), areaCode, forecastDate, weatherCode, weatherText,
                                   tempMin, tempMax, pop, wind, reportDatetime, fetchedAt)
              case Ok(t) => r == Ok(()) && forecasts == t
              case Err(e) => r == Err(e) && forecasts == old(forecasts)
      ensures areas == old(areas) && weekly == old(weekly)
    {
      var ins := InsertForecast(forecasts, areaCode, forecastDate, weatherCode, weatherText,
                                tempMin, tempMax, pop, wind, reportDatetime, fetchedAt);
      match ins
      case Ok(t) =>
        forecasts := t;
        r := Ok(());
      case Err(e) =>
        r := Err(e);
    }

    /** save_weekly_forecast, with datetime.now() read as fetchedAt; raises on a taken key. */
    method SaveWeeklyForecast(
      areaCode: string, forecastDate: string, weatherCode: string, pop: string,
      tempMin: string, tempMax: string, reliability: string,
      fetchedAt: string) returns (r: Result<(), StoreError>)
      requires Valid()
      modifies this
      ensures Valid()
      ensures match InsertWeekly(old(weekly), areaCode, forecastDate, weatherCode, pop,
                                 tempMin, tempMax, reliability, fetchedAt)
              case Ok(t) => r == Ok(()) && weekly == t
              case Err(e) => r == Err(e) && weekly == old(weekly)
      ensures areas == old(areas) && forecasts == old(forecasts)
    {
      var ins := InsertWeekly(weekly, areaCode, forecastDate, weatherCode, pop, tempMin, tempMax,
                              reliability, fetchedAt);
      match ins
      case Ok(t) =>
        weekly := t;
        r := Ok(());
      case Err(e) =>
        r := Err(e);
    }

    /**
     * get_latest_forecast. With a (truthy) date: the area's row for that date
     * fetched last (ORDER BY fetched_at DESC LIMIT 1). Without: the two rows of
     * the area fetched last, whatever their dates (LIMIT 2).
     */
    function LatestForecast(areaCode: string, forecastDate: Option<string>): (r: seq<ForecastRow>)
      reads this
      ensures forall x :: x in r ==> x in forecasts && x.areaCode == areaCode
      ensures forall i, j :: 0 <= i < j < |r| ==> Le(r[j].fetchedAt, r[i].fetchedAt)
      ensures DateGiven(forecastDate) ==> |r| <= 1
      ensures DateGiven(forecastDate) ==>
                (r == [] <==> !HasForecastKeyPrefix(forecasts, areaCode, forecastDate.value))
      ensures DateGiven(forecastDate) ==> forall x :: x in r ==> x.forecastDate == forecastDate.value
      ensures DateGiven(forecastDate) ==>
                forall x, y :: x in r && y in forecasts && y.areaCode == areaCode && y.forecastDate == x.forecastDate ==>
                  Le(y.fetchedAt, x.fetchedAt)
      ensures DateGiven(forecastDate) && ForecastTableOk(forecasts) ==>
                forall x, y :: x in r && y in forecasts && y.areaCode == areaCode && y.forecastDate == x.forecastDate && y != x ==>
                  Lt(y.fetchedAt, x.fetchedAt)
      ensures !DateGiven(forecastDate) ==>
                |r| == if |ForecastsOf(forecasts, areaCode)| < 2 then |ForecastsOf(forecasts, areaCode)| else 2
      ensures !DateGiven(forecastDate) ==> multiset(r) <= multiset(ForecastsOf(forecasts, areaCode))
      ensures !DateGiven(forecastDate) ==>
                forall x, y :: x in r && y in multiset(ForecastsOf(forecasts, areaCode)) - multiset(r) ==>
                  Le(y.fetchedAt, x.fetchedAt)
    {
      if DateGiven(forecastDate) then
        LatestForDate(areaCode, forecastDate.value)
      else
        LatestTwo(areaCode)
    }

    /** The branch of get_latest_forecast without a date: the area's two latest rows. */
    function LatestTwo(areaCode: string): (r: seq<ForecastRow>)
      reads this
      ensures forall x :: x in r ==> x in forecasts && x.areaCode == areaCode
      ensures forall i, j :: 0 <= i < j < |r| ==> Le(r[j].fetchedAt, r[i].fetchedAt)
      ensures |r| == if |ForecastsOf(forecasts, areaCode)| < 2 then |ForecastsOf(forecasts, areaCode)| else 2
      ensures multiset(r) <= multiset(ForecastsOf(forecasts, areaCode))
      ensures forall x, y :: x in r && y in multiset(ForecastsOf(forecasts, areaCode)) - multiset(r) ==>
                Le(y.fetchedAt, x.fetchedAt)
    {
      Top(ForecastsOf(forecasts, areaCode), (x: ForecastRow) => x.fetchedAt, true, 2)
    }

    /** The date branch of get_latest_forecast. */
    function LatestForDate(areaCode: string, forecastDate: string): (r: seq<ForecastRow>)
      reads this
      ensures |r| <= 1
      ensures forall x :: x in r ==> x in forecasts && x.areaCode == areaCode && x.forecastDate == forecastDate
      ensures r == [] <==> !HasForecastKeyPrefix(forecasts, areaCode, forecastDate)
      ensures forall x, y :: x in r && y in forecasts && y.areaCode == areaCode && y.forecastDate == forecastDate ==>
                Le(y.fetchedAt, x.fetchedAt)
      ensures ForecastTableOk(forecasts) ==>
                forall x, y :: x in r && y in forecasts && y.areaCode == areaCode && y.forecastDate == forecastDate && y != x ==>
                  Lt(y.fetchedAt, x.fetchedAt)
    {
      var rows := Where(forecasts, (x: ForecastRow) => x.areaCode == areaCode && x.forecastDate == forecastDate);
      var sorted := SortBy(rows, (x: ForecastRow) => x.fetchedAt, true);
      var r := Limit(sorted, 1);
      assert forall x :: x in rows <==> x in sorted by {
        forall x ensures x in rows <==> x in sorted {
          assert x in rows <==> x in multiset(rows);
          assert x in sorted <==> x in multiset(sorted);
        }
      }
      assert HasForecastKeyPrefix(forecasts, areaCode, forecastDate) ==> |rows| > 0 by {
        if HasForecastKeyPrefix(forecasts, areaCode, forecastDate) {
          var y :| y in forecasts && y.areaCode == areaCode && y.forecastDate == forecastDate;
          assert y in rows;
        }
      }
      if |sorted| == 0 then
        r
      else
        SortedHead(sorted, (x: ForecastRow) => x.fetchedAt, true);
        LatestIsMax(sorted, areaCode, forecastDate);
        assert sorted[0] in rows;
        r
    }

    lemma LatestIsMax(sorted: seq<ForecastRow>, areaCode: string, forecastDate: string)
      requires |sorted| > 0
      requires forall x :: x in sorted <==> x in forecasts && x.areaCode == areaCode && x.forecastDate == forecastDate
      requires forall y :: y in sorted[1..] ==> Le(y.fetchedAt, sorted[0].fetchedAt)
      ensures forall y :: y in forecasts && y.areaCode == areaCode && y.forecastDate == forecastDate ==>
                Le(y.fetchedAt, sorted[0].fetchedAt)
      ensures ForecastTableOk(forecasts) ==>
                forall y :: y in forecasts && y.areaCode == areaCode && y.forecastDate == forecastDate && y != sorted[0] ==>
                  Lt(y.fetchedAt, sorted[0].fetchedAt)
    {
      forall y | y in forecasts && y.areaCode == areaCode && y.forecastDate == forecastDate
        ensures Le(y.fetchedAt, sorted[0].fetchedAt)
        ensures ForecastTableOk(forecasts) && y != sorted[0] ==> Lt(y.fetchedAt, sorted[0].fetchedAt)
      {
        if y == sorted[0] {
          LeReflexive(y.fetchedAt);
        } else {
          assert y in sorted[1..] by { assert sorted == [sorted[0]] + sorted[1..]; }
          if ForecastTableOk(forecasts) && y.fetchedAt == sorted[0].fetchedAt {
            assert sorted[0] in sorted;
            ForecastKeyDetermines(forecasts, y, sorted[0]);
          }
        }
      }
    }

    /**
     * get_latest_weekly_forecast: MAX(fetched_at) of the area's weekly rows, then
     * every weekly row of the area with exactly that fetched_at, ORDER BY
     * forecast_date; nothing when the maximum is NULL or the empty string.
     */
    function LatestWeeklyForecast(areaCode: string): (r: seq<WeeklyRow>)
      reads this
      ensures r == [] <==> forall y :: y in weekly && y.areaCode == areaCode ==> y.fetchedAt == ""
      ensures forall x, y :: x in r && y in weekly && y.areaCode == areaCode ==> Le(y.fetchedAt, x.fetchedAt)
      ensures r != [] ==>
                forall y :: multiset(r)[y] ==
                  if y.areaCode == areaCode && y.fetchedAt == r[0].fetchedAt then multiset(weekly)[y] else 0
      ensures forall x :: x in r ==> x in weekly && x.areaCode == areaCode && x.fetchedAt == r[0].fetchedAt
      ensures forall i, j :: 0 <= i < j < |r| ==> Le(r[i].forecastDate, r[j].forecastDate)
      ensures WeeklyTableOk(weekly) ==> forall i, j :: 0 <= i < j < |r| ==> Lt(r[i].forecastDate, r[j].forecastDate)
    {
      var mine := Where(weekly, (x: WeeklyRow) => x.areaCode == areaCode);
      var latest := MaxKey(mine, (x: WeeklyRow) => x.fetchedAt);
      if latest.None? || latest.value == "" then
        WeeklyNoStamp(areaCode, mine, latest);
        []
      else
        var m := latest.value;
        var rows := Where(weekly, (x: WeeklyRow) => x.areaCode == areaCode && x.fetchedAt == m);
        var r := SortBy(rows, (x: WeeklyRow) => x.forecastDate, false);
        WeeklyLatestFacts(areaCode, mine, m, rows, r);
        r
    }

    lemma WeeklyNoStamp(areaCode: string, mine: seq<WeeklyRow>, latest: Option<string>)
      requires forall x :: x in mine <==> x in weekly && x.areaCode == areaCode
      requires latest.None? <==> |mine| == 0
      requires latest.Some? ==> forall x :: x in mine ==> Le(x.fetchedAt, latest.value)
      requires latest.None? || latest.value == ""
      ensures forall y :: y in weekly && y.areaCode == areaCode ==> y.fetchedAt == ""
    {
      forall y | y in weekly && y.areaCode == areaCode ensures y.fetchedAt == "" {
        assert y in mine;
        if latest.Some? { LeEmpty(y.fetchedAt); }
      }
    }

    lemma WeeklyLatestFacts(areaCode: string, mine: seq<WeeklyRow>, m: string, rows: seq<WeeklyRow>, r: seq<WeeklyRow>)
      requires m != ""
      requires forall x :: x in mine <==> x in weekly && x.areaCode == areaCode
      requires exists x :: x in mine && x.fetchedAt == m
      requires forall x :: x in mine ==> Le(x.fetchedAt, m)
      requires forall x :: multiset(rows)[x] == if x.areaCode == areaCode && x.fetchedAt == m then multiset(weekly)[x] else 0
      requires multiset(r) == multiset(rows)
      requires forall i, j :: 0 <= i < j < |r| ==> Le(r[i].forecastDate, r[j].forecastDate)
      ensures r != [] && r[0].fetchedAt == m
      ensures !forall y :: y in weekly && y.areaCode == areaCode ==> y.fetchedAt == ""
      ensures forall x, y :: x in r && y in weekly && y.areaCode == areaCode ==> Le(y.fetchedAt, x.fetchedAt)
      ensures forall x :: x in r ==> x in weekly && x.areaCode == areaCode && x.fetchedAt == m
      ensures WeeklyTableOk(weekly) ==> forall i, j :: 0 <= i < j < |r| ==> Lt(r[i].forecastDate, r[j].forecastDate)
    {
      var w :| w in mine && w.fetchedAt == m;
      assert multiset(rows)[w] == multiset(weekly)[w];
      assert w in multiset(weekly);
      assert w in multiset(r);
      forall x | x in r
        ensures x in weekly && x.areaCode == areaCode && x.fetchedAt == m
      {
        assert x in multiset(r);
        assert multiset(rows)[x] > 0;
      }
      assert r[0] in r;
      if WeeklyTableOk(weekly) {
        assert multiset(r) <= multiset(weekly) by {
          forall x ensures multiset(r)[x] <= multiset(weekly)[x] {}
        }
        WeeklySnapshotSortedStrictly(weekly, r, areaCode, m);
      }
    }

    /**
     * get_forecast_history: SELECT DISTINCT fetched_at of the area's forecast
     * rows, ORDER BY fetched_at DESC, LIMIT limit.
     */
    function ForecastHistory(areaCode: string, limit: int): (r: seq<string>)
      reads this
      ensures 0 <= limit ==> |r| <= limit
      ensures forall i, j :: 0 <= i < j < |r| ==> Lt(r[j], r[i])
      ensures forall t :: t in r ==> exists y :: y in forecasts && y.areaCode == areaCode && y.fetchedAt == t
      ensures forall y :: y in forecasts && y.areaCode == areaCode && y.fetchedAt !in r ==>
                0 <= limit == |r| && forall t :: t in r ==> Lt(y.fetchedAt, t)
    {
      var rows := ForecastsOf(forecasts, areaCode);
      var stamps := FetchedStamps(rows);
      var sorted := SortBy(stamps, (t: string) => t, true);
      var distinct := Uniq(sorted);
      UniqStrictlyDescending(sorted);
      var r := Limit(distinct, limit);
      HistoryFacts(areaCode, rows, stamps, sorted, distinct, limit);
      r
    }

    lemma HistoryFacts(areaCode: string, rows: seq<ForecastRow>, stamps: seq<string>, sorted: seq<string>,
                       distinct: seq<string>, limit: int)
      requires forall x :: x in rows <==> x in forecasts && x.areaCode == areaCode
      requires |stamps| == |rows| && forall i :: 0 <= i < |rows| ==> stamps[i] == rows[i].fetchedAt
      requires multiset(sorted) == multiset(stamps)
      requires forall x :: x in distinct <==> x in sorted
      requires forall i, j :: 0 <= i < j < |distinct| ==> Lt(distinct[j], distinct[i])
      ensures 0 <= limit ==> |Limit(distinct, limit)| <= limit
      ensures forall i, j :: 0 <= i < j < |Limit(distinct, limit)| ==> Lt(Limit(distinct, limit)[j], Limit(distinct, limit)[i])
      ensures forall t :: t in Limit(distinct, limit) ==> exists y :: y in forecasts && y.areaCode == areaCode && y.fetchedAt == t
      ensures forall y :: y in forecasts && y.areaCode == areaCode && y.fetchedAt !in Limit(distinct, limit) ==>
                0 <= limit == |Limit(distinct, limit)| && forall t :: t in Limit(distinct, limit) ==> Lt(y.fetchedAt, t)
    {
      var r := Limit(distinct, limit);
      assert forall t :: t in r ==> t in distinct;
      forall t | t in r
        ensures exists y :: y in forecasts && y.areaCode == areaCode && y.fetchedAt == t
      {
        assert t in multiset(stamps);
        var k :| 0 <= k < |stamps| && stamps[k] == t;
        assert rows[k] in rows;
      }
      forall y | y in forecasts && y.areaCode == areaCode && y.fetchedAt !in r
        ensures 0 <= limit == |r| && forall t :: t in r ==> Lt(y.fetchedAt, t)
      {
        assert y in rows;
        var k :| 0 <= k < |rows| && rows[k] == y;
        assert stamps[k] == y.fetchedAt;
        assert y.fetchedAt in multiset(sorted);
        StrictLimit(distinct, limit, y.fetchedAt);
      }
    }

    /** get_forecast_by_fetched_at: the area's rows stamped fetchedAt, ORDER BY forecast_date. */
    function ForecastByFetchedAt(areaCode: string, fetchedAt: string): (r: seq<ForecastRow>)
      reads this
      ensures forall x :: multiset(r)[x] ==
                if x.areaCode == areaCode && x.fetchedAt == fetchedAt then multiset(forecasts)[x] else 0
      ensures forall i, j :: 0 <= i < j < |r| ==> Le(r[i].forecastDate, r[j].forecastDate)
      ensures ForecastTableOk(forecasts) ==> forall i, j :: 0 <= i < j < |r| ==> Lt(r[i].forecastDate, r[j].forecastDate)
    {
      var rows := Where(forecasts, (x: ForecastRow) => x.areaCode == areaCode && x.fetchedAt == fetchedAt);
      var r := SortBy(rows, (x: ForecastRow) => x.forecastDate, false);
      SnapshotFacts(forecasts, r, areaCode, fetchedAt);
      r
    }
  }

  /** A snapshot of t sorted by date has no repeated date when t keeps its UNIQUE key. */
  lemma SnapshotFacts(t: seq<ForecastRow>, r: seq<ForecastRow>, areaCode: string, fetchedAt: string)
    requires forall x :: multiset(r)[x] ==
               if x.areaCode == areaCode && x.fetchedAt == fetchedAt then multiset(t)[x] else 0
    requires forall i, j :: 0 <= i < j < |r| ==> Le(r[i].forecastDate, r[j].forecastDate)
    ensures ForecastTableOk(t) ==> forall i, j :: 0 <= i < j < |r| ==> Lt(r[i].forecastDate, r[j].forecastDate)
  {
    if ForecastTableOk(t) {
      assert multiset(r) <= multiset(t) by {
        forall x ensures multiset(r)[x] <= multiset(t)[x] {}
      }
      forall x | x in r ensures x.areaCode == areaCode && x.fetchedAt == fetchedAt {
        assert x in multiset(r);
      }
      SnapshotSortedStrictly(t, r, areaCode, fetchedAt);
    }
  }

  /** Some row of t is for area areaCode and date forecastDate. */
  predicate HasForecastKeyPrefix(t: seq<ForecastRow>, areaCode: string, forecastDate: string)
  {
    exists x :: x in t && x.areaCode == areaCode && x.forecastDate == forecastDate
  }
}
