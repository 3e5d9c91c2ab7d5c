/**
 * parse_and_save_forecast (lecture-6/weather/server.py): decodes a JMA
 * forecast feed into today's, tomorrow's and the weekly records, saving
 * today's record and every weekly record into the store as it goes.
 *
 * Ingest is the specification of one call: what it returns and what the two
 * forecast tables hold afterwards. ParseAndSaveForecast performs the call
 * against a Database step by step, as the source does, and is proved to
 * agree with it.
 */
module Ingest {
  import opened Wrappers
  import opened Numbers
  import opened Store

  // ------------------------------------------------------------ the feed

  /**
   * One entry of a timeSeries' "areas" list. A missing key reads as its
   * default, as dict.get gives it: "" for area.name, [] for the lists.
   */
  datatype FeedArea = FeedArea(
    name: string,
    weatherCodes: seq<string>, weathers: seq<string>, winds: seq<string>,
    pops: seq<string>, temps: seq<string>,
    tempsMin: seq<string>, tempsMax: seq<string>, reliabilities: seq<string>)

  datatype TimeSeries = TimeSeries(timeDefines: seq<string>, areas: seq<FeedArea>)

  /** One block of the feed; a missing reportDatetime reads as "". */
  datatype Block = Block(reportDatetime: string, timeSeries: seq<TimeSeries>)

  // ---------------------------------------------------------- the result

  /** A precipitation value: '' when there were no pops at all, else int. */
  datatype Pop = NoPop | Percent(value: int)

  datatype Today = Today(
    date: string, weatherCode: string, weatherText: string,
    tempMin: string, tempMax: string, pop: Pop, wind: string)

  datatype Tomorrow = Tomorrow(date: string, weatherCode: string, weatherText: string, pop: Pop, wind: string)

  datatype WeeklyEntry = WeeklyEntry(
    date: string, weatherCode: string, pop: string,
    tempMin: string, tempMax: string, reliability: string)

  datatype ForecastResult = ForecastResult(
    today: Option<Today>, tomorrow: Option<Tomorrow>, weekly: seq<WeeklyEntry>,
    reportDatetime: Option<string>, areaName: Option<string>)

  /** Why a call raises instead of returning: int() refusing a pop, or the UNIQUE key refusing a row. */
  datatype IngestError = NotAnInteger(text: string) | Rejected(cause: StoreError)

  /** The result for an empty feed. */
  const NoForecast := ForecastResult(None, None, [], None, None)

  // ------------------------------------------------------- field helpers

  /** x[i] if i < len(x) else '' */
  function At(s: seq<string>, i: nat): (r: string)
    ensures i < |s| ==> r == s[i]
    ensures i >= |s| ==> r == ""
  {
    if i < |s| then s[i] else ""
  }

  /** s[:10], the date part of an ISO time. */
  function DatePart(s: string): (r: string)
    ensures |r| == if |s| < 10 then |s| else 10
    ensures r <= s
  {
    if |s| < 10 then s else s[..10]
  }

  /** s[a:b] for 0 <= a <= b. */
  function Slice(s: seq<string>, a: nat, b: nat): (r: seq<string>)
    requires a <= b
    ensures |r| == (if b < |s| then b else |s|) - (if a < |s| then a else |s|)
    ensures forall i :: 0 <= i < |r| ==> r[i] == s[a + i]
  {
    var hi := if b < |s| then b else |s|;
    var lo := if a < |s| then a else |s|;
    s[lo..hi]
  }

  /** str() of a precipitation value: '' for no pops, else a decimal that int() reads back as the value. */
  function PopText(p: Pop): (r: string)
    ensures p.NoPop? ==> r == ""
    ensures p.Percent? ==> ParseInt(r) == Some(p.value)
  {
    match p
    case NoPop => ""
    case Percent(v) => IntRoundTrip(v); IntToString(v)
  }

  // ------------------------------------------------- precipitation values

  /** Some entry of ps is non-empty. */
  predicate AnyGiven(ps: seq<string>)
  {
    exists i :: 0 <= i < |ps| && ps[i] != ""
  }

  /** Every non-empty entry of ps is something int() accepts. */
  predicate AllParse(ps: seq<string>)
  {
    forall i :: 0 <= i < |ps| && ps[i] != "" ==> IsDecimal(ps[i])
  }

  /**
   * max([int(p) for p in ps if p]) with None for an empty list: the entries
   * are read left to right and the first non-empty one int() refuses is raised.
   */
  function MaxParsed(ps: seq<string>): (r: Result<Option<int>, string>)
    ensures r.Ok? <==> AllParse(ps)
    ensures r.Err? ==> exists i :: 0 <= i < |ps| && ps[i] == r.error && r.error != "" && !IsDecimal(r.error) &&
                        forall j :: 0 <= j < i && ps[j] != "" ==> IsDecimal(ps[j])
    ensures r.Ok? ==> (r.value.None? <==> !AnyGiven(ps))
    ensures r.Ok? && r.value.Some? ==>
              (exists i :: 0 <= i < |ps| && ps[i] != "" && ParseInt(ps[i]) == Some(r.value.value)) &&
              forall i :: 0 <= i < |ps| && ps[i] != "" ==> ParseInt(ps[i]).Some? && ParseInt(ps[i]).value <= r.value.value
    decreases |ps|
  {
    if |ps| == 0 then Ok(None)
    else
      var rest := MaxParsed(ps[1..]);
      assert forall i :: 1 <= i < |ps| ==> ps[i] == ps[1..][i - 1];
      if ps[0] == "" then
        rest
      else
        match ParseInt(ps[0])
        case None => Err(ps[0])
        case Some(v) =>
          match rest
          case Err(e) => rest
          case Ok(None) => Ok(Some(v))
          case Ok(Some(m)) => Ok(Some(if v >= m then v else m))
  }

  /** max([int(p) for p in ps if p], default=0) */
  function MaxPop(ps: seq<string>): (r: Result<int, string>)
    ensures r.Ok? <==> AllParse(ps)
    ensures r.Ok? && !AnyGiven(ps) ==> r.value == 0
    ensures r.Ok? && AnyGiven(ps) ==>
              (exists i :: 0 <= i < |ps| && ps[i] != "" && ParseInt(ps[i]) == Some(r.value)) &&
              forall i :: 0 <= i < |ps| && ps[i] != "" ==> ParseInt(ps[i]).Some? && ParseInt(ps[i]).value <= r.value
  {
    match MaxParsed(ps)
    case Err(e) => Err(e)
    case Ok(None) => Ok(0)
    case Ok(Some(m)) => Ok(m)
  }

  /** today_pop: '' without pops, else the maximum over the first four periods. */
  function TodayPop(pops: seq<string>): (r: Result<Pop, string>)
    ensures r.Ok? <==> |pops| == 0 || AllParse(Slice(pops, 0, 4))
    ensures r == Ok(NoPop) <==> |pops| == 0
  {
    if |pops| == 0 then Ok(NoPop)
    else
      match MaxPop(Slice(pops, 0, 4))
      case Err(e) => Err(e)
      case Ok(v) => Ok(Percent(v))
  }

  /** tomorrow_pop: '' with at most four pops, else the maximum over periods four to seven. */
  function TomorrowPop(pops: seq<string>): (r: Result<Pop, string>)
    ensures r.Ok? <==> |pops| <= 4 || AllParse(Slice(pops, 4, 8))
    ensures r == Ok(NoPop) <==> |pops| <= 4
  {
    if |pops| <= 4 then Ok(NoPop)
    else
      match MaxPop(Slice(pops, 4, 8))
      case Err(e) => Err(e)
      case Ok(v) => Ok(Percent(v))
  }

  /** The precipitation rule for today: both branches of "max(...) if pops else ''". */
  lemma TodayPopRule(pops: seq<string>)
    ensures |pops| == 0 ==> TodayPop(pops) == Ok(NoPop)
    ensures |pops| > 0 && AllParse(Slice(pops, 0, 4)) ==>
              TodayPop(pops).Ok? && TodayPop(pops).value.Percent? &&
              var v := TodayPop(pops).value.value;
              (!AnyGiven(Slice(pops, 0, 4)) ==> v == 0) &&
              (AnyGiven(Slice(pops, 0, 4)) ==>
                 (exists i :: 0 <= i < 4 && i < |pops| && pops[i] != "" && ParseInt(pops[i]) == Some(v)) &&
                 forall i :: 0 <= i < 4 && i < |pops| && pops[i] != "" ==> ParseInt(pops[i]).Some? && ParseInt(pops[i]).value <= v)
    ensures |pops| > 0 && !AllParse(Slice(pops, 0, 4)) ==> TodayPop(pops).Err?
  {
    if |pops| > 0 && AllParse(Slice(pops, 0, 4)) && AnyGiven(Slice(pops, 0, 4)) {
      var s := Slice(pops, 0, 4);
      var v := TodayPop(pops).value.value;
      var k :| 0 <= k < |s| && s[k] != "" && ParseInt(s[k]) == Some(v);
      assert pops[k] == s[k];
      forall i | 0 <= i < 4 && i < |pops| && pops[i] != ""
        ensures ParseInt(pops[i]).Some? && ParseInt(pops[i]).value <= v
      {
        assert s[i] == pops[i];
      }
    }
  }

  /** The precipitation rule for tomorrow: '' up to four pops, else the maximum of periods four to seven. */
  lemma TomorrowPopRule(pops: seq<string>)
    ensures |pops| <= 4 ==> TomorrowPop(pops) == Ok(NoPop)
    ensures |pops| > 4 && AllParse(Slice(pops, 4, 8)) ==>
              TomorrowPop(pops).Ok? && TomorrowPop(pops).value.Percent? &&
              var v := TomorrowPop(pops).value.value;
              (!AnyGiven(Slice(pops, 4, 8)) ==> v == 0) &&
              (AnyGiven(Slice(pops, 4, 8)) ==>
                 (exists i :: 4 <= i < 8 && i < |pops| && pops[i] != "" && ParseInt(pops[i]) == Some(v)) &&
                 forall i :: 4 <= i < 8 && i < |pops| && pops[i] != "" ==> ParseInt(pops[i]).Some? && ParseInt(pops[i]).value <= v)
    ensures |pops| > 4 && !AllParse(Slice(pops, 4, 8)) ==> TomorrowPop(pops).Err?
  {
    if |pops| > 4 && AllParse(Slice(pops, 4, 8)) && AnyGiven(Slice(pops, 4, 8)) {
      var s := Slice(pops, 4, 8);
      var v := TomorrowPop(pops).value.value;
      var k :| 0 <= k < |s| && s[k] != "" && ParseInt(s[k]) == Some(v);
      assert pops[4 + k] == s[k];
      forall i | 4 <= i < 8 && i < |pops| && pops[i] != ""
        ensures ParseInt(pops[i]).Some? && ParseInt(pops[i]).value <= v
      {
        assert s[i - 4] == pops[i];
      }
    }
  }

  // ------------------------------------------------------ block decoding

  /** What the short-term block offers once its first area has been found. */
  datatype ShortTermInput = ShortTermInput(
    timeDefines: seq<string>, area: FeedArea, pops: seq<string>, temps: seq<string>)

  /**
   * timeSeries[0].areas[0] of block 0, with the pops of timeSeries[1].areas[0]
   * and the temps of timeSeries[2].areas[0] ([] where those are missing);
   * None when there is no first timeSeries or it has no areas.
   */
  function ShortTermOf(b: Block): (r: Option<ShortTermInput>)
    ensures r.Some? <==> |b.timeSeries| >= 1 && |b.timeSeries[0].areas| > 0
  {
    var ts := b.timeSeries;
    if |ts| >= 1 && |ts[0].areas| > 0 then
      var pops := if |ts| > 1 && |ts[1].areas| > 0 then ts[1].areas[0].pops else [];
      var temps := if |ts| > 2 && |ts[2].areas| > 0 then ts[2].areas[0].temps else [];
      Some(ShortTermInput(ts[0].timeDefines, ts[0].areas[0], pops, temps))
    else
      None
  }

  /** The today record for a precipitation value already worked out. */
  function TodayRecord(st: ShortTermInput, pop: Pop): (r: Today)
    requires |st.timeDefines| > 0
  {
    Today(DatePart(st.timeDefines[0]), At(st.area.weatherCodes, 0), At(st.area.weathers, 0),
          At(st.temps, 0), At(st.temps, 1), pop, At(st.area.winds, 0))
  }

  /** The tomorrow record for a precipitation value already worked out. */
  function TomorrowRecord(st: ShortTermInput, pop: Pop): (r: Tomorrow)
    requires |st.timeDefines| > 1
  {
    Tomorrow(DatePart(st.timeDefines[1]), At(st.area.weatherCodes, 1), At(st.area.weathers, 1),
             pop, At(st.area.winds, 1))
  }

  /** What the weekly block offers once its first area has been found. */
  datatype WeeklyInput = WeeklyInput(
    timeDefines: seq<string>, area: FeedArea, tempsMin: seq<string>, tempsMax: seq<string>)

  /**
   * timeSeries[0].areas[0] of block 1, with tempsMin and tempsMax of
   * timeSeries[1].areas[0]; None unless there is a block 1 whose timeSeries
   * and first areas list are non-empty.
   */
  function WeeklyOf(data: seq<Block>): (r: Option<WeeklyInput>)
    ensures r.Some? <==> |data| > 1 && |data[1].timeSeries| > 0 && |data[1].timeSeries[0].areas| > 0
  {
    if |data| > 1 && |data[1].timeSeries| > 0 && |data[1].timeSeries[0].areas| > 0 then
      var ts := data[1].timeSeries;
      var hasTemps := |ts| > 1 && |ts[1].areas| > 0;
      Some(WeeklyInput(ts[0].timeDefines, ts[0].areas[0],
                       if hasTemps then ts[1].areas[0].tempsMin else [],
                       if hasTemps then ts[1].areas[0].tempsMax else []))
    else
      None
  }

  /** The weekly record of period i: its date, and every other field src[i] or ''. */
  function WeeklyEntryAt(w: WeeklyInput, i: nat): (r: WeeklyEntry)
    requires i < |w.timeDefines|
  {
    WeeklyEntry(DatePart(w.timeDefines[i]), At(w.area.weatherCodes, i), At(w.area.pops, i),
                At(w.tempsMin, i), At(w.tempsMax, i), At(w.area.reliabilities, i))
  }

  // ------------------------------------------------------- the writes

  /** The forecasts row that save_forecast writes for today's record. */
  function TodayRow(id: nat, areaCode: string, t: Today, reportDatetime: string, fetchedAt: string): ForecastRow
  {
    ForecastRow(id, areaCode, t.date, t.weatherCode, t.weatherText, t.tempMin, t.tempMax,
                PopText(t.pop), t.wind, reportDatetime, fetchedAt)
  }

  /** The weekly_forecasts row that save_weekly_forecast writes for a weekly record. */
  function WeeklyRowOf(id: nat, areaCode: string, e: WeeklyEntry, fetchedAt: string): WeeklyRow
  {
    WeeklyRow(id, areaCode, e.date, e.weatherCode, e.pop, e.tempMin, e.tempMax, e.reliability, fetchedAt)
  }

  /** save_weekly_forecast of record e stamped fetchedAt, in terms of the record. */
  function AppendWeekly(t: seq<WeeklyRow>, areaCode: string, e: WeeklyEntry, fetchedAt: string): (r: Result<seq<WeeklyRow>, StoreError>)
    ensures r.Err? <==> HasWeeklyKey(t, areaCode, e.date, fetchedAt)
    ensures r.Err? ==> r.error == DuplicateKey(areaCode, e.date, fetchedAt)
    ensures r.Ok? ==> r.value == t + [WeeklyRowOf(|t| + 1, areaCode, e, fetchedAt)]
    ensures r.Ok? && WeeklyTableOk(t) ==> WeeklyTableOk(r.value)
  {
    InsertWeekly(t, areaCode, e.date, e.weatherCode, e.pop, e.tempMin, e.tempMax, e.reliability, fetchedAt)
  }

  /** The weekly records, one per time of block 1, in order. */
  function WeeklyEntries(w: WeeklyInput): (r: seq<WeeklyEntry>)
    ensures |r| == |w.timeDefines|
    ensures forall i :: 0 <= i < |r| ==> r[i] == WeeklyEntryAt(w, i)
  {
    EntriesUpTo(w, |w.timeDefines|)
  }

  /** The weekly records of the first n times. */
  function EntriesUpTo(w: WeeklyInput, n: nat): (r: seq<WeeklyEntry>)
    requires n <= |w.timeDefines|
    ensures |r| == n
    ensures forall i :: 0 <= i < n ==> r[i] == WeeklyEntryAt(w, i)
  {
    if n == 0 then [] else EntriesUpTo(w, n - 1) + [WeeklyEntryAt(w, n - 1)]
  }

  /** How far the weekly loop got: the records appended, the table, and the key clash that stopped it, if any. */
  datatype WeeklyProgress = WeeklyProgress(entries: seq<WeeklyEntry>, table: seq<WeeklyRow>, error: Option<StoreError>)

  /** Round k of the weekly loop: unless an earlier save was refused, save es[k] stamped clock(base + k) and append it. */
  function WeeklyRound(areaCode: string, es: seq<WeeklyEntry>, clock: nat -> string, base: nat,
                       p: WeeklyProgress, k: nat): WeeklyProgress
    requires k < |es|
  {
    if p.error.Some? then p
    else
      match AppendWeekly(p.table, areaCode, es[k], clock(base + k))
      case Err(err) => WeeklyProgress(p.entries, p.table, Some(err))
      case Ok(table) => WeeklyProgress(p.entries + [es[k]], table, None)
  }

  /** The first n rounds of the weekly loop over records es, starting from table t. */
  function SaveWeeklyRows(areaCode: string, es: seq<WeeklyEntry>, clock: nat -> string, base: nat,
                          t: seq<WeeklyRow>, n: nat): (r: WeeklyProgress)
    requires n <= |es|
    decreases n
  {
    if n == 0 then WeeklyProgress([], t, None)
    else WeeklyRound(areaCode, es, clock, base, SaveWeeklyRows(areaCode, es, clock, base, t, n - 1), n - 1)
  }

  /**
   * What n rounds from table t leave: the records appended are a prefix of
   * es, all n of them unless a round was refused, and the table is t
   * followed by exactly their rows, the i-th stamped clock(base + i).
   */
  predicate RoundsDone(areaCode: string, es: seq<WeeklyEntry>, clock: nat -> string, base: nat,
                       t: seq<WeeklyRow>, n: nat, r: WeeklyProgress)
  {
    && |r.entries| <= n <= |es| && r.entries == es[..|r.entries|]
    && (r.error.None? ==> |r.entries| == n)
    && |r.table| == |t| + |r.entries| && r.table[..|t|] == t
    && (forall i :: 0 <= i < |r.entries| ==>
          r.table[|t| + i] == WeeklyRowOf(|t| + i + 1, areaCode, es[i], clock(base + i)))
  }

  lemma WeeklyRoundDone(areaCode: string, es: seq<WeeklyEntry>, clock: nat -> string, base: nat,
                        t: seq<WeeklyRow>, p: WeeklyProgress, k: nat)
    requires k < |es| && RoundsDone(areaCode, es, clock, base, t, k, p)
    ensures RoundsDone(areaCode, es, clock, base, t, k + 1, WeeklyRound(areaCode, es, clock, base, p, k))
  {
    var r := WeeklyRound(areaCode, es, clock, base, p, k);
    if p.error.None? && r.error.None? {
      var row := WeeklyRowOf(|p.table| + 1, areaCode, es[k], clock(base + k));
      assert r.entries == p.entries + [es[k]] && r.table == p.table + [row];
      assert r.entries == es[..k + 1];
      assert r.table[..|t|] == p.table[..|t|];
      forall i | 0 <= i < |r.entries|
        ensures r.table[|t| + i] == WeeklyRowOf(|t| + i + 1, areaCode, es[i], clock(base + i))
      {
        if i < |p.entries| {
          assert r.table[|t| + i] == p.table[|t| + i];
        }
      }
    }
  }

  /** The n rounds leave what RoundsDone describes. */
  lemma {:induction false} WeeklyRounds(areaCode: string, es: seq<WeeklyEntry>, clock: nat -> string, base: nat,
                                        t: seq<WeeklyRow>, n: nat)
    requires n <= |es|
    ensures RoundsDone(areaCode, es, clock, base, t, n, SaveWeeklyRows(areaCode, es, clock, base, t, n))
    decreases n
  {
    if n > 0 {
      WeeklyRounds(areaCode, es, clock, base, t, n - 1);
      WeeklyRoundDone(areaCode, es, clock, base, t, SaveWeeklyRows(areaCode, es, clock, base, t, n - 1), n - 1);
    }
  }

  /** A refused round names the key it clashed on, which the table already holds. */
  predicate ClashNamed(areaCode: string, es: seq<WeeklyEntry>, clock: nat -> string, base: nat, n: nat, r: WeeklyProgress)
  {
    r.error.Some? ==>
      |r.entries| < n <= |es| &&
      r.error.value == DuplicateKey(areaCode, es[|r.entries|].date, clock(base + |r.entries|)) &&
      HasWeeklyKey(r.table, areaCode, es[|r.entries|].date, clock(base + |r.entries|))
  }

  lemma WeeklyRoundClash(areaCode: string, es: seq<WeeklyEntry>, clock: nat -> string, base: nat,
                         t: seq<WeeklyRow>, p: WeeklyProgress, k: nat)
    requires k < |es| && RoundsDone(areaCode, es, clock, base, t, k, p) && ClashNamed(areaCode, es, clock, base, k, p)
    ensures ClashNamed(areaCode, es, clock, base, k + 1, WeeklyRound(areaCode, es, clock, base, p, k))
  {
  }

  /** Every refused round leaves ClashNamed behind. */
  lemma {:induction false} WeeklyClash(areaCode: string, es: seq<WeeklyEntry>, clock: nat -> string, base: nat,
                                       t: seq<WeeklyRow>, n: nat)
    requires n <= |es|
    ensures ClashNamed(areaCode, es, clock, base, n, SaveWeeklyRows(areaCode, es, clock, base, t, n))
    decreases n
  {
    if n > 0 {
      WeeklyClash(areaCode, es, clock, base, t, n - 1);
      WeeklyRounds(areaCode, es, clock, base, t, n - 1);
      WeeklyRoundClash(areaCode, es, clock, base, t, SaveWeeklyRows(areaCode, es, clock, base, t, n - 1), n - 1);
    }
  }

  /** The weekly rounds keep the table's ids and UNIQUE key. */
  lemma {:induction false} WeeklyRoundsKeepTable(areaCode: string, es: seq<WeeklyEntry>, clock: nat -> string, base: nat,
                                                 t: seq<WeeklyRow>, n: nat)
    requires n <= |es| && WeeklyTableOk(t)
    ensures WeeklyTableOk(SaveWeeklyRows(areaCode, es, clock, base, t, n).table)
    decreases n
  {
    if n > 0 {
      WeeklyRoundsKeepTable(areaCode, es, clock, base, t, n - 1);
    }
  }

  /** Once a round is refused, later rounds change nothing. */
  lemma {:induction false} WeeklyErrorSticks(areaCode: string, es: seq<WeeklyEntry>, clock: nat -> string, base: nat,
                                             t: seq<WeeklyRow>, n: nat, m: nat)
    requires n <= m <= |es|
    requires SaveWeeklyRows(areaCode, es, clock, base, t, n).error.Some?
    ensures SaveWeeklyRows(areaCode, es, clock, base, t, m) == SaveWeeklyRows(areaCode, es, clock, base, t, n)
    decreases m
  {
    if m > n {
      WeeklyErrorSticks(areaCode, es, clock, base, t, n, m - 1);
    }
  }

  // ------------------------------------------------------- one call

  /** The call's outcome: what it returns (or raises) and the two forecast tables afterwards. */
  datatype Outcome = Outcome(result: Result<ForecastResult, IngestError>, forecasts: seq<ForecastRow>, weekly: seq<WeeklyRow>)

  /** The short-term stage: today's and tomorrow's records and the forecasts table after it. */
  datatype ShortTermOutcome = ShortTermOutcome(
    status: Result<(Option<Today>, Option<Tomorrow>), IngestError>, forecasts: seq<ForecastRow>)

  /**
   * Today is built (its pop parsed first) and saved stamped clock(0) when
   * there is a first time; then tomorrow is built when there is a second.
   */
  function ShortTerm(areaCode: string, st: ShortTermInput, reportDatetime: string, clock: nat -> string,
                     f: seq<ForecastRow>): (r: ShortTermOutcome)
  {
    if |st.timeDefines| == 0 then ShortTermOutcome(Ok((None, None)), f)
    else
      match TodayPop(st.pops)
      case Err(e) => ShortTermOutcome(Err(NotAnInteger(e)), f)
      case Ok(pop) =>
        var t := TodayRecord(st, pop);
        match InsertForecast(f, areaCode, t.date, t.weatherCode, t.weatherText, t.tempMin, t.tempMax,
                             PopText(t.pop), t.wind, reportDatetime, clock(0))
        case Err(e) => ShortTermOutcome(Err(Rejected(e)), f)
        case Ok(f1) =>
          if |st.timeDefines| <= 1 then ShortTermOutcome(Ok((Some(t), None)), f1)
          else
            match TomorrowPop(st.pops)
            case Err(e) => ShortTermOutcome(Err(NotAnInteger(e)), f1)
            case Ok(pop2) => ShortTermOutcome(Ok((Some(t), Some(TomorrowRecord(st, pop2)))), f1)
  }

  /**
   * The short-term stage adds exactly today's row when there is a first time
   * and nothing otherwise, and it succeeds with today exactly then; tomorrow
   * exists exactly when there is a second time, and is not written.
   */
  lemma ShortTermRecords(areaCode: string, st: ShortTermInput, reportDatetime: string, clock: nat -> string,
                         f: seq<ForecastRow>)
    ensures var o := ShortTerm(areaCode, st, reportDatetime, clock, f);
            && (o.forecasts == f || (|st.timeDefines| > 0 && o.forecasts == f + [o.forecasts[|f|]]))
            && (o.status.Ok? ==> (o.status.value.0.Some? <==> |st.timeDefines| > 0))
            && (o.status.Ok? ==> (o.status.value.1.Some? <==> |st.timeDefines| > 1))
            && (o.status.Ok? && |st.timeDefines| > 0 ==>
                  var t := o.status.value.0.value;
                  && TodayPop(st.pops) == Ok(t.pop)
                  && t == TodayRecord(st, t.pop)
                  && o.forecasts == f + [TodayRow(|f| + 1, areaCode, t, reportDatetime, clock(0))])
            && (o.status.Ok? && |st.timeDefines| > 1 ==>
                  var t := o.status.value.1.value;
                  TomorrowPop(st.pops) == Ok(t.pop) && t == TomorrowRecord(st, t.pop))
            && (o.status.Ok? && |st.timeDefines| == 0 ==> o.forecasts == f)
    ensures ForecastTableOk(f) ==> ForecastTableOk(ShortTerm(areaCode, st, reportDatetime, clock, f).forecasts)
  {
  }

  /**
   * parse_and_save_forecast(area_code, data) against tables f and w, where
   * clock(k) is the time the k-th save of the call reads.
   */
  function Ingest(areaCode: string, data: seq<Block>, clock: nat -> string,
                  f: seq<ForecastRow>, w: seq<WeeklyRow>): (r: Outcome)
    ensures |data| == 0 ==> r == Outcome(Ok(NoForecast), f, w)
  {
    if |data| == 0 then Outcome(Ok(NoForecast), f, w)
    else
      var rd := data[0].reportDatetime;
      var st := ShortTermOf(data[0]);
      var s := if st.Some? then ShortTerm(areaCode, st.value, rd, clock, f) else ShortTermOutcome(Ok((None, None)), f);
      if s.status.Err? then Outcome(Err(s.status.error), s.forecasts, w)
      else
        var today := s.status.value.0;
        var tomorrow := s.status.value.1;
        var name := if st.Some? then Some(st.value.area.name) else None;
        match WeeklyOf(data)
        case None => Outcome(Ok(ForecastResult(today, tomorrow, [], Some(rd), name)), s.forecasts, w)
        case Some(wi) =>
          var p := SaveWeeklyRows(areaCode, WeeklyEntries(wi), clock, if today.Some? then 1 else 0, w, |wi.timeDefines|);
          if p.error.Some? then Outcome(Err(Rejected(p.error.value)), s.forecasts, p.table)
          else Outcome(Ok(ForecastResult(today, tomorrow, p.entries, Some(rd), name)), s.forecasts, p.table)
  }

  // ------------------------------------------------------- properties

  /** Whether block 0 yields a today record: a first area and a first time. */
  predicate HasToday(data: seq<Block>)
  {
    |data| > 0 && ShortTermOf(data[0]).Some? && |ShortTermOf(data[0]).value.timeDefines| > 0
  }

  /** Whether block 0 yields a tomorrow record: a first area and a second time. */
  predicate HasTomorrow(data: seq<Block>)
  {
    |data| > 0 && ShortTermOf(data[0]).Some? && |ShortTermOf(data[0]).value.timeDefines| > 1
  }

  /** The stage the call's short-term part reaches. */
  function ShortTermStage(areaCode: string, data: seq<Block>, clock: nat -> string, f: seq<ForecastRow>): ShortTermOutcome
    requires |data| > 0
  {
    var st := ShortTermOf(data[0]);
    if st.Some? then ShortTerm(areaCode, st.value, data[0].reportDatetime, clock, f)
    else ShortTermOutcome(Ok((None, None)), f)
  }

  /** Ingest in terms of its two stages. */
  lemma IngestStages(areaCode: string, data: seq<Block>, clock: nat -> string, f: seq<ForecastRow>, w: seq<WeeklyRow>)
    requires |data| > 0
    ensures var o := Ingest(areaCode, data, clock, f, w);
            var s := ShortTermStage(areaCode, data, clock, f);
            && o.forecasts == s.forecasts
            && (s.status.Err? ==> o.result == Err(s.status.error) && o.weekly == w)
            && (s.status.Ok? && WeeklyOf(data).None? ==> o.weekly == w && o.result.Ok? && o.result.value.weekly == [])
            && (s.status.Ok? && WeeklyOf(data).Some? ==>
                  var wi := WeeklyOf(data).value;
                  var p := SaveWeeklyRows(areaCode, WeeklyEntries(wi), clock, if s.status.value.0.Some? then 1 else 0, w, |wi.timeDefines|);
                  o.weekly == p.table && (o.result.Ok? <==> p.error.None?) &&
                  (p.error.None? ==> o.result.value.weekly == p.entries) &&
                  (p.error.Some? ==> o.result == Err(Rejected(p.error.value))))
            && (s.status.Ok? ==> (o.result.Ok? ==>
                  o.result.value.today == s.status.value.0 && o.result.value.tomorrow == s.status.value.1))
  {
  }

  /** A call only ever appends: each forecast table keeps its old rows as a prefix, forecasts gaining at most one. */
  lemma IngestAppendOnly(areaCode: string, data: seq<Block>, clock: nat -> string, f: seq<ForecastRow>, w: seq<WeeklyRow>)
    ensures var o := Ingest(areaCode, data, clock, f, w);
            |f| <= |o.forecasts| <= |f| + 1 && o.forecasts[..|f|] == f &&
            |o.weekly| >= |w| && o.weekly[..|w|] == w
    ensures var o := Ingest(areaCode, data, clock, f, w);
            (ForecastTableOk(f) ==> ForecastTableOk(o.forecasts)) && (WeeklyTableOk(w) ==> WeeklyTableOk(o.weekly))
  {
    if |data| > 0 {
      IngestStages(areaCode, data, clock, f, w);
      var s := ShortTermStage(areaCode, data, clock, f);
      if ShortTermOf(data[0]).Some? {
        ShortTermRecords(areaCode, ShortTermOf(data[0]).value, data[0].reportDatetime, clock, f);
      }
      if s.status.Ok? && WeeklyOf(data).Some? {
        var wi := WeeklyOf(data).value;
        var base := if s.status.value.0.Some? then 1 else 0;
        WeeklyRounds(areaCode, WeeklyEntries(wi), clock, base, w, |wi.timeDefines|);
        if WeeklyTableOk(w) {
          WeeklyRoundsKeepTable(areaCode, WeeklyEntries(wi), clock, base, w, |wi.timeDefines|);
        }
      }
    }
  }

  /**
   * A call that returns has today exactly when block 0 has a first area and a
   * first time; today's fields are index 0 of their lists or '', and exactly
   * its row, stamped clock(0), is added to forecasts; otherwise forecasts is
   * unchanged.
   */
  lemma IngestToday(areaCode: string, data: seq<Block>, clock: nat -> string, f: seq<ForecastRow>, w: seq<WeeklyRow>)
    requires Ingest(areaCode, data, clock, f, w).result.Ok?
    ensures var o := Ingest(areaCode, data, clock, f, w);
            o.result.value.today.Some? <==> HasToday(data)
    ensures var o := Ingest(areaCode, data, clock, f, w);
            HasToday(data) ==>
              var st := ShortTermOf(data[0]).value;
              var t := o.result.value.today.value;
              && t.date == DatePart(st.timeDefines[0])
              && t.weatherCode == At(st.area.weatherCodes, 0)
              && t.weatherText == At(st.area.weathers, 0)
              && t.wind == At(st.area.winds, 0)
              && t.tempMin == At(st.temps, 0)
              && t.tempMax == At(st.temps, 1)
              && TodayPop(st.pops) == Ok(t.pop)
              && o.forecasts == f + [TodayRow(|f| + 1, areaCode, t, data[0].reportDatetime, clock(0))]
    ensures var o := Ingest(areaCode, data, clock, f, w);
            !HasToday(data) ==> o.forecasts == f
  {
    if |data| > 0 {
      IngestStages(areaCode, data, clock, f, w);
      if ShortTermOf(data[0]).Some? {
        ShortTermRecords(areaCode, ShortTermOf(data[0]).value, data[0].reportDatetime, clock, f);
      }
    }
  }

  /**
   * A call that returns has tomorrow exactly when block 0 has a first area and
   * a second time; its fields are index 1 of their lists or '', and it is
   * never saved: forecasts gains at most today's row.
   */
  lemma IngestTomorrow(areaCode: string, data: seq<Block>, clock: nat -> string, f: seq<ForecastRow>, w: seq<WeeklyRow>)
    requires Ingest(areaCode, data, clock, f, w).result.Ok?
    ensures var o := Ingest(areaCode, data, clock, f, w);
            o.result.value.tomorrow.Some? <==> HasTomorrow(data)
    ensures var o := Ingest(areaCode, data, clock, f, w);
            HasTomorrow(data) ==>
              var st := ShortTermOf(data[0]).value;
              var t := o.result.value.tomorrow.value;
              && t.date == DatePart(st.timeDefines[1])
              && t.weatherCode == At(st.area.weatherCodes, 1)
              && t.weatherText == At(st.area.weathers, 1)
              && t.wind == At(st.area.winds, 1)
              && TomorrowPop(st.pops) == Ok(t.pop)
    ensures var o := Ingest(areaCode, data, clock, f, w);
            |o.forecasts| == |f| + (if HasToday(data) then 1 else 0)
  {
    IngestToday(areaCode, data, clock, f, w);
    if |data| > 0 {
      IngestStages(areaCode, data, clock, f, w);
      if ShortTermOf(data[0]).Some? {
        ShortTermRecords(areaCode, ShortTermOf(data[0]).value, data[0].reportDatetime, clock, f);
      }
    }
  }

  /**
   * A call that returns has one weekly record per time of block 1, in order,
   * record i built from index i of each list, and has added exactly their rows
   * to weekly_forecasts, row i stamped by the call's next save time; without
   * a usable block 1 the list is empty and the table unchanged.
   */
  lemma IngestWeekly(areaCode: string, data: seq<Block>, clock: nat -> string, f: seq<ForecastRow>, w: seq<WeeklyRow>)
    requires Ingest(areaCode, data, clock, f, w).result.Ok?
    ensures var o := Ingest(areaCode, data, clock, f, w);
            WeeklyOf(data).None? ==> o.result.value.weekly == [] && o.weekly == w
    ensures var o := Ingest(areaCode, data, clock, f, w);
            WeeklyOf(data).Some? ==>
              WeeklyAdded(areaCode, WeeklyOf(data).value, clock, if HasToday(data) then 1 else 0, w,
                          o.result.value.weekly, o.weekly)
  {
    if |data| > 0 {
      IngestStages(areaCode, data, clock, f, w);
      StageToday(areaCode, data, clock, f);
      var o := Ingest(areaCode, data, clock, f, w);
      var s := ShortTermStage(areaCode, data, clock, f);
      if WeeklyOf(data).Some? {
        var wi := WeeklyOf(data).value;
        var base := if HasToday(data) then 1 else 0;
        assert base == if s.status.value.0.Some? then 1 else 0;
        var p := SaveWeeklyRows(areaCode, WeeklyEntries(wi), clock, base, w, |wi.timeDefines|);
        assert o.weekly == p.table && o.result.value.weekly == p.entries;
        WeeklyLoopDone(areaCode, wi, clock, base, w);
      }
    }
  }

  /**
   * What the weekly part of a call that returns leaves: one record per time of
   * block 1, in order, record i built from index i of each list and dated by
   * the first 10 characters of time i, and the table w followed by exactly
   * their rows, row i stamped clock(base + i).
   */
  predicate WeeklyAdded(areaCode: string, wi: WeeklyInput, clock: nat -> string, base: nat, w: seq<WeeklyRow>,
                        es: seq<WeeklyEntry>, table: seq<WeeklyRow>)
  {
    && |es| == |wi.timeDefines|
    && |table| == |w| + |es| && table[..|w|] == w
    && forall i :: 0 <= i < |es| ==>
         && es[i] == WeeklyEntryAt(wi, i)
         && es[i].date == DatePart(wi.timeDefines[i])
         && table[|w| + i] == WeeklyRowOf(|w| + i + 1, areaCode, es[i], clock(base + i))
  }

  /** The whole weekly loop, when no save is refused, leaves every record and exactly their rows. */
  lemma WeeklyLoopDone(areaCode: string, wi: WeeklyInput, clock: nat -> string, base: nat, w: seq<WeeklyRow>)
    requires SaveWeeklyRows(areaCode, WeeklyEntries(wi), clock, base, w, |wi.timeDefines|).error.None?
    ensures var p := SaveWeeklyRows(areaCode, WeeklyEntries(wi), clock, base, w, |wi.timeDefines|);
            WeeklyAdded(areaCode, wi, clock, base, w, p.entries, p.table)
  {
    var es := WeeklyEntries(wi);
    WeeklyRounds(areaCode, es, clock, base, w, |wi.timeDefines|);
    var p := SaveWeeklyRows(areaCode, es, clock, base, w, |wi.timeDefines|);
    assert p.entries == es;
  }

  /** The short-term stage, when it succeeds, yields today exactly when HasToday holds. */
  lemma StageToday(areaCode: string, data: seq<Block>, clock: nat -> string, f: seq<ForecastRow>)
    requires |data| > 0
    ensures var s := ShortTermStage(areaCode, data, clock, f);
            s.status.Ok? ==> (s.status.value.0.Some? <==> HasToday(data))
  {
    if ShortTermOf(data[0]).Some? {
      ShortTermRecords(areaCode, ShortTermOf(data[0]).value, data[0].reportDatetime, clock, f);
    }
  }

  /** A call on a non-empty feed that returns reports block 0's reportDatetime, and the first area's name when there is one. */
  lemma IngestHeader(areaCode: string, data: seq<Block>, clock: nat -> string, f: seq<ForecastRow>, w: seq<WeeklyRow>)
    requires |data| > 0 && Ingest(areaCode, data, clock, f, w).result.Ok?
    ensures var o := Ingest(areaCode, data, clock, f, w);
            o.result.value.reportDatetime == Some(data[0].reportDatetime) &&
            o.result.value.areaName == if ShortTermOf(data[0]).Some? then Some(ShortTermOf(data[0]).value.area.name) else None
  {
  }

  /**
   * A call raises only for a reason: a non-empty pop that int() refuses, or a
   * row whose key is in the table the call leaves behind.
   */
  lemma IngestErrors(areaCode: string, data: seq<Block>, clock: nat -> string, f: seq<ForecastRow>, w: seq<WeeklyRow>)
    ensures var o := Ingest(areaCode, data, clock, f, w);
            o.result.Err? && o.result.error.NotAnInteger? ==>
              HasToday(data) &&
              var text := o.result.error.text;
              text != "" && !IsDecimal(text) && text in ShortTermOf(data[0]).value.pops
    ensures var o := Ingest(areaCode, data, clock, f, w);
            o.result.Err? && o.result.error.Rejected? ==>
              var k := o.result.error.cause;
              k.areaCode == areaCode &&
              (HasForecastKey(o.forecasts, areaCode, k.forecastDate, k.fetchedAt) ||
               HasWeeklyKey(o.weekly, areaCode, k.forecastDate, k.fetchedAt))
  {
    if |data| > 0 {
      IngestStages(areaCode, data, clock, f, w);
      var o := Ingest(areaCode, data, clock, f, w);
      var s := ShortTermStage(areaCode, data, clock, f);
      if s.status.Err? {
        var st := ShortTermOf(data[0]).value;
        if o.result.error.NotAnInteger? {
          var text := o.result.error.text;
          if TodayPop(st.pops).Err? {
            SliceMember(st.pops, 0, 4, text);
          } else {
            SliceMember(st.pops, 4, 8, text);
          }
        }
      } else if WeeklyOf(data).Some? {
        var wi := WeeklyOf(data).value;
        WeeklyClash(areaCode, WeeklyEntries(wi), clock, if s.status.value.0.Some? then 1 else 0, w, |wi.timeDefines|);
      }
    }
  }

  lemma SliceMember(s: seq<string>, a: nat, b: nat, x: string)
    requires a <= b && x in Slice(s, a, b)
    ensures x in s
  {
    var i :| 0 <= i < |Slice(s, a, b)| && Slice(s, a, b)[i] == x;
    assert s[a + i] == x;
  }

  /**
   * With pops int() accepts and write keys that are fresh, a call returns,
   * whatever the clock reads: today's (area_code, forecast_date, fetched_at)
   * is not in forecasts, and the weekly keys are pairwise distinct and not in
   * weekly_forecasts. Saves within one second share a stamp, so it is the
   * dates that keep such keys apart.
   */
  lemma IngestFreshSucceeds(areaCode: string, data: seq<Block>, clock: nat -> string, f: seq<ForecastRow>, w: seq<WeeklyRow>)
    requires |data| > 0 && ShortTermOf(data[0]).Some? ==> AllParse(ShortTermOf(data[0]).value.pops)
    requires HasToday(data) ==> !HasForecastKey(f, areaCode, DatePart(ShortTermOf(data[0]).value.timeDefines[0]), clock(0))
    requires WeeklyOf(data).Some? ==>
               WeeklyKeysFresh(areaCode, WeeklyEntries(WeeklyOf(data).value), clock, if HasToday(data) then 1 else 0, w,
                               |WeeklyOf(data).value.timeDefines|)
    ensures Ingest(areaCode, data, clock, f, w).result.Ok?
  {
    if |data| > 0 {
      IngestStages(areaCode, data, clock, f, w);
      StageToday(areaCode, data, clock, f);
      var s := ShortTermStage(areaCode, data, clock, f);
      if ShortTermOf(data[0]).Some? {
        var st := ShortTermOf(data[0]).value;
        SliceAllParse(st.pops, 0, 4);
        SliceAllParse(st.pops, 4, 8);
        assert s.status.Ok?;
      }
      if WeeklyOf(data).Some? {
        var wi := WeeklyOf(data).value;
        assert (if s.status.value.0.Some? then 1 else 0) == (if HasToday(data) then 1 else 0);
        FreshWeeklyRounds(areaCode, WeeklyEntries(wi), clock, if HasToday(data) then 1 else 0, w, |wi.timeDefines|);
      }
    }
  }

  /**
   * Conversely, a call that returns wrote fresh keys: today's key was not in
   * forecasts, and the weekly keys are pairwise distinct and were not in
   * weekly_forecasts.
   */
  lemma IngestKeysFresh(areaCode: string, data: seq<Block>, clock: nat -> string, f: seq<ForecastRow>, w: seq<WeeklyRow>)
    requires Ingest(areaCode, data, clock, f, w).result.Ok?
    ensures HasToday(data) ==> !HasForecastKey(f, areaCode, DatePart(ShortTermOf(data[0]).value.timeDefines[0]), clock(0))
    ensures WeeklyOf(data).Some? ==>
              WeeklyKeysFresh(areaCode, WeeklyEntries(WeeklyOf(data).value), clock, if HasToday(data) then 1 else 0, w,
                              |WeeklyOf(data).value.timeDefines|)
  {
    if |data| > 0 {
      IngestStages(areaCode, data, clock, f, w);
      StageToday(areaCode, data, clock, f);
      var s := ShortTermStage(areaCode, data, clock, f);
      if WeeklyOf(data).Some? {
        var wi := WeeklyOf(data).value;
        assert (if s.status.value.0.Some? then 1 else 0) == (if HasToday(data) then 1 else 0);
        AcceptedWeeklyRounds(areaCode, WeeklyEntries(wi), clock, if HasToday(data) then 1 else 0, w, |wi.timeDefines|);
      }
    }
  }

  lemma SliceAllParse(s: seq<string>, a: nat, b: nat)
    requires a <= b && AllParse(s)
    ensures AllParse(Slice(s, a, b))
  {
    forall i | 0 <= i < |Slice(s, a, b)| && Slice(s, a, b)[i] != ""
      ensures IsDecimal(Slice(s, a, b)[i])
    {
      assert Slice(s, a, b)[i] == s[a + i];
    }
  }

  /**
   * The keys the first n weekly rounds write, (areaCode, es[i].date,
   * clock(base + i)), are not in table t and no two of them are equal.
   */
  predicate WeeklyKeysFresh(areaCode: string, es: seq<WeeklyEntry>, clock: nat -> string, base: nat,
                            t: seq<WeeklyRow>, n: nat)
  {
    && n <= |es|
    && (forall i :: 0 <= i < n ==> !HasWeeklyKey(t, areaCode, es[i].date, clock(base + i)))
    && (forall i, j :: 0 <= i < j < n ==> es[i].date != es[j].date || clock(base + i) != clock(base + j))
  }

  /** Weekly rounds whose keys are fresh are never refused. */
  lemma {:induction false} FreshWeeklyRounds(areaCode: string, es: seq<WeeklyEntry>, clock: nat -> string, base: nat,
                                             t: seq<WeeklyRow>, n: nat)
    requires WeeklyKeysFresh(areaCode, es, clock, base, t, n)
    ensures SaveWeeklyRows(areaCode, es, clock, base, t, n).error.None?
    decreases n
  {
    if n > 0 {
      assert WeeklyKeysFresh(areaCode, es, clock, base, t, n - 1);
      FreshWeeklyRounds(areaCode, es, clock, base, t, n - 1);
      WeeklyRounds(areaCode, es, clock, base, t, n - 1);
      FreshRound(areaCode, es, clock, base, t, SaveWeeklyRows(areaCode, es, clock, base, t, n - 1), n - 1);
    }
  }

  /** Conversely, weekly rounds that are all accepted wrote fresh keys. */
  lemma {:induction false} AcceptedWeeklyRounds(areaCode: string, es: seq<WeeklyEntry>, clock: nat -> string, base: nat,
                                                t: seq<WeeklyRow>, n: nat)
    requires n <= |es| && SaveWeeklyRows(areaCode, es, clock, base, t, n).error.None?
    ensures WeeklyKeysFresh(areaCode, es, clock, base, t, n)
    decreases n
  {
    if n > 0 {
      var p := SaveWeeklyRows(areaCode, es, clock, base, t, n - 1);
      assert p.error.None?;
      AcceptedWeeklyRounds(areaCode, es, clock, base, t, n - 1);
      WeeklyRounds(areaCode, es, clock, base, t, n - 1);
      var k := n - 1;
      assert !HasWeeklyKey(p.table, areaCode, es[k].date, clock(base + k));
      forall x | x in t
        ensures !(x.areaCode == areaCode && x.forecastDate == es[k].date && x.fetchedAt == clock(base + k))
      {
        var j :| 0 <= j < |t| && t[j] == x;
        assert p.table[j] == p.table[..|t|][j];
      }
      forall i | 0 <= i < k
        ensures es[i].date != es[k].date || clock(base + i) != clock(base + k)
      {
        assert p.table[|t| + i] in p.table;
      }
    }
  }

  lemma FreshRound(areaCode: string, es: seq<WeeklyEntry>, clock: nat -> string, base: nat,
                   t: seq<WeeklyRow>, p: WeeklyProgress, k: nat)
    requires k < |es| && RoundsDone(areaCode, es, clock, base, t, k, p) && p.error.None?
    requires WeeklyKeysFresh(areaCode, es, clock, base, t, k + 1)
    ensures WeeklyRound(areaCode, es, clock, base, p, k).error.None?
  {
    var date, stamp := es[k].date, clock(base + k);
    forall x | x in p.table
      ensures !(x.areaCode == areaCode && x.forecastDate == date && x.fetchedAt == stamp)
    {
      var j :| 0 <= j < |p.table| && p.table[j] == x;
      if j < |t| {
        assert p.table[..|t|][j] == x;
        assert x in t;
      } else {
        var i := j - |t|;
        assert p.table[|t| + i] == WeeklyRowOf(|t| + i + 1, areaCode, es[i], clock(base + i));
        assert es[i].date != es[k].date || clock(base + i) != clock(base + k);
      }
    }
    assert !HasWeeklyKey(p.table, areaCode, date, stamp);
  }

  // ------------------------------------------------------- the call

  /** The short-term part of parse_and_save_forecast against db: today's record saved, tomorrow's built. */
  method SaveShortTerm(db: Database, areaCode: string, s: ShortTermInput, reportDatetime: string, clock: nat -> string)
    returns (status: Result<(Option<Today>, Option<Tomorrow>), IngestError>)
    requires db.Valid()
    modifies db
    ensures db.Valid()
    ensures db.areas == old(db.areas) && db.weekly == old(db.weekly)
    ensures var o := ShortTerm(areaCode, s, reportDatetime, clock, old(db.forecasts));
            status == o.status && db.forecasts == o.forecasts
  {
    var today: Option<Today> := None;
    var tomorrow: Option<Tomorrow> := None;
    if |s.timeDefines| > 0 {
      var pop := TodayPop(s.pops);
      if pop.Err? {
        return Err(NotAnInteger(pop.error));
      }
      var t := TodayRecord(s, pop.value);
      var saved := db.SaveForecast(areaCode, t.date, t.weatherCode, t.weatherText, t.tempMin, t.tempMax,
                                   PopText(t.pop), t.wind, reportDatetime, clock(0));
      if saved.Err? {
        return Err(Rejected(saved.error));
      }
      today := Some(t);
    }
    if |s.timeDefines| > 1 {
      var pop := TomorrowPop(s.pops);
      if pop.Err? {
        return Err(NotAnInteger(pop.error));
      }
      tomorrow := Some(TomorrowRecord(s, pop.value));
    }
    return Ok((today, tomorrow));
  }

  /** One save_weekly_forecast call of the weekly loop, for record e stamped fetchedAt. */
  method SaveWeeklyEntry(db: Database, areaCode: string, e: WeeklyEntry, fetchedAt: string)
    returns (saved: Result<(), StoreError>)
    requires db.Valid()
    modifies db
    ensures db.Valid()
    ensures db.areas == old(db.areas) && db.forecasts == old(db.forecasts)
    ensures match AppendWeekly(old(db.weekly), areaCode, e, fetchedAt)
            case Ok(t) => saved == Ok(()) && db.weekly == t
            case Err(err) => saved == Err(err) && db.weekly == old(db.weekly)
  {
    saved := db.SaveWeeklyForecast(areaCode, e.date, e.weatherCode, e.pop, e.tempMin, e.tempMax,
                                   e.reliability, fetchedAt);
  }

  /**
   * Round i of the weekly loop: build record i of block 1, save it stamped
   * clock(base + i) and, when the save goes through, append it.
   */
  method SaveWeeklyRound(db: Database, areaCode: string, w: WeeklyInput, clock: nat -> string, base: nat,
                         ghost t: seq<WeeklyRow>, i: nat, entries: seq<WeeklyEntry>)
    returns (entries': seq<WeeklyEntry>, error: Option<StoreError>)
    requires i < |w.timeDefines| && db.Valid()
    requires SaveWeeklyRows(areaCode, WeeklyEntries(w), clock, base, t, i) == WeeklyProgress(entries, db.weekly, None)
    modifies db
    ensures db.Valid()
    ensures db.areas == old(db.areas) && db.forecasts == old(db.forecasts)
    ensures SaveWeeklyRows(areaCode, WeeklyEntries(w), clock, base, t, i + 1) == WeeklyProgress(entries', db.weekly, error)
  {
    var e := WeeklyEntryAt(w, i);
    var saved := SaveWeeklyEntry(db, areaCode, e, clock(base + i));
    if saved.Err? {
      entries', error := entries, Some(saved.error);
    } else {
      entries', error := entries + [e], None;
    }
  }

  /**
   * The weekly loop of parse_and_save_forecast against db: for each time of
   * block 1, save its record stamped clock(base + i), then append it; a
   * refused save ends the loop.
   */
  method SaveWeekly(db: Database, areaCode: string, w: WeeklyInput, clock: nat -> string, base: nat)
    returns (entries: seq<WeeklyEntry>, error: Option<StoreError>)
    requires db.Valid()
    modifies db
    ensures db.Valid()
    ensures db.areas == old(db.areas) && db.forecasts == old(db.forecasts)
    ensures SaveWeeklyRows(areaCode, WeeklyEntries(w), clock, base, old(db.weekly), |w.timeDefines|) ==
            WeeklyProgress(entries, db.weekly, error)
  {
    entries := [];
    error := None;
    var i := 0;
    while i < |w.timeDefines| && error.None?
      invariant 0 <= i <= |w.timeDefines|
      invariant db.Valid()
      invariant db.areas == old(db.areas) && db.forecasts == old(db.forecasts)
      invariant SaveWeeklyRows(areaCode, WeeklyEntries(w), clock, base, old(db.weekly), i) == WeeklyProgress(entries, db.weekly, error)
    {
      entries, error := SaveWeeklyRound(db, areaCode, w, clock, base, old(db.weekly), i, entries);
      i := i + 1;
    }
    if error.Some? {
      WeeklyErrorSticks(areaCode, WeeklyEntries(w), clock, base, old(db.weekly), i, |w.timeDefines|);
    }
  }

  /**
   * parse_and_save_forecast against db: today's save reads clock(0) and the
   * weekly saves read the next clock values in turn. A raised exception is an
   * Err; the writes made before it stay in db.
   */
  method ParseAndSaveForecast(db: Database, areaCode: string, data: seq<Block>, clock: nat -> string)
    returns (res: Result<ForecastResult, IngestError>)
    requires db.Valid()
    modifies db
    ensures db.Valid()
    ensures db.areas == old(db.areas)
    ensures var o := Ingest(areaCode, data, clock, old(db.forecasts), old(db.weekly));
            res == o.result && db.forecasts == o.forecasts && db.weekly == o.weekly
  {
    if |data| < 1 {
      return Ok(NoForecast);
    }
    var forecast := data[0];
    var reportDatetime := forecast.reportDatetime;
    var today: Option<Today> := None;
    var tomorrow: Option<Tomorrow> := None;
    var areaName: Option<string> := None;

    var st := ShortTermOf(forecast);
    if st.Some? {
      areaName := Some(st.value.area.name);
      var status := SaveShortTerm(db, areaCode, st.value, reportDatetime, clock);
      if status.Err? {
        return Err(status.error);
      }
      today := status.value.0;
      tomorrow := status.value.1;
    }

    var weekly: seq<WeeklyEntry> := [];
    var wi := WeeklyOf(data);
    if wi.Some? {
      var error;
      weekly, error := SaveWeekly(db, areaCode, wi.value, clock, if today.Some? then 1 else 0);
      if error.Some? {
        return Err(Rejected(error.value));
      }
    }
    return Ok(ForecastResult(today, tomorrow, weekly, Some(reportDatetime), areaName));
  }
}
