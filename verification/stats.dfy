/**
 * The summary statistics of bikeshare.py:393-557 over a non-empty filtered
 * view: the most frequent value of a column (`value_counts().idxmax()`),
 * the busiest start hour in 12-hour form, the most common journey, the
 * trip durations and the rider columns.
 */
module Stats {
  import opened Wrappers
  import opened Text
  import opened Calendar
  import opened TripData

  // ---- value_counts and idxmax ----------------------------------------------

  function Count<T(==)>(s: seq<T>, x: T): (n: nat)
  {
    multiset(s)[x]
  }

  /** `v` occurs in `s`, and no value occurs more often. */
  ghost predicate IsModal<T(!new)>(s: seq<T>, v: T)
  {
    v in s && forall x :: Count(s, x) <= Count(s, v)
  }

  /** `pd.Series(s).value_counts()`: each value that occurs, with the number of times it does. */
  function ValueCounts<T(==,!new)>(s: seq<T>): (m: map<T, nat>)
    ensures forall x :: x in m <==> x in s
    ensures forall x :: x in m ==> m[x] == Count(s, x)
  {
    if s == [] then map[]
    else
      var m := ValueCounts(s[1..]);
      assert s == [s[0]] + s[1..];
      m[s[0] := (if s[0] in m then m[s[0]] else 0) + 1]
  }

  /** A candidate whose count in `s` no other candidate exceeds. */
  function ModeAmong<T(==,!new)>(s: seq<T>, candidates: seq<T>): (v: T)
    requires |candidates| > 0
    ensures v in candidates
    ensures forall j :: 0 <= j < |candidates| ==> Count(s, candidates[j]) <= Count(s, v)
  {
    if |candidates| == 1 then candidates[0]
    else
      var v := ModeAmong(s, candidates[1..]);
      if Count(s, candidates[0]) >= Count(s, v) then candidates[0] else v
  }

  /**
   * `value_counts().idxmax()`: a most frequent value. Which of several
   * equally frequent values pandas returns is not specified, so only the
   * maximal count is promised.
   */
  function Mode<T(==,!new)>(s: seq<T>): (v: T)
    requires |s| > 0
    ensures IsModal(s, v)
  {
    ModeAmong(s, s)
  }

  /** The mode is the key of `value_counts()` with the largest count. */
  lemma ModeIsIdxMax<T(!new)>(s: seq<T>)
    requires |s| > 0
    ensures var counts := ValueCounts(s);
            Mode(s) in counts && forall x :: x in counts ==> counts[x] <= counts[Mode(s)]
  {
  }

  // ---- columns of the view --------------------------------------------------

  function Months(rows: seq<Trip>): (column: seq<int>) { seq(|rows|, i requires 0 <= i < |rows| => rows[i].month) }

  function Weekdays(rows: seq<Trip>): (column: seq<string>) { seq(|rows|, i requires 0 <= i < |rows| => rows[i].weekday) }

  function Hours(rows: seq<Trip>): (column: seq<int>) { seq(|rows|, i requires 0 <= i < |rows| => rows[i].hour) }

  function StartStations(rows: seq<Trip>): (column: seq<string>) { seq(|rows|, i requires 0 <= i < |rows| => rows[i].startStation) }

  function EndStations(rows: seq<Trip>): (column: seq<string>) { seq(|rows|, i requires 0 <= i < |rows| => rows[i].endStation) }

  function Durations(rows: seq<Trip>): (column: seq<nat>) { seq(|rows|, i requires 0 <= i < |rows| => rows[i].duration) }

  /** The values of a column with its empty cells dropped, as `value_counts()`, `min()` and `max()` skip them. */
  function Present<T(==,!new)>(s: seq<Option<T>>): (r: seq<T>)
    ensures forall x :: x in r <==> Some(x) in s
    ensures forall x :: multiset(r)[x] == multiset(s)[Some(x)]
  {
    if s == [] then []
    else
      assert s == [s[0]] + s[1..];
      var head := if s[0].Some? then [s[0].value] else [];
      assert forall x :: multiset(head)[x] == multiset([s[0]])[Some(x)];
      head + Present(s[1..])
  }

  function UserTypes(rows: seq<Trip>): (column: seq<string>) { Present(seq(|rows|, i requires 0 <= i < |rows| => rows[i].userType)) }

  function Genders(rows: seq<Trip>): (column: seq<string>) { Present(seq(|rows|, i requires 0 <= i < |rows| => rows[i].gender)) }

  function BirthYears(rows: seq<Trip>): (column: seq<int>) { Present(seq(|rows|, i requires 0 <= i < |rows| => rows[i].birthYear)) }

  // ---- time_stats -------------------------------------------------------------

  /** The busiest start hour as printed: `"<h> am"` before noon, `"12 pm"`, then `"<h-12> pm"`. */
  function HourLabel(h: int): (hourText: string)
    requires 0 <= h <= 23
    ensures |hourText| >= 4 && 0 <= ParseDecimal(hourText[..|hourText| - 3]) <= 12
    ensures hourText[|hourText| - 3..] == (if h < 12 then " am" else " pm")
    ensures AllDigits(hourText[..|hourText| - 3])
    ensures ParseDecimal(hourText[..|hourText| - 3]) == (if h > 12 then h - 12 else h)
    ensures hourText[..|hourText| - 3] == DecimalString(if h > 12 then h - 12 else h)
  {
    var shown := if h > 12 then h - 12 else h;
    var suffix := if h < 12 then " am" else " pm";
    assert (DecimalString(shown) + suffix)[..|DecimalString(shown) + suffix| - 3] == DecimalString(shown);
    assert (DecimalString(shown) + suffix)[|DecimalString(shown) + suffix| - 3..] == suffix;
    DecimalRoundTrip(shown);
    DecimalString(shown) + suffix
  }

  /** Reads a 12-hour label back into the hour of the day it names. */
  function ParseHourLabel(text: string): (h: int)
    requires |text| >= 3
  {
    var n := ParseDecimal(text[..|text| - 3]);
    if text[|text| - 3..] == " am" then n else if n == 12 then 12 else n + 12
  }

  /** No two hours share a label: the 12-hour form loses nothing. */
  lemma HourLabelRoundTrip(h: int)
    requires 0 <= h <= 23
    ensures ParseHourLabel(HourLabel(h)) == h
  {
    var shown := if h > 12 then h - 12 else h;
    var suffix := if h < 12 then " am" else " pm";
    var hourText := DecimalString(shown) + suffix;
    assert hourText[..|hourText| - 3] == DecimalString(shown) && hourText[|hourText| - 3..] == suffix;
    DecimalRoundTrip(shown);
  }

  datatype TimeSummary = TimeSummary(busiestMonth: Option<string>, busiestWeekday: Option<string>, busiestHour: string)

  /**
   * `time_stats(df, month, day)`: the busiest month (through `month_num2name`)
   * unless one month was chosen, the busiest weekday unless one day was
   * chosen, and always the busiest start hour.
   */
  function TimeStatsOf(rows: seq<Trip>, month: string, day: string): (r: TimeSummary)
    requires |rows| > 0 && AllWellFormed(rows)
    ensures r.busiestMonth.Some? <==> month == "all"
    ensures r.busiestMonth.Some? ==>
              exists m :: IsModal(Months(rows), m) && 1 <= m <= 12 && r.busiestMonth.value == MonthNum2Name(m)
    ensures r.busiestWeekday.Some? <==> day == "all"
    ensures r.busiestWeekday.Some? ==> IsModal(Weekdays(rows), r.busiestWeekday.value)
    ensures exists h :: IsModal(Hours(rows), h) && 0 <= h <= 23 && r.busiestHour == HourLabel(h)
  {
    var m := Mode(Months(rows));
    var h := Mode(Hours(rows));
    assert 1 <= m <= 12 && 0 <= h <= 23 by {
      assert m in Months(rows) && h in Hours(rows);
    }
    TimeSummary(
      if month == "all" then Some(MonthNum2Name(m)) else None,
      if day == "all" then Some(Mode(Weekdays(rows))) else None,
      HourLabel(h))
  }

  // ---- station_stats --------------------------------------------------------------

  /** The 'Start+End Stations' value of a trip: `'%s to %s' % (start, end)`. */
  function JourneyKey(start: string, end: string): (k: string)
    ensures |k| == |start| + 4 + |end|
    ensures k[..|start|] == start && k[|start|..|start| + 4] == " to " && k[|start| + 4..] == end
  {
    start + " to " + end
  }

  function Journeys(rows: seq<Trip>): (column: seq<string>)
  {
    seq(|rows|, i requires 0 <= i < |rows| => JourneyKey(rows[i].startStation, rows[i].endStation))
  }

  datatype StationSummary = StationSummary(topStart: string, topEnd: string, topJourney: string)

  /** `station_stats(df)`: the most frequent start station, end station and journey. */
  function StationStatsOf(rows: seq<Trip>): (r: StationSummary)
    requires |rows| > 0
    ensures IsModal(StartStations(rows), r.topStart) && IsModal(EndStations(rows), r.topEnd)
    ensures IsModal(Journeys(rows), r.topJourney)
    ensures exists i :: 0 <= i < |rows| && r.topJourney == JourneyKey(rows[i].startStation, rows[i].endStation)
  {
    var journey := Mode(Journeys(rows));
    assert journey in Journeys(rows);
    StationSummary(Mode(StartStations(rows)), Mode(EndStations(rows)), journey)
  }

  // ---- trip_duration_stats -------------------------------------------------------

  function Sum(s: seq<nat>): (total: nat)
  {
    if s == [] then 0 else s[0] + Sum(s[1..])
  }

  /** numpy's `round()` of `num / den`: to the nearest integer, a tie to the even one. */
  function RoundHalfEven(num: nat, den: nat): (r: nat)
    requires den > 0
    ensures r * den <= num ==> 2 * (num - r * den) <= den
    ensures r * den >= num ==> 2 * (r * den - num) <= den
    ensures 2 * (num - r * den) == den || 2 * (r * den - num) == den ==> r % 2 == 0
  {
    var q, rem := num / den, num % den;
    assert num == q * den + rem;
    assert (q + 1) * den == q * den + den;
    if 2 * rem < den then q
    else if 2 * rem > den then q + 1
    else if q % 2 == 0 then q
    else q + 1
  }

  datatype DurationSummary = DurationSummary(total: string, mean: string)

  /**
   * `trip_duration_stats(df)`: the total and the mean duration, each rounded
   * to whole seconds and rendered as a `timedelta`; both read back to the
   * exact total and to the mean rounded to the nearest second.
   */
  function DurationStatsOf(rows: seq<Trip>): (r: DurationSummary)
    requires |rows| > 0
    ensures r.total == Clock(Sum(Durations(rows)))
    ensures r.mean == Clock(RoundHalfEven(Sum(Durations(rows)), |rows|))
    ensures |r.total| >= 6 && ParseClock(r.total) == Sum(Durations(rows))
    ensures |r.mean| >= 6
    ensures var n, m := |rows|, ParseClock(r.mean);
            2 * (Sum(Durations(rows)) - m * n) <= n && 2 * (m * n - Sum(Durations(rows))) <= n
  {
    var total := Sum(Durations(rows));
    var mean := RoundHalfEven(total, |rows|);
    ClockRoundTrip(total);
    ClockRoundTrip(mean);
    DurationSummary(Clock(total), Clock(mean))
  }

  // ---- user_stats ---------------------------------------------------------------------

  /** What `df_column_items_dist_print` shows: the value counts, or a notice that the column is missing. */
  datatype Distribution = Counts(counts: map<string, nat>) | NotAvailable

  function ColumnDistribution(columns: seq<string>, name: string, values: seq<string>): (d: Distribution)
    ensures d.NotAvailable? <==> name !in columns
    ensures d.Counts? ==> forall v :: v in d.counts <==> v in values
    ensures d.Counts? ==> forall v :: v in d.counts ==> d.counts[v] == Count(values, v)
  {
    if name in columns then Counts(ValueCounts(values)) else NotAvailable
  }

  function Min(s: seq<int>): (m: int)
    requires |s| > 0
    ensures m in s && forall x :: x in s ==> m <= x
  {
    if |s| == 1 then s[0]
    else
      assert s == [s[0]] + s[1..];
      var m := Min(s[1..]); if s[0] <= m then s[0] else m
  }

  function Max(s: seq<int>): (m: int)
    requires |s| > 0
    ensures m in s && forall x :: x in s ==> x <= m
  {
    if |s| == 1 then s[0]
    else
      assert s == [s[0]] + s[1..];
      var m := Max(s[1..]); if s[0] >= m then s[0] else m
  }

  /**
   * The birth-year part of `user_stats`. `NoYearColumn` is the "no rider age
   * data" notice; `NoYearValues` is a column with every cell empty, where
   * the source's `floor` of a NaN minimum raises `ValueError`.
   */
  datatype BirthYearSummary = Years(oldest: int, youngest: int, common: int) | NoYearColumn | NoYearValues

  function BirthYearStatsOf(columns: seq<string>, rows: seq<Trip>): (r: BirthYearSummary)
    ensures r.NoYearColumn? <==> "Birth Year" !in columns
    ensures r.NoYearValues? <==> "Birth Year" in columns && BirthYears(rows) == []
    ensures r.Years? ==> r.oldest <= r.common <= r.youngest
    ensures r.Years? ==> forall y :: y in BirthYears(rows) ==> r.oldest <= y <= r.youngest
    ensures r.Years? ==> r.oldest in BirthYears(rows) && r.youngest in BirthYears(rows)
    ensures r.Years? ==> IsModal(BirthYears(rows), r.common)
  {
    var years := BirthYears(rows);
    if "Birth Year" !in columns then NoYearColumn
    else if years == [] then NoYearValues
    else Years(Min(years), Max(years), Mode(years))
  }

  datatype RiderSummary = RiderSummary(userTypes: Distribution, genders: Distribution, weekdays: Distribution,
                                       birthYears: BirthYearSummary)

  /** `user_stats(df, day)`: both branches on `day` print the same weekday distribution. */
  function UserStatsOf(columns: seq<string>, rows: seq<Trip>): (r: RiderSummary)
    ensures r.userTypes.NotAvailable? <==> "User Type" !in columns
    ensures r.genders.NotAvailable? <==> "Gender" !in columns
    ensures r.weekdays.NotAvailable? <==> "Weekday Name" !in columns
    ensures r.genders.Counts? ==> r.genders.counts == ValueCounts(Genders(rows))
    ensures r.userTypes.Counts? ==> r.userTypes.counts == ValueCounts(UserTypes(rows))
    ensures r.weekdays.Counts? ==> r.weekdays.counts == ValueCounts(Weekdays(rows))
    ensures r.birthYears == BirthYearStatsOf(columns, rows)
  {
    RiderSummary(
      ColumnDistribution(columns, "User Type", UserTypes(rows)),
      ColumnDistribution(columns, "Gender", Genders(rows)),
      ColumnDistribution(columns, "Weekday Name", Weekdays(rows)),
      BirthYearStatsOf(columns, rows))
  }

  // ---- print_summary_stats over the frame ------------------------------------------

  datatype Summary = Summary(time: TimeSummary, stations: StationSummary, durations: DurationSummary, riders: RiderSummary)

  /** The four groups in the order `print_summary_stats` prints them, each seeing the columns added before it. */
  function SummaryOf(columns: seq<string>, rows: seq<Trip>, month: string, day: string): (r: Summary)
    requires |rows| > 0 && AllWellFormed(rows)
  {
    Summary(TimeStatsOf(rows, month, day), StationStatsOf(rows), DurationStatsOf(rows),
            UserStatsOf(WithColumn(WithColumn(columns, "Start Hour"), "Start+End Stations"), rows))
  }

  /** `time_stats(df, month, day)`, which also adds the 'Start Hour' column to the frame. */
  method TimeStats(df: Frame, month: string, day: string) returns (r: TimeSummary)
    requires |df.rows| > 0 && AllWellFormed(df.rows)
    modifies df
    ensures df.columns == WithColumn(old(df.columns), "Start Hour") && df.rows == old(df.rows)
    ensures r == TimeStatsOf(df.rows, month, day)
  {
    df.AddColumn("Start Hour");
    r := TimeStatsOf(df.rows, month, day);
  }

  /** `station_stats(df)`, which also adds the 'Start+End Stations' column to the frame. */
  method StationStats(df: Frame) returns (r: StationSummary)
    requires |df.rows| > 0
    modifies df
    ensures df.columns == WithColumn(old(df.columns), "Start+End Stations") && df.rows == old(df.rows)
    ensures r == StationStatsOf(df.rows)
  {
    df.AddColumn("Start+End Stations");
    r := StationStatsOf(df.rows);
  }

  /** `print_summary_stats(df, month, day)` */
  method PrintSummaryStats(df: Frame, month: string, day: string) returns (r: Summary)
    requires |df.rows| > 0 && AllWellFormed(df.rows)
    modifies df
    ensures df.rows == old(df.rows)
    ensures df.columns == WithColumn(WithColumn(old(df.columns), "Start Hour"), "Start+End Stations")
    ensures r == SummaryOf(old(df.columns), df.rows, month, day)
  {
    var time := TimeStats(df, month, day);
    var stations := StationStats(df);
    r := Summary(time, stations, DurationStatsOf(df.rows), UserStatsOf(df.columns, df.rows));
  }

  /** Three trips of 60 seconds each: the total reads "0:03:00" and the mean "0:01:00". */
  lemma ThreeOneMinuteTrips(t: Trip)
    requires t.duration == 60
    ensures DurationStatsOf([t, t, t]) == DurationSummary("0:03:00", "0:01:00")
  {
    assert Durations([t, t, t]) == [60, 60, 60];
    assert Sum([60, 60, 60]) == 180 by {
      assert [60, 60, 60][1..] == [60, 60] && [60, 60][1..] == [60];
    }
    assert RoundHalfEven(180, 3) == 60;
    ClockExamples();
  }
}
