/**
 * Trip rows, the data frame that holds them, and the filter step of
 * `update_df_columns` (bikeshare.py:352-390). Reading the CSV file and
 * deriving the month, weekday and hour from the start time are done by
 * pandas; a `Trip` carries those derived values already.
 */
module TripData {
  import opened Wrappers
  import opened Text
  import opened Calendar

  /** One row of a city's data, with the columns derived from `Start Time` already computed. */
  datatype Trip = Trip(
    month: int,                // 'Month Number', the start time's month
    weekday: string,           // 'Weekday Name', the start time's `day_name()`
    hour: int,                 // the start time's hour, later the 'Start Hour' column
    startStation: string,
    endStation: string,
    duration: nat,             // 'Trip Duration' in whole seconds
    userType: Option<string>,  // None where the CSV cell is empty
    gender: Option<string>,
    birthYear: Option<int>)

  /** What pandas guarantees of the derived values. */
  predicate WellFormed(t: Trip)
  {
    1 <= t.month <= 12 && t.weekday in DayNames && 0 <= t.hour <= 23
  }

  predicate AllWellFormed(rows: seq<Trip>)
  {
    forall i :: 0 <= i < |rows| ==> WellFormed(rows[i])
  }

  // ---- boolean-mask selection `df[mask]` -----------------------------------

  /** The rows of `s` for which `keep` holds, in their original order. */
  function Filter<T(!new)>(s: seq<T>, keep: T -> bool): (r: seq<T>)
    ensures |r| <= |s|
    ensures forall x :: x in r <==> x in s && keep(x)
    ensures forall x :: multiset(r)[x] == if keep(x) then multiset(s)[x] else 0
  {
    if s == [] then []
    else
      assert s == [s[0]] + s[1..];
      (if keep(s[0]) then [s[0]] else []) + Filter(s[1..], keep)
  }

  /** `r` is `s` with some elements left out and the rest in their order. */
  ghost predicate Subsequence<T>(r: seq<T>, s: seq<T>)
    decreases |s|
  {
    r == [] || (s != [] && if r[0] == s[0] then Subsequence(r[1..], s[1..]) else Subsequence(r, s[1..]))
  }

  /** Selection keeps the original order: the result is a subsequence. */
  lemma {:induction false} FilterSubsequence<T(!new)>(s: seq<T>, keep: T -> bool)
    ensures Subsequence(Filter(s, keep), s)
  {
    if s != [] {
      FilterSubsequence(s[1..], keep);
      var rest := Filter(s[1..], keep);
      if keep(s[0]) {
        assert Filter(s, keep) == [s[0]] + rest;
        assert ([s[0]] + rest)[1..] == rest;
      } else {
        assert Filter(s, keep) == rest;
        if rest != [] && rest[0] == s[0] {
          assert false;
        }
      }
    }
  }

  /** Selecting by a condition that every row meets returns the rows unchanged. */
  lemma {:induction false} FilterAll<T(!new)>(s: seq<T>, keep: T -> bool)
    requires forall x :: x in s ==> keep(x)
    ensures Filter(s, keep) == s
  {
    if s != [] {
      FilterAll(s[1..], keep);
    }
  }

  /** Selecting by `p` and then by `q` is selecting once by their conjunction. */
  lemma {:induction false} FilterTwice<T(!new)>(s: seq<T>, p: T -> bool, q: T -> bool, both: T -> bool)
    requires forall x :: x in s ==> both(x) == (p(x) && q(x))
    ensures Filter(Filter(s, p), q) == Filter(s, both)
  {
    if s != [] {
      FilterTwice(s[1..], p, q, both);
      var fp := Filter(s, p);
      var tail := Filter(Filter(s[1..], p), q);
      if p(s[0]) {
        assert fp == [s[0]] + Filter(s[1..], p);
        assert fp[0] == s[0] && fp[1..] == Filter(s[1..], p);
        assert Filter(fp, q) == (if q(s[0]) then [s[0]] else []) + tail;
      } else {
        assert fp == Filter(s[1..], p);
      }
      assert Filter(s, both) == (if both(s[0]) then [s[0]] else []) + Filter(s[1..], both);
    }
  }

  // ---- the filter of update_df_columns --------------------------------------

  /** The month and weekday arguments that `update_df_columns` can look up without raising. */
  predicate ValidFilters(month: string, day: string)
  {
    (month == "all" || TitleCase(month) in MonthAbbrs) && (day == "all" || day in DayAbbrs)
  }

  /** A row matches the filters: its month number is the month's, its weekday name the day's full name. */
  predicate Selected(t: Trip, month: string, day: string)
    requires ValidFilters(month, day)
  {
    (month == "all" || t.month == MonthNumber(month)) && (day == "all" || t.weekday == WeekdayNum2Str(day))
  }

  /** The rows of a city's data that the filters keep. */
  function FilteredRows(month: string, day: string, rows: seq<Trip>): (kept: seq<Trip>)
    requires ValidFilters(month, day)
  {
    Filter(rows, (t: Trip) => Selected(t, month, day))
  }

  /**
   * The filtered view: exactly the rows that match, each as often as in the
   * data, in their original order; `("all", "all")` keeps every row.
   */
  lemma FilteredRowsMeaning(month: string, day: string, rows: seq<Trip>)
    requires ValidFilters(month, day)
    ensures forall t :: t in FilteredRows(month, day, rows) <==> t in rows && Selected(t, month, day)
    ensures forall t :: multiset(FilteredRows(month, day, rows))[t] == if Selected(t, month, day) then multiset(rows)[t] else 0
    ensures Subsequence(FilteredRows(month, day, rows), rows)
    ensures month == "all" && day == "all" ==> FilteredRows(month, day, rows) == rows
  {
    FilterSubsequence(rows, (t: Trip) => Selected(t, month, day));
    if month == "all" && day == "all" {
      FilterAll(rows, (t: Trip) => Selected(t, month, day));
    }
  }

  /** `df.columns` after `df[name] = ...`: a new column goes last, an existing one keeps its place. */
  function WithColumn(columns: seq<string>, name: string): (r: seq<string>)
    ensures name in r && forall c :: c in columns ==> c in r
    ensures forall c :: c in r ==> c in columns || c == name
  {
    if name in columns then columns else columns + [name]
  }

  /** A pandas data frame: its column names and its rows. */
  class Frame {
    var columns: seq<string>
    var rows: seq<Trip>

    constructor (columns: seq<string>, rows: seq<Trip>)
      ensures this.columns == columns && this.rows == rows
    {
      this.columns := columns;
      this.rows := rows;
    }

    /** `df[name] = ...` for a column derived from values each `Trip` already carries. */
    method AddColumn(name: string)
      modifies this
      ensures columns == WithColumn(old(columns), name) && rows == old(rows)
    {
      columns := WithColumn(columns, name);
    }
  }

  /**
   * `update_df_columns(month, day, df)`: adds the derived month and weekday
   * columns, then keeps the rows of the month and then those of the weekday.
   * The source rebinds `df` to each selection; here the frame takes it.
   */
  method UpdateDfColumns(month: string, day: string, df: Frame)
    requires ValidFilters(month, day)
    modifies df
    ensures df.columns == WithColumn(WithColumn(old(df.columns), "Month Number"), "Weekday Name")
    ensures df.rows == FilteredRows(month, day, old(df.rows))
  {
    df.AddColumn("Month Number");
    df.AddColumn("Weekday Name");
    var all := df.rows;
    var byMonth := (t: Trip) => true;
    if month != "all" {
      var n := MonthNumber(month);
      byMonth := (t: Trip) => t.month == n;
      df.rows := Filter(df.rows, byMonth);
    } else {
      FilterAll(all, byMonth);
    }
    var byDay := (t: Trip) => true;
    if day != "all" {
      var w := WeekdayNum2Str(day);
      byDay := (t: Trip) => t.weekday == w;
      df.rows := Filter(df.rows, byDay);
    } else {
      FilterAll(df.rows, byDay);
    }
    FilterTwice(all, byMonth, byDay, (t: Trip) => Selected(t, month, day));
  }
}
