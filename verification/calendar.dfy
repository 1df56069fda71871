/**
 * The English `calendar` tables the script indexes, and its three helpers
 * over them (bikeshare.py:28-65), including their behaviour as written.
 */
module Calendar {
  import opened Wrappers
  import opened Text

  /** `calendar.day_abbr`: Monday first. */
  const DayAbbrs: seq<string> := ["Mon", "Tue", "Wed", "Thu", "Fri", "Sat", "Sun"]

  /** `calendar.day_name`, aligned with `DayAbbrs`. */
  const DayNames: seq<string> := ["Monday", "Tuesday", "Wednesday", "Thursday", "Friday", "Saturday", "Sunday"]

  /** `calendar.month_abbr[1:13]`. */
  const MonthAbbrs: seq<string> := ["Jan", "Feb", "Mar", "Apr", "May", "Jun", "Jul", "Aug", "Sep", "Oct", "Nov", "Dec"]

  /** `calendar.month_name`: thirteen entries, the first of them empty, so month `m` is entry `m`. */
  const MonthNames: seq<string> := ["", "January", "February", "March", "April", "May", "June", "July",
                                    "August", "September", "October", "November", "December"]

  /** `s.index(x)`: the position of the first occurrence of `x`. */
  function IndexOf(s: seq<string>, x: string): (i: nat)
    requires x in s
    ensures i < |s| && s[i] == x && x !in s[..i]
  {
    if s[0] == x then 0 else assert s == [s[0]] + s[1..]; 1 + IndexOf(s[1..], x)
  }

  /** Python's `s[i]`, where a negative `i` counts from the end. */
  function PyIndex(s: seq<string>, i: int): (r: string)
    requires -|s| <= i < |s|
  {
    if i < 0 then s[|s| + i] else s[i]
  }

  /**
   * `weekday_num2str(day)`: despite its name it takes a weekday
   * abbreviation and gives the full name at the same position.
   */
  function WeekdayNum2Str(day: string): (r: string)
    requires day in DayAbbrs
    ensures forall i :: 0 <= i < |DayAbbrs| && DayAbbrs[i] == day ==> r == DayNames[i]
    ensures |r| > 3 && r[..3] == day
  {
    DayNames[IndexOf(DayAbbrs, day)]
  }

  /** `month_abbr2name(abbr)`: the function body is a bare `return`, so it gives `None` whatever it is passed. */
  function MonthAbbr2Name(abbr: string): (r: Option<string>)
    ensures r == None
  {
    None
  }

  /** `month_num2name(m)`: reads `calendar.month_name[m-1]`, one entry before the month's own name. */
  function MonthNum2Name(m: int): (r: string)
    requires -12 <= m <= 13
  {
    PyIndex(MonthNames, m - 1)
  }

  /**
   * For every month number 1..12 the name returned is not that month's name:
   * month 1 gives the empty string and month `m` gives the name of month `m - 1`.
   */
  lemma MonthNum2NameOffByOne(m: int)
    requires 1 <= m <= 12
    ensures MonthNum2Name(m) != MonthNames[m]
    ensures m == 1 ==> MonthNum2Name(m) == ""
    ensures m >= 2 ==> MonthNum2Name(m) == MonthNames[m - 1]
  {
    assert forall i, j :: 0 <= i < j < |MonthNames| ==> MonthNames[i] != MonthNames[j];
  }

  /** `calendar.month_abbr[1:13].index(month.title()) + 1`: the number of the month an abbreviation names. */
  function MonthNumber(month: string): (n: int)
    requires TitleCase(month) in MonthAbbrs
    ensures 1 <= n <= 12 && MonthAbbrs[n - 1] == TitleCase(month)
  {
    IndexOf(MonthAbbrs, TitleCase(month)) + 1
  }

  /** Every table entry is a distinct, title-shaped abbreviation. */
  lemma AbbreviationTables()
    ensures forall a :: a in MonthAbbrs ==> TitleShaped(a)
    ensures forall a :: a in DayAbbrs ==> TitleShaped(a)
    ensures forall i, j :: 0 <= i < j < |MonthAbbrs| ==> MonthAbbrs[i] != MonthAbbrs[j]
    ensures forall i, j :: 0 <= i < j < |DayAbbrs| ==> DayAbbrs[i] != DayAbbrs[j]
  {
  }
}
