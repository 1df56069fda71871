/**
 * One query of `main()` (bikeshare.py:560-598) and the loop that repeats
 * it: read the filters, load and filter the city's data, print the summary,
 * offer the pager, and ask whether to start again. The three CSV files are
 * a parameter: for each city, its column names and its rows.
 */
module Session {
  import opened Wrappers
  import opened Text
  import opened Calendar
  import opened Prompts
  import opened TripData
  import opened Stats
  import opened Pager

  /** A city's CSV file as `pd.read_csv` loads it. */
  datatype CityData = CityData(columns: seq<string>, rows: seq<Trip>)

  /** `CITY_DATA` with the files already read: one data set per city name. */
  predicate DataComplete(data: map<string, CityData>)
  {
    forall c :: c in CityNames ==> c in data && AllWellFormed(data[c].rows)
  }

  /** Every month and weekday `get_filters()` can return is one `update_df_columns` can look up. */
  lemma ChosenFiltersValid(month: string, day: string)
    requires month == "all" || month in MonthAbbrs
    requires day == "all" || day in DayAbbrs
    ensures ValidFilters(month, day)
  {
    if month != "all" {
      AbbreviationTables();
      TitleCaseMatches(month, month);
    }
  }

  /** The rows the filters keep are rows of the data, so they are well formed too. */
  lemma FilteredRowsWellFormed(month: string, day: string, rows: seq<Trip>)
    requires ValidFilters(month, day) && AllWellFormed(rows)
    ensures AllWellFormed(FilteredRows(month, day, rows))
  {
    FilteredRowsMeaning(month, day, rows);
    var kept := FilteredRows(month, day, rows);
    forall i | 0 <= i < |kept|
      ensures WellFormed(kept[i])
    {
      assert kept[i] in rows;
    }
  }

  /**
   * `load_data(city, month, day)`: a new frame holding the city's data with
   * the derived columns added and the filters applied.
   */
  method LoadData(city: string, month: string, day: string, data: map<string, CityData>) returns (df: Frame)
    requires city in data && ValidFilters(month, day)
    ensures fresh(df)
    ensures df.columns == WithColumn(WithColumn(data[city].columns, "Month Number"), "Weekday Name")
    ensures df.rows == FilteredRows(month, day, data[city].rows)
  {
    df := new Frame(data[city].columns, data[city].rows);
    UpdateDfColumns(month, day, df);
  }

  /** The restart prompt: the first character, lower-cased, is `y`. */
  function RestartChoice(s: string): (again: bool)
    ensures again <==> |s| > 0 && s[0] in "yY"
  {
    LowerStr(Head(s, 1)) == "y"
  }

  /** A query's last input is the restart answer, and `again` is what `main()` makes of it. */
  predicate RestartRead(inputs: seq<string>, r: Read<Query>)
  {
    r.Got? ==> 0 < r.next <= |inputs| && RestartChoice(inputs[r.next - 1]) == r.value.again
  }

  /** What one query printed: a notice that nothing matched, or the summary and, if asked for, the pages. */
  datatype Outcome = NoMatchingData | Summarised(summary: Summary, viewed: Option<Trace>)

  datatype Query = Query(filters: Filters, outcome: Outcome, again: bool)

  /**
   * What the view prompt of `main()` and, when `confirm_df_view()` returns
   * `True`, the pager over `total` rows read from `pos` on. `None` is the
   * skipped view; an answer that is neither yes nor skip is asked again,
   * and the answer given then is dropped, so the view is skipped.
   */
  function ViewFrom(total: nat, inputs: seq<string>, pos: nat): (r: Read<Option<Trace>>)
    requires pos <= |inputs|
    ensures r.Got? ==> pos < r.next <= |inputs|
    ensures r.Got? ==> (r.value.Some? <==> ViewChoice(inputs[pos]) == Some(true))
    ensures r.Got? && r.value.Some? ==> r.value.value == Paging(total, inputs, pos + 1, 0)
                                        && r.value.value.stop != InputEnded && r.next == r.value.value.next
    ensures r.Got? && ViewChoice(inputs[pos]) == Some(false) ==> r.next == pos + 1
    ensures r.Got? && ViewChoice(inputs[pos]).None? ==>
              FirstValid(inputs, pos + 1, ViewChoice).Got? && FirstValid(inputs, pos + 1, ViewChoice).next == r.next
    ensures r.Exhausted? <==>
              pos == |inputs|
              || (ViewChoice(inputs[pos]) == Some(true) && Paging(total, inputs, pos + 1, 0).stop == InputEnded)
              || (ViewChoice(inputs[pos]).None? && FirstValid(inputs, pos + 1, ViewChoice).Exhausted?)
  {
    if pos == |inputs| then Exhausted
    else if ViewChoice(inputs[pos]) == Some(true) then
      var trace := Paging(total, inputs, pos + 1, 0);
      if trace.stop == InputEnded then Exhausted else Got(Some(trace), trace.next)
    else if ViewChoice(inputs[pos]) == Some(false) then Got(None, pos + 1)
    else
      match FirstValid(inputs, pos + 1, ViewChoice)
      case Exhausted => Exhausted
      case Got(_, next) => Got(None, next)
  }

  /** The view prompt and the pager, as `ViewFrom` describes them. */
  method OfferView(total: nat, inputs: seq<string>, pos: nat) returns (r: Read<Option<Trace>>)
    requires pos <= |inputs|
    ensures r == ViewFrom(total, inputs, pos)
  {
    var answer := ConfirmDfView(inputs, pos);
    if answer.Exhausted? {
      return Exhausted;
    }
    if answer.value != Some(true) {
      return Got(None, answer.next);
    }
    var trace := PrintBikeshareDfPage(total, inputs, answer.next, 0);
    if trace.stop == InputEnded {
      return Exhausted;
    }
    r := Got(Some(trace), trace.next);
  }

  /** The restart prompt at `pos` closes `query`: its answer sets `again`. */
  function Restart(query: Query, inputs: seq<string>, pos: nat): (r: Read<Query>)
    ensures r.Got? ==> r.next == pos + 1 && r.next <= |inputs|
    ensures r.Got? ==> r.value.filters == query.filters && r.value.outcome == query.outcome
    ensures r.Exhausted? <==> pos >= |inputs|
    ensures RestartRead(inputs, r)
  {
    if pos < |inputs| then Got(query.(again := RestartChoice(inputs[pos])), pos + 1) else Exhausted
  }

  /**
   * The rest of one pass of `main()` once the filters are known, read from
   * `pos` on: the city's rows under the filters; with none, the notice;
   * otherwise the summary and the view prompt; then the restart answer.
   */
  function QueryAnswer(filters: Filters, data: map<string, CityData>, inputs: seq<string>, pos: nat): (r: Read<Query>)
    requires DataComplete(data) && pos <= |inputs|
    requires filters.city in CityNames && ValidFilters(filters.month, filters.day)
    ensures r.Got? ==> pos < r.next <= |inputs| && r.value.filters == filters
    ensures RestartRead(inputs, r)
  {
    var f := filters;
    var rows := FilteredRows(f.month, f.day, data[f.city].rows);
    if rows == [] then Restart(Query(f, NoMatchingData, false), inputs, pos)
    else
      match ViewFrom(|rows|, inputs, pos)
      case Exhausted => Exhausted
      case Got(viewed, p) =>
        FilteredRowsWellFormed(f.month, f.day, data[f.city].rows);
        var columns := WithColumn(WithColumn(data[f.city].columns, "Month Number"), "Weekday Name");
        Restart(Query(f, Summarised(SummaryOf(columns, rows, f.month, f.day), viewed), false), inputs, p)
  }

  /**
   * What one pass reports: the notice exactly when no row is left, the
   * summary of the filtered rows otherwise, and the pages exactly when the
   * view prompt was answered yes.
   */
  lemma QueryAnswerMeaning(filters: Filters, data: map<string, CityData>, inputs: seq<string>, pos: nat,
                            q: Query, next: nat)
    requires DataComplete(data) && pos <= |inputs|
    requires filters.city in CityNames && ValidFilters(filters.month, filters.day)
    requires QueryAnswer(filters, data, inputs, pos) == Got(q, next)
    ensures var f := filters;
            q.outcome.NoMatchingData? <==> FilteredRows(f.month, f.day, data[f.city].rows) == []
    ensures q.outcome.Summarised? ==> var f := filters;
              AllWellFormed(FilteredRows(f.month, f.day, data[f.city].rows)) &&
              q.outcome.summary
                == SummaryOf(WithColumn(WithColumn(data[f.city].columns, "Month Number"), "Weekday Name"),
                             FilteredRows(f.month, f.day, data[f.city].rows), f.month, f.day)
    ensures q.outcome.Summarised? ==> (q.outcome.viewed.Some? <==> pos < |inputs| && ViewChoice(inputs[pos]) == Some(true))
    ensures q.outcome.NoMatchingData? ==> next == pos + 1
    ensures q.outcome.Summarised? ==> var f := filters;
              var v := ViewFrom(|FilteredRows(f.month, f.day, data[f.city].rows)|, inputs, pos);
              v.Got? && v.value == q.outcome.viewed && next == v.next + 1
    ensures q.outcome.Summarised? && q.outcome.viewed.Some? ==> var f := filters;
              pos < |inputs| && q.outcome.viewed.value == Paging(|FilteredRows(f.month, f.day, data[f.city].rows)|, inputs, pos + 1, 0)
  {
    var f := filters;
    var rows := FilteredRows(f.month, f.day, data[f.city].rows);
    if rows == [] {
      assert QueryAnswer(filters, data, inputs, pos) == Restart(Query(f, NoMatchingData, false), inputs, pos);
      assert q.outcome == NoMatchingData && next == pos + 1;
    } else {
      var v := ViewFrom(|rows|, inputs, pos);
      assert v.Got?;
      FilteredRowsWellFormed(f.month, f.day, data[f.city].rows);
      var columns := WithColumn(WithColumn(data[f.city].columns, "Month Number"), "Weekday Name");
      var summary := SummaryOf(columns, rows, f.month, f.day);
      assert QueryAnswer(filters, data, inputs, pos)
          == Restart(Query(f, Summarised(summary, v.value), false), inputs, v.next);
      assert q.outcome == Summarised(summary, v.value) && next == v.next + 1;
    }
  }

  /**
   * When one pass runs out of input: with no matching row, exactly when the
   * restart prompt finds none; otherwise exactly when the view prompt or the
   * pager runs out, or the restart prompt finds nothing after them.
   */
  lemma QueryAnswerRunsOut(filters: Filters, data: map<string, CityData>, inputs: seq<string>, pos: nat)
    requires DataComplete(data) && pos <= |inputs|
    requires filters.city in CityNames && ValidFilters(filters.month, filters.day)
    ensures var f := filters;
            var rows := FilteredRows(f.month, f.day, data[f.city].rows);
            QueryAnswer(filters, data, inputs, pos).Exhausted? <==>
              if rows == [] then pos == |inputs|
              else ViewFrom(|rows|, inputs, pos).Exhausted? || ViewFrom(|rows|, inputs, pos).next == |inputs|
  {
    var f := filters;
    var rows := FilteredRows(f.month, f.day, data[f.city].rows);
    if rows != [] {
      var v := ViewFrom(|rows|, inputs, pos);
      if v.Got? {
        FilteredRowsWellFormed(f.month, f.day, data[f.city].rows);
        var columns := WithColumn(WithColumn(data[f.city].columns, "Month Number"), "Weekday Name");
        assert QueryAnswer(filters, data, inputs, pos)
            == Restart(Query(f, Summarised(SummaryOf(columns, rows, f.month, f.day), v.value), false), inputs, v.next);
      }
    }
  }

  /** The rest of one pass of `main()`, as `QueryAnswer` describes it. */
  method AnswerQuery(filters: Filters, data: map<string, CityData>, inputs: seq<string>, pos: nat)
    returns (r: Read<Query>)
    requires DataComplete(data) && pos <= |inputs|
    requires filters.city in CityNames && ValidFilters(filters.month, filters.day)
    ensures r == QueryAnswer(filters, data, inputs, pos)
  {
    FilteredRowsWellFormed(filters.month, filters.day, data[filters.city].rows);
    var df := LoadData(filters.city, filters.month, filters.day, data);
    var outcome := NoMatchingData;
    var p := pos;
    if |df.rows| > 0 {
      var summary := PrintSummaryStats(df, filters.month, filters.day);
      var view;
      view := OfferView(|df.rows|, inputs, p);
      if view.Exhausted? {
        return Exhausted;
      }
      outcome, p := Summarised(summary, view.value), view.next;
    }
    r := Restart(Query(filters, outcome, false), inputs, p);
  }

  /**
   * One pass of the `while True` loop in `main()` read from `pos` on:
   * `get_filters()`, then the query. Running out of input anywhere
   * (Python's `EOFError`) gives `Exhausted`.
   */
  function QueryFrom(inputs: seq<string>, pos: nat, data: map<string, CityData>): (r: Read<Query>)
    requires DataComplete(data)
    ensures r.Got? ==> pos < r.next <= |inputs|
    ensures r.Got? ==> var f := FiltersFrom(inputs, pos);
                       f.Got? && f.value == r.value.filters && f.next < r.next
    ensures r.Got? ==> r.value.filters.city in CityNames && ValidFilters(r.value.filters.month, r.value.filters.day)
    ensures RestartRead(inputs, r)
  {
    match FiltersFrom(inputs, pos)
    case Exhausted => Exhausted
    case Got(f, next) =>
      ChosenFiltersValid(f.month, f.day);
      QueryAnswer(f, data, inputs, next)
  }

  /** One pass of `main()`'s loop, as `QueryFrom` describes it; `filtersEnd` is where the filters' answers end. */
  method QueryCycle(inputs: seq<string>, pos: nat, data: map<string, CityData>)
    returns (r: Read<Query>, ghost filtersEnd: nat)
    requires DataComplete(data)
    ensures r == QueryFrom(inputs, pos, data)
    ensures r.Got? ==> FiltersFrom(inputs, pos) == Got(r.value.filters, filtersEnd) && pos < filtersEnd < r.next
  {
    var f, option, optionEnd := GetFilters(inputs, pos);
    filtersEnd := pos + 1;
    if f.Exhausted? {
      return Exhausted, filtersEnd;
    }
    filtersEnd := f.next;
    ChosenFiltersValid(f.value.month, f.value.day);
    r := AnswerQuery(f.value, data, inputs, f.next);
  }

  /**
   * What `main()`'s loop does: the queries it answers, and whether it ended
   * on a restart answer other than yes (`quit`) rather than on the end of
   * the input.
   */
  datatype Run = Run(queries: seq<Query>, quit: bool)

  /** `step` reads one query from a position on, and a query it gives ends further on, within `limit`. */
  ghost predicate Advancing(step: nat -> Read<Query>, limit: nat)
  {
    forall p: nat :: step(p).Got? ==> p < step(p).next <= limit
  }

  /** One pass of `main()`'s loop as a reader over positions in the input. */
  function QueryStep(inputs: seq<string>, data: map<string, CityData>): (step: nat -> Read<Query>)
    requires DataComplete(data)
    ensures Advancing(step, |inputs|)
    ensures forall p: nat :: step(p) == QueryFrom(inputs, p, data)
  {
    (p: nat) => QueryFrom(inputs, p, data)
  }

  /**
   * The queries `step` reads from `pos` on: one query, and then, if its
   * restart answer is yes, the queries after it.
   */
  function RunOf(step: nat -> Read<Query>, limit: nat, pos: nat): (run: Run)
    requires Advancing(step, limit)
    decreases if pos <= limit then limit - pos else 0
  {
    match step(pos)
    case Exhausted => Run([], false)
    case Got(query, next) =>
      if !query.again then Run([query], true)
      else
        var rest := RunOf(step, limit, next);
        Run([query] + rest.queries, rest.quit)
  }

  /** The queries answered so far followed by a run. */
  function Preceded(done: seq<Query>, run: Run): (r: Run)
  {
    Run(done + run.queries, run.quit)
  }

  /** Appending a query, then the rest, is appending both at once. */
  lemma Regroup(done: seq<Query>, query: Query, rest: seq<Query>)
    ensures done + ([query] + rest) == (done + [query]) + rest
  {
  }

  /** One step of `RunOf`, stated for the loop that computes it. */
  lemma RunOfUnfold(step: nat -> Read<Query>, limit: nat, pos: nat)
    requires Advancing(step, limit)
    ensures step(pos).Exhausted? ==> RunOf(step, limit, pos) == Run([], false)
    ensures step(pos).Got? && !step(pos).value.again ==> RunOf(step, limit, pos) == Run([step(pos).value], true)
    ensures step(pos).Got? && step(pos).value.again ==>
              RunOf(step, limit, pos) == Preceded([step(pos).value], RunOf(step, limit, step(pos).next))
  {
  }

  /**
   * Every query of a run but the last was answered yes, and the run quits
   * exactly when the last one was not; it has no query only when the first
   * read runs out of input.
   */
  lemma {:induction false} RunOfRestarts(step: nat -> Read<Query>, limit: nat, pos: nat)
    requires Advancing(step, limit)
    ensures var run := RunOf(step, limit, pos);
            (forall i :: 0 <= i < |run.queries| - 1 ==> run.queries[i].again)
            && (run.quit <==> |run.queries| > 0 && !run.queries[|run.queries| - 1].again)
            && (run.queries == [] <==> step(pos).Exhausted?)
    decreases if pos <= limit then limit - pos else 0
  {
    match step(pos)
    case Exhausted =>
    case Got(query, next) =>
      if query.again {
        RunOfRestarts(step, limit, next);
        var rest := RunOf(step, limit, next);
        assert RunOf(step, limit, pos).queries == [query] + rest.queries;
      }
  }

  /** The positions where the queries of a run end, one per query. */
  function RunEnds(step: nat -> Read<Query>, limit: nat, pos: nat): (ends: seq<nat>)
    requires Advancing(step, limit)
    decreases if pos <= limit then limit - pos else 0
  {
    match step(pos)
    case Exhausted => []
    case Got(query, next) => if !query.again then [next] else [next] + RunEnds(step, limit, next)
  }

  /**
   * Each query of a run is the one `step` reads from where the query before
   * it ended (the first one from `pos`), and a run that does not quit ends
   * on a read that runs out of input.
   */
  lemma {:induction false} RunOfReads(step: nat -> Read<Query>, limit: nat, pos: nat)
    requires Advancing(step, limit)
    ensures var run, ends := RunOf(step, limit, pos), RunEnds(step, limit, pos);
            |ends| == |run.queries|
            && (forall i :: 0 <= i < |ends| ==> step(if i == 0 then pos else ends[i - 1]) == Got(run.queries[i], ends[i]))
            && (!run.quit ==> step(if ends == [] then pos else ends[|ends| - 1]).Exhausted?)
    decreases if pos <= limit then limit - pos else 0
  {
    match step(pos)
    case Exhausted =>
    case Got(query, next) =>
      if query.again {
        RunOfReads(step, limit, next);
        var run, ends := RunOf(step, limit, pos), RunEnds(step, limit, pos);
        var rest, restEnds := RunOf(step, limit, next), RunEnds(step, limit, next);
        assert run.queries == [query] + rest.queries && ends == [next] + restEnds;
        forall i | 0 <= i < |ends|
          ensures step(if i == 0 then pos else ends[i - 1]) == Got(run.queries[i], ends[i])
        {
          if i > 0 {
            assert run.queries[i] == rest.queries[i - 1] && ends[i] == restEnds[i - 1];
            assert ends[i - 1] == if i - 1 == 0 then next else restEnds[i - 2];
          }
        }
        if !run.quit && restEnds != [] {
          assert ends[|ends| - 1] == restEnds[|restEnds| - 1];
        }
      }
  }

  /**
   * `main()`'s loop: queries follow one another while the restart answer
   * is yes.
   */
  method RunQueries(inputs: seq<string>, data: map<string, CityData>) returns (queries: seq<Query>, quit: bool)
    requires DataComplete(data)
    ensures Run(queries, quit) == RunOf(QueryStep(inputs, data), |inputs|, 0)
  {
    ghost var step := QueryStep(inputs, data);
    queries, quit := [], false;
    var p := 0;
    while true
      invariant p <= |inputs|
      invariant RunOf(step, |inputs|, 0) == Preceded(queries, RunOf(step, |inputs|, p))
      decreases |inputs| - p
    {
      var r, filtersEnd := QueryCycle(inputs, p, data);
      assert step(p) == r;
      RunOfUnfold(step, |inputs|, p);
      if r.Exhausted? {
        assert queries + [] == queries;
        return;
      }
      if !r.value.again {
        queries, quit := queries + [r.value], true;
        return;
      }
      Regroup(queries, r.value, RunOf(step, |inputs|, r.next).queries);
      queries, p := queries + [r.value], r.next;
    }
  }
}
