/**
 * The prompts of bikeshare.py:162-323. Each prompt re-asks on an answer it
 * does not accept; the answers the user types are the sequence `inputs`,
 * read from position `pos` on. Running out of answers (Python's `EOFError`
 * from `input()`) is the outcome `Exhausted`.
 */
module Prompts {
  import opened Wrappers
  import opened Text
  import opened Calendar

  /** An accepted answer and the position of the next unread input, or the end of the inputs. */
  datatype Read<T> = Got(value: T, next: nat) | Exhausted

  /**
   * The answer a reprompting prompt settles on: `parse` applied to the first
   * input, from `pos` on, that it accepts.
   */
  function FirstValid<T>(inputs: seq<string>, pos: nat, parse: string -> Option<T>): (r: Read<T>)
    ensures r.Got? ==> pos < r.next <= |inputs| && parse(inputs[r.next - 1]) == Some(r.value)
    ensures r.Got? ==> forall k :: pos <= k < r.next - 1 ==> parse(inputs[k]).None?
    ensures r.Exhausted? ==> forall k :: pos <= k < |inputs| ==> parse(inputs[k]).None?
    decreases |inputs| - pos
  {
    if pos >= |inputs| then Exhausted
    else match parse(inputs[pos])
      case Some(v) => Got(v, pos + 1)
      case None => FirstValid(inputs, pos + 1, parse)
  }

  /** The read-until-valid loop behind every recursive prompt of the script. */
  method ReadUntilValid<T>(inputs: seq<string>, pos: nat, parse: string -> Option<T>) returns (r: Read<T>)
    ensures r == FirstValid(inputs, pos, parse)
  {
    var p := pos;
    while p < |inputs|
      invariant pos <= p
      invariant FirstValid(inputs, p, parse) == FirstValid(inputs, pos, parse)
      decreases |inputs| - p
    {
      var answer := parse(inputs[p]);
      if answer.Some? {
        return Got(answer.value, p + 1);
      }
      p := p + 1;
    }
    return Exhausted;
  }

  /** The keys of `CITY_DATA`. */
  const CityNames: seq<string> := ["Chicago", "New York city", "Washington DC"]

  /** The city an answer to the city prompt selects: its first character, lower-cased, is `c`, `n` or `w`. */
  function CityChoice(s: string): (r: Option<string>)
    ensures r.Some? ==> r.value in CityNames
    ensures r == Some("Chicago") <==> |s| > 0 && s[0] in "cC"
    ensures r == Some("New York city") <==> |s| > 0 && s[0] in "nN"
    ensures r == Some("Washington DC") <==> |s| > 0 && s[0] in "wW"
  {
    var c := LowerStr(Head(s, 1));
    if c == "c" then Some("Chicago")
    else if c == "w" then Some("Washington DC")
    else if c == "n" then Some("New York city")
    else None
  }

  /** The filter option an answer selects: its first character, lower-cased, is one of `m`, `d`, `n`, `b`. */
  function FilterChoice(s: string): (r: Option<char>)
    ensures r.Some? <==> |s| > 0 && s[0] in "mdnbMDNB"
    ensures r.Some? ==> r.value in "mdnb" && r.value == Lower(s[0])
  {
    var c := LowerStr(Head(s, 1));
    assert |s| > 0 ==> c == [Lower(s[0])];
    if c in ["m", "d", "n", "b"] then Some(c[0]) else None
  }

  /** The month an answer names: its first three characters, title-cased, if they are a month abbreviation. */
  function MonthChoice(s: string): (r: Option<string>)
    ensures r.Some? ==> r.value in MonthAbbrs
  {
    var m := TitleCase(Head(s, 3));
    if m in MonthAbbrs then Some(m) else None
  }

  /** The weekday an answer names: its first three characters, title-cased, if they are a weekday abbreviation. */
  function DayChoice(s: string): (r: Option<string>)
    ensures r.Some? ==> r.value in DayAbbrs
  {
    var d := TitleCase(Head(s, 3));
    if d in DayAbbrs then Some(d) else None
  }

  /** An answer to the view prompt: empty or `y` views the rows, `s` skips them (either case). */
  function ViewChoice(s: string): (r: Option<bool>)
    ensures r == Some(true) <==> s == [] || s[0] in "yY"
    ensures r == Some(false) <==> |s| > 0 && s[0] in "sS"
  {
    var c := LowerStr(Head(s, 1));
    if c == "" || c == "y" then Some(true)
    else if c == "s" then Some(false)
    else None
  }

  /** An abbreviation chosen from a title-shaped table is accepted exactly when the answer spells it, in any case. */
  lemma AbbreviationChoice(s: string, a: string, table: seq<string>)
    requires forall t :: t in table ==> TitleShaped(t)
    requires a in table
    ensures TitleCase(Head(s, 3)) == a <==> |s| >= 3 && SameIgnoringCase(s[..3], a)
  {
    assert TitleShaped(a);
    if |s| >= 3 {
      assert Head(s, 3) == s[..3];
      TitleCaseMatches(s[..3], a);
    }
  }

  /** A month is accepted exactly when the first three characters spell its abbreviation, ignoring case. */
  lemma MonthChoiceMeaning(s: string, a: string)
    requires a in MonthAbbrs
    ensures MonthChoice(s) == Some(a) <==> |s| >= 3 && SameIgnoringCase(s[..3], a)
  {
    AbbreviationTables();
    AbbreviationChoice(s, a, MonthAbbrs);
  }

  /** A weekday is accepted exactly when the first three characters spell its abbreviation, ignoring case. */
  lemma DayChoiceMeaning(s: string, a: string)
    requires a in DayAbbrs
    ensures DayChoice(s) == Some(a) <==> |s| >= 3 && SameIgnoringCase(s[..3], a)
  {
    AbbreviationTables();
    AbbreviationChoice(s, a, DayAbbrs);
  }

  /** `input_city()` */
  method InputCity(inputs: seq<string>, pos: nat) returns (r: Read<string>)
    ensures r == FirstValid(inputs, pos, CityChoice)
    ensures r.Got? ==> r.value in CityNames
  {
    r := ReadUntilValid(inputs, pos, CityChoice);
  }

  /** `input_filter_opt()` */
  method InputFilterOpt(inputs: seq<string>, pos: nat) returns (r: Read<char>)
    ensures r == FirstValid(inputs, pos, FilterChoice)
    ensures r.Got? ==> r.value in "mdnb"
  {
    r := ReadUntilValid(inputs, pos, FilterChoice);
  }

  /** `input_month()` */
  method InputMonth(inputs: seq<string>, pos: nat) returns (r: Read<string>)
    ensures r == FirstValid(inputs, pos, MonthChoice)
    ensures r.Got? ==> r.value in MonthAbbrs
  {
    r := ReadUntilValid(inputs, pos, MonthChoice);
  }

  /** `input_day_of_week()` */
  method InputDayOfWeek(inputs: seq<string>, pos: nat) returns (r: Read<string>)
    ensures r == FirstValid(inputs, pos, DayChoice)
    ensures r.Got? ==> r.value in DayAbbrs
  {
    r := ReadUntilValid(inputs, pos, DayChoice);
  }

  /**
   * `confirm_df_view()`. A first answer it accepts gives `Some(true)` (view)
   * or `Some(false)` (skip). After an answer it does not accept, the recursive
   * call reads on until an accepted answer, but its value is dropped and the
   * result is `None` (Python's `None`, which the caller treats as false).
   */
  method ConfirmDfView(inputs: seq<string>, pos: nat) returns (r: Read<Option<bool>>)
    ensures pos >= |inputs| ==> r == Exhausted
    ensures pos < |inputs| && ViewChoice(inputs[pos]).Some? ==> r == Got(ViewChoice(inputs[pos]), pos + 1)
    ensures pos < |inputs| && ViewChoice(inputs[pos]).None? ==>
              var later := FirstValid(inputs, pos + 1, ViewChoice);
              r == if later.Got? then Got(None, later.next) else Exhausted
  {
    if pos >= |inputs| {
      return Exhausted;
    }
    var answer := ViewChoice(inputs[pos]);
    if answer.Some? {
      return Got(answer, pos + 1);
    }
    var later := ReadUntilValid(inputs, pos + 1, ViewChoice);
    if later.Got? {
      r := Got(None, later.next);
    } else {
      r := Exhausted;
    }
  }

  /** The `(city, month, day)` triple of `get_filters()`; `"all"` stands for no restriction. */
  datatype Filters = Filters(city: string, month: string, day: string)

  /**
   * The answers `get_filters()` reads from `pos` on, and the filters they
   * give: a city, an option, and then a weekday for `d` and `b` and a month
   * for `m` and `b`, the weekday first.
   */
  function FiltersFrom(inputs: seq<string>, pos: nat): (r: Read<Filters>)
    ensures r.Got? ==> pos < r.next <= |inputs|
    ensures r.Got? ==> r.value.city in CityNames
    ensures r.Got? ==> (r.value.month == "all" || r.value.month in MonthAbbrs)
                       && (r.value.day == "all" || r.value.day in DayAbbrs)
  {
    match FirstValid(inputs, pos, CityChoice)
    case Exhausted => Exhausted
    case Got(city, afterCity) =>
      match FirstValid(inputs, afterCity, FilterChoice)
      case Exhausted => Exhausted
      case Got(option, afterOption) =>
        if option == 'n' then Got(Filters(city, "all", "all"), afterOption)
        else if option == 'm' then
          match FirstValid(inputs, afterOption, MonthChoice)
          case Exhausted => Exhausted
          case Got(month, next) => Got(Filters(city, month, "all"), next)
        else
          match FirstValid(inputs, afterOption, DayChoice)
          case Exhausted => Exhausted
          case Got(day, afterDay) =>
            if option == 'd' then Got(Filters(city, "all", day), afterDay)
            else
              match FirstValid(inputs, afterDay, MonthChoice)
              case Exhausted => Exhausted
              case Got(month, next) => Got(Filters(city, month, day), next)
  }

  /** The filter option read is one of the four `get_filters()` acts on. */
  lemma OptionRead(inputs: seq<string>, pos: nat)
    ensures FirstValid(inputs, pos, FilterChoice).Got? ==> FirstValid(inputs, pos, FilterChoice).value in "mdnb"
  {
    var o := FirstValid(inputs, pos, FilterChoice);
    if o.Got? {
      assert FilterChoice(inputs[o.next - 1]) == Some(o.value);
    }
  }

  /**
   * `get_filters()` runs out of input exactly when one of the reads it makes
   * does: the city, the option, or the weekday or month the option asks for
   * (for `b`, the month after the weekday answer).
   */
  lemma FiltersFromRunsOut(inputs: seq<string>, pos: nat)
    ensures FirstValid(inputs, pos, CityChoice).Exhausted? ==> FiltersFrom(inputs, pos).Exhausted?
    ensures var c := FirstValid(inputs, pos, CityChoice);
            c.Got? && FirstValid(inputs, c.next, FilterChoice).Exhausted? ==> FiltersFrom(inputs, pos).Exhausted?
    ensures var c := FirstValid(inputs, pos, CityChoice);
            c.Got? && FirstValid(inputs, c.next, FilterChoice).Got? ==>
              var o := FirstValid(inputs, c.next, FilterChoice);
              var d := FirstValid(inputs, o.next, DayChoice);
              o.value in "mdnb"
              && (o.value == 'n' ==> FiltersFrom(inputs, pos).Got?)
              && (o.value == 'm' ==> (FiltersFrom(inputs, pos).Exhausted? <==> FirstValid(inputs, o.next, MonthChoice).Exhausted?))
              && (o.value == 'd' ==> (FiltersFrom(inputs, pos).Exhausted? <==> d.Exhausted?))
              && (o.value == 'b' ==> (FiltersFrom(inputs, pos).Exhausted? <==>
                                       d.Exhausted? || FirstValid(inputs, d.next, MonthChoice).Exhausted?))
  {
    var c := FirstValid(inputs, pos, CityChoice);
    if c.Got? {
      OptionRead(inputs, c.next);
    }
  }

  /**
   * The filters `get_filters()` returns for each option: `n` reads nothing
   * more, `d` and `m` take the next accepted weekday or month, and `b` the
   * weekday and then the month after it.
   */
  lemma FiltersFromOptions(inputs: seq<string>, pos: nat)
    ensures var r, c := FiltersFrom(inputs, pos), FirstValid(inputs, pos, CityChoice);
            r.Got? ==> c.Got? && r.value.city == c.value && FirstValid(inputs, c.next, FilterChoice).Got?
                       && FirstValid(inputs, c.next, FilterChoice).next <= r.next
    ensures var r, c := FiltersFrom(inputs, pos), FirstValid(inputs, pos, CityChoice);
            r.Got? && c.Got? && FirstValid(inputs, c.next, FilterChoice).Got? && FirstValid(inputs, c.next, FilterChoice).value == 'n' ==>
              r.value.month == "all" && r.value.day == "all" && r.next == FirstValid(inputs, c.next, FilterChoice).next
    ensures var r, c := FiltersFrom(inputs, pos), FirstValid(inputs, pos, CityChoice);
            r.Got? && c.Got? && FirstValid(inputs, c.next, FilterChoice).Got? && FirstValid(inputs, c.next, FilterChoice).value == 'd' ==>
              r.value.month == "all"
              && FirstValid(inputs, FirstValid(inputs, c.next, FilterChoice).next, DayChoice) == Got(r.value.day, r.next)
    ensures var r, c := FiltersFrom(inputs, pos), FirstValid(inputs, pos, CityChoice);
            r.Got? && c.Got? && FirstValid(inputs, c.next, FilterChoice).Got? && FirstValid(inputs, c.next, FilterChoice).value == 'm' ==>
              r.value.day == "all"
              && FirstValid(inputs, FirstValid(inputs, c.next, FilterChoice).next, MonthChoice) == Got(r.value.month, r.next)
    ensures var r, c := FiltersFrom(inputs, pos), FirstValid(inputs, pos, CityChoice);
            r.Got? && c.Got? && FirstValid(inputs, c.next, FilterChoice).Got? && FirstValid(inputs, c.next, FilterChoice).value == 'b' ==>
              var d := FirstValid(inputs, FirstValid(inputs, c.next, FilterChoice).next, DayChoice);
              d.Got? && d.value == r.value.day && FirstValid(inputs, d.next, MonthChoice) == Got(r.value.month, r.next)
  {
    var c := FirstValid(inputs, pos, CityChoice);
    if c.Got? {
      OptionRead(inputs, c.next);
    }
  }

  /**
   * `get_filters()`: the city, then the filter option, then the weekday
   * and/or the month the option asks for (for `b`, the weekday first).
   * The ghost `option` is the filter option that was read, and `optionEnd`
   * the position just after the answer that gave it.
   */
  method GetFilters(inputs: seq<string>, pos: nat) returns (r: Read<Filters>, ghost option: char, ghost optionEnd: nat)
    ensures r == FiltersFrom(inputs, pos)
    ensures r.Got? ==> pos < optionEnd <= r.next <= |inputs|
    ensures r.Got? ==> var c := FirstValid(inputs, pos, CityChoice);
              c.Got? && r.value.city == c.value && FirstValid(inputs, c.next, FilterChoice) == Got(option, optionEnd)
    ensures r.Got? ==> r.value.city in CityNames && option in "mdnb"
    ensures r.Got? ==> (r.value.month == "all" || r.value.month in MonthAbbrs)
                       && (r.value.day == "all" || r.value.day in DayAbbrs)
    ensures r.Got? && option == 'n' ==> r.value.month == "all" && r.value.day == "all" && r.next == optionEnd
    ensures r.Got? && option == 'd' ==>
              r.value.month == "all" && FirstValid(inputs, optionEnd, DayChoice) == Got(r.value.day, r.next)
    ensures r.Got? && option == 'm' ==>
              r.value.day == "all" && FirstValid(inputs, optionEnd, MonthChoice) == Got(r.value.month, r.next)
    ensures r.Got? && option == 'b' ==>
              var d := FirstValid(inputs, optionEnd, DayChoice);
              d.Got? && d.value == r.value.day && FirstValid(inputs, d.next, MonthChoice) == Got(r.value.month, r.next)
  {
    var day, month := "all", "all";
    option, optionEnd := 'n', pos;
    var city := InputCity(inputs, pos);
    if city.Exhausted? {
      return Exhausted, option, optionEnd;
    }
    var opt := InputFilterOpt(inputs, city.next);
    if opt.Exhausted? {
      return Exhausted, option, optionEnd;
    }
    var o, p := opt.value, opt.next;
    option, optionEnd := o, p;
    if o == 'd' || o == 'b' {
      var d := InputDayOfWeek(inputs, p);
      if d.Exhausted? {
        return Exhausted, option, optionEnd;
      }
      day, p := d.value, d.next;
    }
    if o == 'm' || o == 'b' {
      var m := InputMonth(inputs, p);
      if m.Exhausted? {
        return Exhausted, option, optionEnd;
      }
      month, p := m.value, m.next;
    }
    r := Got(Filters(city.value, month, day), p);
    FiltersFromOptions(inputs, pos);
  }

  /** An unknown city answer is passed over: "x" then "c" gives Chicago after two inputs. */
  lemma InvalidThenChicago()
    ensures FirstValid(["x", "c"], 0, CityChoice) == Got("Chicago", 2)
  {
    assert CityChoice("x") == None;
    assert CityChoice("c") == Some("Chicago");
  }
}
