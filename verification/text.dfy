/**
 * The string operations the script relies on: slicing a prefix (`s[0:n]`),
 * `str.lower()`, `str.title()`, `str(int)`, `"%02d"` and the rendering of a
 * `datetime.timedelta` of whole seconds. Case mapping is modelled on ASCII.
 */
module Text {

  predicate IsUpper(c: char) { 'A' <= c <= 'Z' }

  predicate IsLower(c: char) { 'a' <= c <= 'z' }

  /** A cased character in the sense of `str.title()`, restricted to ASCII. */
  predicate IsLetter(c: char) { IsUpper(c) || IsLower(c) }

  predicate IsDigit(c: char) { '0' <= c <= '9' }

  predicate AllDigits(s: string) { forall i :: 0 <= i < |s| ==> IsDigit(s[i]) }

  function Lower(c: char): (r: char)
    ensures IsLetter(c) ==> IsLower(r) && Upper(r) == Upper(c)
    ensures !IsLetter(c) ==> r == c
  {
    if IsUpper(c) then (c as int + 32) as char else c
  }

  function Upper(c: char): (r: char)
    ensures !IsLetter(c) ==> r == c
  {
    if IsLower(c) then (c as int - 32) as char else c
  }

  /** `s.lower()` */
  function LowerStr(s: string): (r: string)
    ensures |r| == |s|
    ensures forall i :: 0 <= i < |s| ==> r[i] == Lower(s[i])
  {
    seq(|s|, i requires 0 <= i < |s| => Lower(s[i]))
  }

  /** The slice `s[0:n]`: the first `n` characters, or all of `s` when it is shorter. */
  function Head(s: string, n: nat): (r: string)
    ensures |r| == if |s| < n then |s| else n
    ensures r <= s
  {
    if |s| <= n then s else s[..n]
  }

  /** Two strings that differ at most in the case of their letters. */
  predicate SameIgnoringCase(x: string, y: string)
  {
    |x| == |y| && forall i :: 0 <= i < |x| ==> Lower(x[i]) == Lower(y[i])
  }

  /** `s.title()`: a letter is upper-cased when it follows a non-letter and lower-cased after a letter. */
  function TitleCase(s: string): (r: string)
    ensures |r| == |s|
  {
    TitleFrom(s, false)
  }

  function TitleFrom(s: string, afterLetter: bool): (r: string)
    ensures |r| == |s|
    decreases |s|
  {
    if s == [] then []
    else [if afterLetter then Lower(s[0]) else Upper(s[0])] + TitleFrom(s[1..], IsLetter(s[0]))
  }

  /** A three-letter abbreviation as `str.title()` leaves it: one capital, two small letters. */
  predicate TitleShaped(a: string)
  {
    |a| == 3 && IsUpper(a[0]) && IsLower(a[1]) && IsLower(a[2])
  }

  /**
   * Title-casing three characters gives a title-shaped abbreviation exactly
   * when they spell that abbreviation in any mixture of cases.
   */
  lemma TitleCaseMatches(x: string, a: string)
    requires |x| == 3 && TitleShaped(a)
    ensures TitleCase(x) == a <==> SameIgnoringCase(x, a)
  {
    var t1 := TitleFrom(x[1..], IsLetter(x[0]));
    var t2 := TitleFrom(x[2..], IsLetter(x[1]));
    assert x[1..][1..] == x[2..] && x[2..][1..] == [];
    assert t2 == [if IsLetter(x[1]) then Lower(x[2]) else Upper(x[2])];
    assert t1 == [if IsLetter(x[0]) then Lower(x[1]) else Upper(x[1])] + t2;
    assert TitleCase(x) == [Upper(x[0])] + t1;
    if TitleCase(x) == a {
      assert Lower(x[0]) == Lower(a[0]);
      assert Lower(x[1]) == Lower(a[1]);
      assert Lower(x[2]) == Lower(a[2]);
    }
    if SameIgnoringCase(x, a) {
      assert Lower(x[0]) == Lower(a[0]) && Lower(x[1]) == Lower(a[1]) && Lower(x[2]) == Lower(a[2]);
    }
  }

  // ---- decimal numbers -------------------------------------------------

  function DigitChar(d: nat): (c: char)
    requires d < 10
    ensures IsDigit(c)
  {
    ('0' as int + d) as char
  }

  function DigitValue(c: char): (d: nat)
    ensures d < 10
  {
    if IsDigit(c) then c as int - '0' as int else 0
  }

  /** `str(n)` for a non-negative integer. */
  function DecimalString(n: nat): (s: string)
    ensures |s| > 0 && AllDigits(s)
    ensures s[0] == '0' ==> n == 0
  {
    if n < 10 then [DigitChar(n)] else DecimalString(n / 10) + [DigitChar(n % 10)]
  }

  /** The value of a string of decimal digits (characters that are not digits read as 0). */
  function ParseDecimal(s: string): (n: nat)
  {
    if s == [] then 0 else ParseDecimal(s[..|s| - 1]) * 10 + DigitValue(s[|s| - 1])
  }

  lemma {:induction false} DecimalRoundTrip(n: nat)
    ensures ParseDecimal(DecimalString(n)) == n
  {
    var s := DecimalString(n);
    if n >= 10 {
      DecimalRoundTrip(n / 10);
      assert s[..|s| - 1] == DecimalString(n / 10);
    }
  }

  /** `"%02d" % n` */
  function Pad2(n: nat): (s: string)
    requires n < 100
    ensures |s| == 2 && IsDigit(s[0]) && IsDigit(s[1])
  {
    [DigitChar(n / 10), DigitChar(n % 10)]
  }

  lemma Pad2RoundTrip(n: nat)
    requires n < 100
    ensures ParseDecimal(Pad2(n)) == n
  {
    var s := Pad2(n);
    assert s[..1][..0] == [];
    assert DigitValue(s[0]) == n / 10 && DigitValue(s[1]) == n % 10;
    assert ParseDecimal(s[..1]) == n / 10;
  }

  // ---- str(datetime.timedelta(seconds=s)) ----------------------------------

  /** `"%d:%02d:%02d" % (hh, mm, ss)` for the seconds within one day. */
  function Hms(t: nat): (r: string)
    requires t < 86400
  {
    DecimalString(t / 3600) + ":" + Pad2(t / 60 % 60) + ":" + Pad2(t % 60)
  }

  /** `"%d day%s, "` with the plural `s` for any count but one; nothing for zero days. */
  function DayPrefix(d: nat): (r: string)
  {
    if d == 0 then "" else DecimalString(d) + (if d == 1 then " day, " else " days, ")
  }

  /** The text of a `timedelta` of `s` whole seconds: `H:MM:SS`, preceded by the days when there are any. */
  function Clock(s: nat): (c: string)
  {
    DayPrefix(s / 86400) + Hms(s % 86400)
  }

  /** Three minutes, one minute, and a day and an hour, a minute and a second past it. */
  lemma ClockExamples()
    ensures Clock(180) == "0:03:00" && Clock(60) == "0:01:00"
    ensures Clock(90061) == "1 day, 1:01:01"
  {
    assert DigitChar(0) == '0' && DigitChar(1) == '1' && DigitChar(3) == '3';
    assert DecimalString(0) == "0" && DecimalString(1) == "1";
    assert Pad2(3) == "03" && Pad2(1) == "01" && Pad2(0) == "00";
    assert Hms(180) == "0:03:00" by {
      assert 180 / 3600 == 0 && 180 / 60 % 60 == 3 && 180 % 60 == 0;
    }
    assert Hms(60) == "0:01:00" by {
      assert 60 / 3600 == 0 && 60 / 60 % 60 == 1 && 60 % 60 == 0;
    }
    assert Hms(3661) == "1:01:01" by {
      assert 3661 / 3600 == 1 && 3661 / 60 % 60 == 1 && 3661 % 60 == 1;
    }
    assert DayPrefix(0) == "" && DayPrefix(1) == "1 day, ";
    assert 180 / 86400 == 0 && 180 % 86400 == 180 && 60 / 86400 == 0 && 60 % 86400 == 60;
    assert 90061 / 86400 == 1 && 90061 % 86400 == 3661;
  }

  /** The number of decimal digits at the end of `s`. */
  function TrailingDigits(s: string): (k: nat)
    ensures k <= |s|
  {
    if s == [] || !IsDigit(s[|s| - 1]) then 0 else 1 + TrailingDigits(s[..|s| - 1])
  }

  /** The number of decimal digits at the start of `s`. */
  function LeadingDigits(s: string): (k: nat)
    ensures k <= |s|
  {
    if s == [] || !IsDigit(s[0]) then 0 else 1 + LeadingDigits(s[1..])
  }

  // The digit fields of a rendered duration: the days that open the text,
  // the hours just before the fixed-width tail ":MM:SS", minutes, seconds.

  function BeforeTail(c: string): (r: string)
    requires |c| >= 6
  {
    c[..|c| - 6]
  }

  function HoursText(c: string): (h: string)
    requires |c| >= 6
  {
    var r := BeforeTail(c);
    r[|r| - TrailingDigits(r)..]
  }

  function FrontText(c: string): (front: string)
    requires |c| >= 6
  {
    var r := BeforeTail(c);
    r[..|r| - TrailingDigits(r)]
  }

  function DaysText(front: string): (d: string)
  {
    front[..LeadingDigits(front)]
  }

  /** Reads a rendered duration back into a number of seconds. */
  function ParseClock(c: string): (s: nat)
    requires |c| >= 6
  {
    ParseDecimal(DaysText(FrontText(c))) * 86400 + ParseDecimal(HoursText(c)) * 3600
    + ParseDecimal(c[|c| - 5..|c| - 3]) * 60 + ParseDecimal(c[|c| - 2..])
  }

  lemma {:induction false} TrailingDigitsAfter(front: string, d: string)
    requires AllDigits(d)
    requires front == [] || !IsDigit(front[|front| - 1])
    ensures TrailingDigits(front + d) == |d|
  {
    if d != [] {
      assert (front + d)[..|front + d| - 1] == front + d[..|d| - 1];
      TrailingDigitsAfter(front, d[..|d| - 1]);
    } else {
      assert front + d == front;
    }
  }

  lemma {:induction false} LeadingDigitsBefore(d: string, tail: string)
    requires AllDigits(d)
    requires tail != [] && !IsDigit(tail[0])
    ensures LeadingDigits(d + tail) == |d|
  {
    if d != [] {
      assert (d + tail)[1..] == d[1..] + tail;
      LeadingDigitsBefore(d[1..], tail);
    } else {
      assert d + tail == tail;
    }
  }

  /** Splitting a number of seconds below one day into hours, minutes and seconds loses nothing. */
  lemma HmsParts(t: nat)
    requires t < 86400
    ensures t / 3600 < 24
    ensures (t / 3600) * 3600 + (t / 60 % 60) * 60 + t % 60 == t
  {
    var q := t / 60;
    assert t == q * 60 + t % 60;
    assert q == (q / 60) * 60 + q % 60;
    assert q / 60 == t / 3600;
  }

  /** The hours are the digits that end `rest`, and what comes before them is `front`. */
  lemma SplitHours(rest: string, front: string, h: string)
    requires rest == front + h && AllDigits(h)
    requires front == [] || !IsDigit(front[|front| - 1])
    ensures rest[..|rest| - TrailingDigits(rest)] == front
    ensures rest[|rest| - TrailingDigits(rest)..] == h
  {
    TrailingDigitsAfter(front, h);
  }

  /** How the fields are found in a text laid out as `front + hours + ":" + mm + ":" + ss`. */
  lemma ClockLayout(c: string, front: string, h: string, m: string, sec: string)
    requires c == front + h + ":" + m + ":" + sec
    requires AllDigits(h)
    requires front == [] || !IsDigit(front[|front| - 1])
    requires |m| == 2 && |sec| == 2
    ensures |c| >= 6
    ensures FrontText(c) == front && HoursText(c) == h
    ensures c[|c| - 5..|c| - 3] == m && c[|c| - 2..] == sec
  {
    var rest := BeforeTail(c);
    assert rest == front + h by {
      assert c == (front + h) + (":" + m + ":" + sec);
    }
    assert c[|c| - 5..|c| - 3] == m && c[|c| - 2..] == sec by {
      assert c == (front + h + ":") + m + (":" + sec);
    }
    SplitHours(rest, front, h);
  }

  /** The days written at the head of the text are read back. */
  lemma DayPrefixValue(d: nat)
    ensures var p := DayPrefix(d); (p == [] || !IsDigit(p[|p| - 1])) && ParseDecimal(DaysText(p)) == d
  {
    var p := DayPrefix(d);
    if d != 0 {
      var tail := if d == 1 then " day, " else " days, ";
      LeadingDigitsBefore(DecimalString(d), tail);
      assert p[..LeadingDigits(p)] == DecimalString(d);
      DecimalRoundTrip(d);
    }
  }

  /** Nothing is lost in the rendering: the text gives back the number of seconds. */
  lemma ClockRoundTrip(s: nat)
    ensures |Clock(s)| >= 6
    ensures ParseClock(Clock(s)) == s
  {
    var d, t := s / 86400, s % 86400;
    var h, m, sec := t / 3600, t / 60 % 60, t % 60;
    var c := Clock(s);
    assert c == DayPrefix(d) + DecimalString(h) + ":" + Pad2(m) + ":" + Pad2(sec);
    DayPrefixValue(d);
    ClockLayout(c, DayPrefix(d), DecimalString(h), Pad2(m), Pad2(sec));
    DecimalRoundTrip(h);
    Pad2RoundTrip(m);
    Pad2RoundTrip(sec);
    assert ParseClock(c) == d * 86400 + h * 3600 + m * 60 + sec;
    HmsParts(t);
    assert s == d * 86400 + t;
  }

  /**
   * The layout of the text: `H:MM:SS` at the end, the minutes and seconds
   * two digits each and below 60, the hours below 24 and without a leading
   * zero, and before them a day count exactly when there is a whole day.
   */
  lemma ClockShape(s: nat)
    ensures var c := Clock(s);
            |c| >= 6 && c[|c| - 6] == ':' && c[|c| - 3] == ':'
            && AllDigits(c[|c| - 5..|c| - 3]) && ParseDecimal(c[|c| - 5..|c| - 3]) < 60
            && AllDigits(c[|c| - 2..]) && ParseDecimal(c[|c| - 2..]) < 60
            && HoursText(c) != [] && ParseDecimal(HoursText(c)) < 24
            && (HoursText(c)[0] == '0' ==> HoursText(c) == "0")
            && (FrontText(c) == [] <==> s < 86400)
            && ParseDecimal(DaysText(FrontText(c))) == s / 86400
  {
    var d, t := s / 86400, s % 86400;
    var h, m, sec := t / 3600, t / 60 % 60, t % 60;
    var c := Clock(s);
    var hours := DecimalString(h);
    assert c == DayPrefix(d) + hours + ":" + Pad2(m) + ":" + Pad2(sec);
    assert c == (DayPrefix(d) + hours) + ":" + Pad2(m) + ":" + Pad2(sec);
    DayPrefixValue(d);
    ClockLayout(c, DayPrefix(d), hours, Pad2(m), Pad2(sec));
    DecimalRoundTrip(h);
    Pad2RoundTrip(m);
    Pad2RoundTrip(sec);
    HmsParts(t);
    assert hours[0] == '0' ==> hours == DecimalString(0) == "0";
    assert d != 0 ==> |DayPrefix(d)| > 0;
  }
}
