/** Calendar dates and times of day as integer triples, the three text
    layouts the code reads or writes (`%d.%m.%Y`, `%Y-%m-%d`, `%H:%M:%S`),
    and the order in which `datetime` compares them. */
module Calendar {
  import opened Results
  import opened Text

  datatype Date = Date(year: int, month: int, day: int)
  datatype Time = Time(hour: int, minute: int, second: int)

  predicate IsLeapYear(y: int) {
    y % 4 == 0 && (y % 100 != 0 || y % 400 == 0)
  }

  /** The Gregorian length of a month, as `datetime` checks it. */
  function DaysInMonth(y: int, m: int): (n: int)
    requires 1 <= m <= 12
    ensures 28 <= n <= 31
    ensures n == 29 <==> m == 2 && IsLeapYear(y)
  {
    if m == 2 then (if IsLeapYear(y) then 29 else 28)
    else if m == 4 || m == 6 || m == 9 || m == 11 then 30
    else 31
  }

  /** The dates `datetime.date` accepts. */
  predicate ValidDate(d: Date) {
    1 <= d.year <= 9999 && 1 <= d.month <= 12 && 1 <= d.day <= DaysInMonth(d.year, d.month)
  }

  /** The times `datetime.time` accepts, at whole seconds. */
  predicate ValidTime(t: Time) {
    0 <= t.hour < 24 && 0 <= t.minute < 60 && 0 <= t.second < 60
  }

  /** Chronological order of dates (midnight timestamps). */
  predicate DateLe(a: Date, b: Date) {
    a.year < b.year
    || (a.year == b.year && (a.month < b.month || (a.month == b.month && a.day <= b.day)))
  }

  /** Seconds since midnight; comparing these is comparing `datetime.time` values. */
  function Seconds(t: Time): int {
    t.hour * 3600 + t.minute * 60 + t.second
  }

  // ---------------------------------------------------------------------
  // Rendering

  /** `strftime("%d.%m.%Y")`: day, month and year in fields of two, two
      and four digits, each reading back as that component. */
  function FormatDotDate(d: Date): (s: string)
    requires ValidDate(d)
    ensures |s| == 10 && s[2] == '.' && s[5] == '.'
    ensures AllDigits(s[..2]) && DigitsValue(s[..2]) == d.day
    ensures AllDigits(s[3..5]) && DigitsValue(s[3..5]) == d.month
    ensures AllDigits(s[6..]) && DigitsValue(s[6..]) == d.year
  {
    var dd, mm, yyyy := PadDigits(d.day, 2), PadDigits(d.month, 2), PadDigits(d.year, 4);
    PadDigitsValue(d.day, 2);
    PadDigitsValue(d.month, 2);
    PadDigitsValue(d.year, 4);
    DotFields(dd, mm, yyyy);
    dd + "." + mm + "." + yyyy
  }

  /** Where the three fields of a `%d.%m.%Y` text sit. */
  lemma DotFields(dd: string, mm: string, yyyy: string)
    requires |dd| == 2 && |mm| == 2 && |yyyy| == 4
    ensures var s := dd + "." + mm + "." + yyyy;
            |s| == 10 && s[2] == '.' && s[5] == '.' && s[..2] == dd && s[3..5] == mm && s[6..] == yyyy
  {
    var s := dd + "." + mm + "." + yyyy;
    assert s == dd + ("." + (mm + ("." + yyyy)));
    assert s[..2] == dd;
    assert s[3..5] == mm;
    assert s[6..] == yyyy;
  }

  /** `strftime("%Y-%m-%d")`. */
  function FormatIsoDate(d: Date): (s: string)
    requires ValidDate(d)
    ensures |s| == 10
  {
    PadDigits(d.year, 4) + "-" + PadDigits(d.month, 2) + "-" + PadDigits(d.day, 2)
  }

  /** `strftime("%H:%M:%S")`. */
  function FormatTime(t: Time): (s: string)
    requires ValidTime(t)
    ensures |s| == 8
  {
    PadDigits(t.hour, 2) + ":" + PadDigits(t.minute, 2) + ":" + PadDigits(t.second, 2)
  }

  // ---------------------------------------------------------------------
  // Parsing: three fixed-width digit fields around two separators

  /** The three numbers of a `ddSddSdddd`-shaped (`wide` last) or
      `ddddSddSdd`-shaped (`wide` first) string, or nothing. */
  function Fields(s: string, sep: char, wideFirst: bool): Option<(int, int, int)>
  {
    if wideFirst then
      if |s| == 10 && s[4] == sep && s[7] == sep
         && AllDigits(s[..4]) && AllDigits(s[5..7]) && AllDigits(s[8..])
      then Some((DigitsValue(s[..4]), DigitsValue(s[5..7]), DigitsValue(s[8..])))
      else None
    else
      if |s| == 10 && s[2] == sep && s[5] == sep
         && AllDigits(s[..2]) && AllDigits(s[3..5]) && AllDigits(s[6..])
      then Some((DigitsValue(s[..2]), DigitsValue(s[3..5]), DigitsValue(s[6..])))
      else None
  }

  /** `strptime(s, "%d.%m.%Y")` (and pandas' `to_datetime` with that format):
      two-digit day and month, four-digit year, a real calendar date. */
  function ParseDotDate(s: string): (r: Result<Date>)
    ensures r.Ok? ==> ValidDate(r.value)
    ensures r.Err? ==> r.error == ValueError
  {
    match Fields(s, '.', false)
    case Some((dd, mm, yyyy)) =>
      if ValidDate(Date(yyyy, mm, dd)) then Ok(Date(yyyy, mm, dd)) else Err(ValueError)
    case None => Err(ValueError)
  }

  /** `strptime(s, "%Y-%m-%d")`. */
  function ParseIsoDate(s: string): (r: Result<Date>)
    ensures r.Ok? ==> ValidDate(r.value)
    ensures r.Err? ==> r.error == ValueError
  {
    match Fields(s, '-', true)
    case Some((yyyy, mm, dd)) =>
      if ValidDate(Date(yyyy, mm, dd)) then Ok(Date(yyyy, mm, dd)) else Err(ValueError)
    case None => Err(ValueError)
  }

  /** `strptime(s, "%H:%M:%S").time()`: hour below 24, minute and second below 60. */
  function ParseTime(s: string): (r: Result<Time>)
    ensures r.Ok? ==> ValidTime(r.value)
    ensures r.Err? ==> r.error == ValueError
  {
    if |s| == 8 && s[2] == ':' && s[5] == ':'
       && AllDigits(s[..2]) && AllDigits(s[3..5]) && AllDigits(s[6..])
    then
      var t := Time(DigitsValue(s[..2]), DigitsValue(s[3..5]), DigitsValue(s[6..]));
      if ValidTime(t) then Ok(t) else Err(ValueError)
    else Err(ValueError)
  }

  // ---------------------------------------------------------------------
  // Round trips

  lemma DotDateRoundTrip(d: Date)
    requires ValidDate(d)
    ensures ParseDotDate(FormatDotDate(d)) == Ok(d)
  {
    var s := FormatDotDate(d);
    assert Fields(s, '.', false) == Some((d.day, d.month, d.year));
  }

  /** The only text that reads as a date is its canonical rendering. */
  lemma DotDateCanonical(s: string)
    requires ParseDotDate(s).Ok?
    ensures FormatDotDate(ParseDotDate(s).value) == s
  {
    DigitsValuePad(s[..2]);
    DigitsValuePad(s[3..5]);
    DigitsValuePad(s[6..]);
    assert s == s[..2] + [s[2]] + s[3..5] + [s[5]] + s[6..];
  }

  lemma IsoDateRoundTrip(d: Date)
    requires ValidDate(d)
    ensures ParseIsoDate(FormatIsoDate(d)) == Ok(d)
  {
    var s := FormatIsoDate(d);
    assert s[..4] == PadDigits(d.year, 4);
    assert s[5..7] == PadDigits(d.month, 2);
    assert s[8..] == PadDigits(d.day, 2);
    PadDigitsValue(d.day, 2);
    PadDigitsValue(d.month, 2);
    PadDigitsValue(d.year, 4);
  }

  lemma TimeRoundTrip(t: Time)
    requires ValidTime(t)
    ensures ParseTime(FormatTime(t)) == Ok(t)
  {
    var s := FormatTime(t);
    assert s[..2] == PadDigits(t.hour, 2);
    assert s[3..5] == PadDigits(t.minute, 2);
    assert s[6..] == PadDigits(t.second, 2);
    PadDigitsValue(t.hour, 2);
    PadDigitsValue(t.minute, 2);
    PadDigitsValue(t.second, 2);
  }

  lemma FourDigits(s: string)
    requires |s| == 4 && AllDigits(s)
    ensures DigitsValue(s) == DigitValue(s[0]) * 1000 + DigitValue(s[1]) * 100 + DigitValue(s[2]) * 10 + DigitValue(s[3])
  {
    assert s[..3][..2] == s[..2];
    assert s[..2][..1] == s[..1];
    assert s[..1][..0] == [];
    assert DigitsValue(s[..1]) == DigitValue(s[0]);
    assert DigitsValue(s[..2]) == DigitValue(s[0]) * 10 + DigitValue(s[1]);
    assert DigitsValue(s[..3]) == DigitsValue(s[..2]) * 10 + DigitValue(s[2]);
  }

  /** `ParseTime` read off the characters of a `dd:dd:dd` text. */
  lemma TimeText(s: string)
    requires |s| == 8 && s[2] == ':' && s[5] == ':'
    requires IsDigit(s[0]) && IsDigit(s[1]) && IsDigit(s[3]) && IsDigit(s[4]) && IsDigit(s[6]) && IsDigit(s[7])
    ensures var t := Time(DigitValue(s[0]) * 10 + DigitValue(s[1]),
                          DigitValue(s[3]) * 10 + DigitValue(s[4]),
                          DigitValue(s[6]) * 10 + DigitValue(s[7]));
            ParseTime(s) == if ValidTime(t) then Ok(t) else Err(ValueError)
  {
    TwoDigitsValue(s[..2]);
    TwoDigitsValue(s[3..5]);
    TwoDigitsValue(s[6..]);
  }

  /** `ParseDotDate` read off the characters of a `dd.dd.dddd` text. */
  lemma DotDateText(s: string)
    requires |s| == 10 && s[2] == '.' && s[5] == '.'
    requires IsDigit(s[0]) && IsDigit(s[1]) && IsDigit(s[3]) && IsDigit(s[4])
    requires IsDigit(s[6]) && IsDigit(s[7]) && IsDigit(s[8]) && IsDigit(s[9])
    ensures var d := Date(DigitValue(s[6]) * 1000 + DigitValue(s[7]) * 100 + DigitValue(s[8]) * 10 + DigitValue(s[9]),
                          DigitValue(s[3]) * 10 + DigitValue(s[4]),
                          DigitValue(s[0]) * 10 + DigitValue(s[1]));
            ParseDotDate(s) == if ValidDate(d) then Ok(d) else Err(ValueError)
  {
    TwoDigitsValue(s[..2]);
    TwoDigitsValue(s[3..5]);
    FourDigits(s[6..]);
  }

  /** `ParseIsoDate` read off the characters of a `dddd-dd-dd` text. */
  lemma IsoDateText(s: string)
    requires |s| == 10 && s[4] == '-' && s[7] == '-'
    requires IsDigit(s[0]) && IsDigit(s[1]) && IsDigit(s[2]) && IsDigit(s[3])
    requires IsDigit(s[5]) && IsDigit(s[6]) && IsDigit(s[8]) && IsDigit(s[9])
    ensures var d := Date(DigitValue(s[0]) * 1000 + DigitValue(s[1]) * 100 + DigitValue(s[2]) * 10 + DigitValue(s[3]),
                          DigitValue(s[5]) * 10 + DigitValue(s[6]),
                          DigitValue(s[8]) * 10 + DigitValue(s[9]));
            ParseIsoDate(s) == if ValidDate(d) then Ok(d) else Err(ValueError)
  {
    FourDigits(s[..4]);
    TwoDigitsValue(s[5..7]);
    TwoDigitsValue(s[8..]);
  }

  /** Rendered dates and times are single `split()` tokens. */
  lemma FormatsHaveNoSpace(d: Date, t: Time)
    requires ValidDate(d) && ValidTime(t)
    ensures NoSpace(FormatDotDate(d)) && NoSpace(FormatIsoDate(d)) && NoSpace(FormatTime(t))
  {
  }

  /** `DateLe` is the total order `datetime` comparison gives. */
  lemma DateLeTotalOrder(a: Date, b: Date, c: Date)
    ensures DateLe(a, a)
    ensures DateLe(a, b) || DateLe(b, a)
    ensures DateLe(a, b) && DateLe(b, a) ==> a == b
    ensures DateLe(a, b) && DateLe(b, c) ==> DateLe(a, c)
  {
  }
}
