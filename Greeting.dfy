/** The date and time helpers of src/views.py: `get_date_interval` and
    `get_greeting`. */
module Greeting {
  import opened Results
  import opened Text
  import opened Calendar

  // ---------------------------------------------------------------------
  // get_date_interval

  /** Splits `"yyyy-mm-dd HH:MM:SS"` and returns the first of the month and
      the date itself, both as `dd.mm.yyyy`. The time token must be present
      but is never read. */
  function GetDateInterval(s: string): (r: Result<(string, string)>)
    ensures r.Err? ==> r.error == ValueError
  {
    var tokens := Words(s);
    if |tokens| != 2 then Err(ValueError)
    else
      match ParseIsoDate(tokens[0])
      case Err(e) => Err(e)
      case Ok(d) => Ok((FormatDotDate(Date(d.year, d.month, 1)), FormatDotDate(d)))
  }

  /** For a well-formed input the interval runs from day 01 of the input's
      month to the input's own date. */
  lemma DateIntervalOf(d: Date, time: string)
    requires ValidDate(d) && time != [] && NoSpace(time)
    ensures GetDateInterval(FormatIsoDate(d) + " " + time)
         == Ok((FormatDotDate(Date(d.year, d.month, 1)), FormatDotDate(d)))
  {
    FormatsHaveNoSpace(d, Time(0, 0, 0));
    WordsOfPair(FormatIsoDate(d), time);
    IsoDateRoundTrip(d);
  }

  /** Whatever the accepted input, both results read back as dates, the first
      is the 1st of the second's month, and so the first is not later. */
  lemma DateIntervalBounds(s: string)
    requires GetDateInterval(s).Ok?
    ensures var (b, e) := GetDateInterval(s).value;
            ParseDotDate(b).Ok? && ParseDotDate(e).Ok?
            && ParseDotDate(b).value == Date(ParseDotDate(e).value.year, ParseDotDate(e).value.month, 1)
            && DateLe(ParseDotDate(b).value, ParseDotDate(e).value)
  {
    var d := ParseIsoDate(Words(s)[0]).value;
    DotDateRoundTrip(d);
    DotDateRoundTrip(Date(d.year, d.month, 1));
  }

  /** The time token is required but ignored. */
  lemma DateIntervalIgnoresTime(date: string, t1: string, t2: string)
    requires date != [] && NoSpace(date)
    requires t1 != [] && NoSpace(t1) && t2 != [] && NoSpace(t2)
    ensures GetDateInterval(date + " " + t1) == GetDateInterval(date + " " + t2)
  {
    WordsOfPair(date, t1);
    WordsOfPair(date, t2);
  }

  /** A lone date, without its time token, is refused. */
  lemma DateIntervalNeedsTime(date: string)
    requires date != [] && NoSpace(date)
    ensures GetDateInterval(date) == Err(ValueError)
  {
    WordsOfOne(date);
  }

  lemma DateIntervalExample()
    ensures GetDateInterval("2023-04-15 20:00:00") == Ok(("01.04.2023", "15.04.2023"))
  {
    ExampleIsoDate();
    ExampleDotDates();
    ExampleSplit();
  }

  lemma ExampleSplit()
    ensures Words("2023-04-15 20:00:00") == ["2023-04-15", "20:00:00"]
  {
    var date, time := "2023-04-15", "20:00:00";
    assert NoSpace(date) && NoSpace(time);
    assert date + " " + time == "2023-04-15 20:00:00";
    WordsOfPair(date, time);
  }

  lemma ExampleIsoDate()
    ensures ParseIsoDate("2023-04-15") == Ok(Date(2023, 4, 15))
  {
    IsoDateText("2023-04-15");
  }

  lemma ExampleDotDates()
    ensures FormatDotDate(Date(2023, 4, 15)) == "15.04.2023"
    ensures FormatDotDate(Date(2023, 4, 1)) == "01.04.2023"
  {
    ExampleDotDate("15.04.2023", Date(2023, 4, 15));
    ExampleDotDate("01.04.2023", Date(2023, 4, 1));
  }

  lemma ExampleDotDate(s: string, d: Date)
    requires |s| == 10 && s[2] == '.' && s[5] == '.'
    requires IsDigit(s[0]) && IsDigit(s[1]) && IsDigit(s[3]) && IsDigit(s[4])
    requires IsDigit(s[6]) && IsDigit(s[7]) && IsDigit(s[8]) && IsDigit(s[9])
    requires d.day == DigitValue(s[0]) * 10 + DigitValue(s[1])
    requires d.month == DigitValue(s[3]) * 10 + DigitValue(s[4])
    requires d.year == DigitValue(s[6]) * 1000 + DigitValue(s[7]) * 100 + DigitValue(s[8]) * 10 + DigitValue(s[9])
    requires ValidDate(d)
    ensures FormatDotDate(d) == s
  {
    DotDateText(s);
    DotDateCanonical(s);
  }

  // ---------------------------------------------------------------------
  // get_greeting

  const Morning: string := "Доброе утро"
  const Afternoon: string := "Добрый день"
  const Evening: string := "Добрый вечер"
  const Night: string := "Доброй ночи"

  /** The bounds `get_greeting` parses on every call: each branch tests
      `after < t <= last`. */
  const MorningLast: string := "11:59:59"
  const MorningAfter: string := "04:00:00"
  const AfternoonLast: string := "16:59:59"
  const AfternoonAfter: string := "12:00:00"
  const EveningLast: string := "23:59:59"
  const EveningAfter: string := "17:00:00"
  const NightLast: string := "03:59:59"
  const NightAfter: string := "24:00:00"

  /** Python's chained comparison `strptime(hi).time() >= t > strptime(lo).time()`:
      `hi` is parsed first, and `lo` only when `hi >= t` holds. */
  function Between(hi: string, t: Time, lo: string): (r: Result<bool>)
    ensures r.Err? ==> r.error == ValueError
    ensures r == Ok(true) <==> ParseTime(hi).Ok? && ParseTime(lo).Ok?
                               && Seconds(ParseTime(lo).value) < Seconds(t) <= Seconds(ParseTime(hi).value)
    ensures ParseTime(hi).Ok? && Seconds(t) > Seconds(ParseTime(hi).value) ==> r == Ok(false)
  {
    match ParseTime(hi)
    case Err(e) => Err(e)
    case Ok(h) =>
      if Seconds(t) <= Seconds(h) then
        match ParseTime(lo)
        case Err(e) => Err(e)
        case Ok(l) => Ok(Seconds(l) < Seconds(t))
      else Ok(false)
  }

  /** The if/elif chain of `get_greeting` on a parsed time; the greeting
      starts as the empty string. The night branch can only fail or fall
      through, so the night greeting is never returned. */
  function GreetingFor(t: Time): (r: Result<string>)
    ensures r.Err? ==> r.error == ValueError
    ensures r.Ok? ==> r.value in {"", Morning, Afternoon, Evening}
  {
    NightBounds();
    var morning := Between(MorningLast, t, MorningAfter);
    if morning.Err? then Err(morning.error)
    else if morning.value then Ok(Morning)
    else
      var afternoon := Between(AfternoonLast, t, AfternoonAfter);
      if afternoon.Err? then Err(afternoon.error)
      else if afternoon.value then Ok(Afternoon)
      else
        var evening := Between(EveningLast, t, EveningAfter);
        if evening.Err? then Err(evening.error)
        else if evening.value then Ok(Evening)
        else
          var night := Between(NightLast, t, NightAfter);
          if night.Err? then Err(night.error)
          else if night.value then Ok(Night)
          else Ok("")
  }

  /** `get_greeting`: the second `split()` token is parsed as `%H:%M:%S`;
      the first is never read. Any other number of tokens, or a second token
      that is not a time, fails. */
  function GetGreeting(s: string): (r: Result<string>)
    ensures |Words(s)| != 2 ==> r == Err(ValueError)
    ensures |Words(s)| == 2 && ParseTime(Words(s)[1]).Err? ==> r == Err(ValueError)
    ensures r.Err? ==> r.error == ValueError
    ensures r.Ok? ==> r.value in {"", Morning, Afternoon, Evening}
  {
    var tokens := Words(s);
    if |tokens| != 2 then Err(ValueError)
    else
      match ParseTime(tokens[1])
      case Err(e) => Err(e)
      case Ok(t) => GreetingFor(t)
  }

  /** The constant bounds the chain parses; `NightAfter` is not a time. */
  lemma BoundsParse()
    ensures ParseTime(MorningLast) == Ok(Time(11, 59, 59))
    ensures ParseTime(MorningAfter) == Ok(Time(4, 0, 0))
    ensures ParseTime(AfternoonLast) == Ok(Time(16, 59, 59))
    ensures ParseTime(AfternoonAfter) == Ok(Time(12, 0, 0))
    ensures ParseTime(EveningLast) == Ok(Time(23, 59, 59))
    ensures ParseTime(EveningAfter) == Ok(Time(17, 0, 0))
    ensures ParseTime(NightLast) == Ok(Time(3, 59, 59))
    ensures ParseTime(NightAfter) == Err(ValueError)
  {
    MorningBounds();
    AfternoonBounds();
    EveningBounds();
    NightBounds();
  }

  lemma MorningBounds()
    ensures ParseTime(MorningLast) == Ok(Time(11, 59, 59))
    ensures ParseTime(MorningAfter) == Ok(Time(4, 0, 0))
  {
    TimeText(MorningLast);
    TimeText(MorningAfter);
  }

  lemma AfternoonBounds()
    ensures ParseTime(AfternoonLast) == Ok(Time(16, 59, 59))
    ensures ParseTime(AfternoonAfter) == Ok(Time(12, 0, 0))
  {
    TimeText(AfternoonLast);
    TimeText(AfternoonAfter);
  }

  lemma EveningBounds()
    ensures ParseTime(EveningLast) == Ok(Time(23, 59, 59))
    ensures ParseTime(EveningAfter) == Ok(Time(17, 0, 0))
  {
    TimeText(EveningLast);
    TimeText(EveningAfter);
  }

  lemma NightBounds()
    ensures ParseTime(NightLast) == Ok(Time(3, 59, 59))
    ensures ParseTime(NightAfter) == Err(ValueError)
  {
    TimeText(NightLast);
    TimeText(NightAfter);
  }

  lemma BetweenParsed(hi: string, t: Time, lo: string, h: Time, l: Time)
    requires ParseTime(hi) == Ok(h) && ParseTime(lo) == Ok(l)
    ensures Between(hi, t, lo) == Ok(Seconds(l) < Seconds(t) <= Seconds(h))
  {
  }

  /** The four tests of the chain, evaluated. */
  lemma ChainTests(t: Time)
    requires ValidTime(t)
    ensures Between(MorningLast, t, MorningAfter) == Ok(4 * 3600 < Seconds(t) <= 11 * 3600 + 59 * 60 + 59)
    ensures Between(AfternoonLast, t, AfternoonAfter) == Ok(12 * 3600 < Seconds(t) <= 16 * 3600 + 59 * 60 + 59)
    ensures Between(EveningLast, t, EveningAfter) == Ok(17 * 3600 < Seconds(t) <= 23 * 3600 + 59 * 60 + 59)
    ensures Between(NightLast, t, NightAfter)
         == if Seconds(t) <= 3 * 3600 + 59 * 60 + 59 then Err(ValueError) else Ok(false)
  {
    BoundsParse();
    BetweenParsed(MorningLast, t, MorningAfter, Time(11, 59, 59), Time(4, 0, 0));
    BetweenParsed(AfternoonLast, t, AfternoonAfter, Time(16, 59, 59), Time(12, 0, 0));
    BetweenParsed(EveningLast, t, EveningAfter, Time(23, 59, 59), Time(17, 0, 0));
  }

  /** Which greeting each time of day gets, as the code is written: three
      half-open ranges, three boundary instants that fall through to `""`,
      and a failure for every time up to 03:59:59. */
  lemma GreetingByTime(t: Time)
    requires ValidTime(t)
    ensures GreetingFor(t) == Ok(Morning) <==> 4 * 3600 < Seconds(t) <= 11 * 3600 + 59 * 60 + 59
    ensures GreetingFor(t) == Ok(Afternoon) <==> 12 * 3600 < Seconds(t) <= 16 * 3600 + 59 * 60 + 59
    ensures GreetingFor(t) == Ok(Evening) <==> 17 * 3600 < Seconds(t) <= 23 * 3600 + 59 * 60 + 59
  {
    ChainTests(t);
  }

  /** The gaps between the ranges: the three boundary instants fall through
      every branch to `""`; up to 03:59:59 the night branch goes on to parse
      `NightAfter` and fails, so the night greeting is never returned. */
  lemma GreetingGaps(t: Time)
    requires ValidTime(t)
    ensures GreetingFor(t) == Ok("") <==> Seconds(t) in {4 * 3600, 12 * 3600, 17 * 3600}
    ensures GreetingFor(t) == Err(ValueError) <==> Seconds(t) <= 3 * 3600 + 59 * 60 + 59
    ensures GreetingFor(t) != Ok(Night)
  {
    ChainTests(t);
  }

  /** `get_greeting` on `"<date> HH:MM:SS"` depends only on the time. */
  lemma GreetingOf(date: string, t: Time)
    requires date != [] && NoSpace(date) && ValidTime(t)
    ensures GetGreeting(date + " " + FormatTime(t)) == GreetingFor(t)
  {
    FormatsHaveNoSpace(Date(1, 1, 1), t);
    WordsOfPair(date, FormatTime(t));
    TimeRoundTrip(t);
  }

  /** The four cases of the greeting test: the first three hold, the night
      case fails instead of greeting. */
  lemma GreetingTestCases()
    ensures GetGreeting("2023-04-15 04:15:00") == Ok(Morning)
    ensures GetGreeting("2023-04-15 12:15:00") == Ok(Afternoon)
    ensures GetGreeting("2023-04-15 17:15:00") == Ok(Evening)
    ensures GetGreeting("2023-04-15 00:15:00") == Err(ValueError)
  {
    var cases := [Time(4, 15, 0), Time(12, 15, 0), Time(17, 15, 0), Time(0, 15, 0)];
    assert "2023-04-15 04:15:00" == "2023-04-15" + " " + FormatTime(cases[0]);
    assert "2023-04-15 12:15:00" == "2023-04-15" + " " + FormatTime(cases[1]);
    assert "2023-04-15 17:15:00" == "2023-04-15" + " " + FormatTime(cases[2]);
    assert "2023-04-15 00:15:00" == "2023-04-15" + " " + FormatTime(cases[3]);
    GreetingOf("2023-04-15", cases[0]);
    GreetingOf("2023-04-15", cases[1]);
    GreetingOf("2023-04-15", cases[2]);
    GreetingOf("2023-04-15", cases[3]);
    GreetingByTime(cases[0]);
    GreetingByTime(cases[1]);
    GreetingByTime(cases[2]);
    GreetingGaps(cases[3]);
  }

  // ---------------------------------------------------------------------
  // The greeting the docstring and the test describe

  /** Night 0-3 h, morning 4-11 h, afternoon 12-16 h, evening 17-23 h,
      each hour counted whole. */
  function IntendedGreeting(t: Time): (r: string)
    requires ValidTime(t)
  {
    if t.hour < 4 then Night
    else if t.hour < 12 then Morning
    else if t.hour < 17 then Afternoon
    else Evening
  }

  /** The intended greeting covers every time of day with a non-empty
      greeting, and agrees with the code wherever the code greets. */
  lemma IntendedGreetingTotal(t: Time)
    requires ValidTime(t)
    ensures IntendedGreeting(t) in {Night, Morning, Afternoon, Evening}
    ensures IntendedGreeting(t) == Night <==> Seconds(t) < 4 * 3600
    ensures IntendedGreeting(t) == Morning <==> 4 * 3600 <= Seconds(t) < 12 * 3600
    ensures IntendedGreeting(t) == Afternoon <==> 12 * 3600 <= Seconds(t) < 17 * 3600
    ensures IntendedGreeting(t) == Evening <==> 17 * 3600 <= Seconds(t)
    ensures GreetingFor(t).Ok? && GreetingFor(t).value != "" ==> GreetingFor(t) == Ok(IntendedGreeting(t))
  {
    GreetingByTime(t);
    GreetingGaps(t);
  }
}
