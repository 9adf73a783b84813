# bank_analitics_app — a verified model of its analytics core

This project models, in Dafny, the computing core of a small bank-analytics
application:

- `get_date_interval` and `get_greeting` (src/views.py): the month-to-date
  interval of a `"YYYY-MM-DD HH:MM:SS"` timestamp, and a greeting chosen
  by the time of day;
- `spanding_by_card_numbers` (src/views.py): per-card totals, per-card
  cashback (1 per 100) and the five largest payments among the operations
  dated within `[first_date, last_date]`;
- `get_increased_cashback_criteria` (src/services.py): the cashback
  earned per category in one month of one year;
- `report_writer` and `_write_file` (decorators/decorators.py): a
  decorator that appends a report record to a log file after every call of
  the function it wraps.

Modules:

| module | contents |
|---|---|
| `Results` | `Option`, `Result`, the Python errors raised (`ValueError`, `KeyError`, `TypeError`), `Outcome` |
| `Text` | `str.split()`, `str.replace`, slices `x[:n]` (also `iloc[:5]`), `int()` and `float()` on texts |
| `Calendar` | dates and times, the `%d.%m.%Y`, `%Y-%m-%d` and `%H:%M:%S` formats, read and written |
| `Aggregate` | `groupby(...).sum()`, `sort_values(ascending=False)`, `round(2)` |
| `Ledger` | a transaction row, and the date-column conversion both operations apply to the caller's table in place |
| `Greeting` | `get_date_interval`, `get_greeting` and the greeting as its rule intends |
| `CardSpending` | `spanding_by_card_numbers` |
| `Services` | `get_increased_cashback_criteria` |
| `Decorators` | `report_writer` and `_write_file` |

A pandas data frame is an `array` of rows that the operations rewrite in
place where the source assigns a column of the caller's frame (the date
column), and a fresh array for the filtered frames the source derives.
Each method is proved against a function of its inputs, and the
properties are proved about those functions. Errors that the source raises
are `Err` results.

Where the wording of the application's own documentation and the code
disagree, the model follows the code:

- the greeting for night hours raises `ValueError` rather than returning
  "Доброй ночи" (see Findings);
- `spanding_by_card_numbers` does not round the totals;
- its top rows keep the columns date, card, amount, currency and cashback.

## Model

| member | source | states |
|---|---|---|
| Text.ParseInt | src/services.py:43 | `int(s)` succeeds exactly on an optional sign followed by at least one decimal digit |
| Text.WordsOfPair | src/views.py:18 | `split()` of two space-free words joined by a space gives exactly those two words |
| Text.WordsOfOne | src/views.py:36 | `split()` of one space-free word gives one word, so unpacking into two names fails |
| Text.Words | src/views.py:18 | `split()` yields only non-empty tokens free of the separators |
| Text.WordsSep | src/views.py:18 | the words of a text are the words before any separator character followed by the words after it, which with `WordsOfOne` fixes `split()` on every text |
| Text.ParseDecimalOf | src/views.py:114 | `float(s)` succeeds exactly on an optional sign followed by digits with at most one dot and at least one digit, and then gives ±(integer digits + fraction digits / 10^(number of fraction digits)); anything else raises `ValueError` |
| Text.ParseDecimalExample | src/views.py:112-114 | `float("-160,89".replace(",", "."))` is -160.89 |
| Text.ParseDecimalTwoCommas | src/views.py:112-114 | an amount with two commas becomes a text with two dots, which `float` refuses |
| Text.Prefix | src/views.py:89 | `x[:10]` is the first ten characters, or all of a shorter text |
| Text.ReplaceChar | src/views.py:112 | `replace(",", ".")` replaces every comma and nothing else, keeping the length |
| Calendar.DaysInMonth | src/services.py:43-44 | the Gregorian month length `datetime` accepts; 29 exactly for February of a leap year |
| Calendar.FormatDotDate | src/views.py:25 | `%d.%m.%Y` writes day, month and year in fields of two, two and four digits separated by dots, each field reading back as its component |
| Calendar.ParseIsoDate | src/views.py:20 | `%Y-%m-%d` on two-digit month and day fields yields only valid dates, and every failure is `ValueError` (one-digit fields: see Left out) |
| Calendar.ParseTime | src/views.py:37 | `%H:%M:%S` on two-digit fields yields only valid times, and every failure is `ValueError` (one-digit fields: see Left out) |
| Calendar.ParseDotDate | src/views.py:92 | `%d.%m.%Y` yields only valid dates and otherwise raises `ValueError` |
| Calendar.DotDateRoundTrip | src/views.py:25 | reading back a date written with `%d.%m.%Y` gives the same date |
| Calendar.DotDateCanonical | src/views.py:107-108 | a text that reads as a date is the text that date is written as |
| Calendar.IsoDateRoundTrip | src/views.py:20 | reading back a date written with `%Y-%m-%d` gives the same date |
| Calendar.TimeRoundTrip | src/views.py:37 | reading back a time written with `%H:%M:%S` gives the same time |
| Calendar.DateLeTotalOrder | src/views.py:107-108 | the order used to compare operation dates is a total order |
| Greeting.DateIntervalOf | src/views.py:18-25 | for a valid date followed by any time token the result is (the first of that month, that date), both `%d.%m.%Y` |
| Greeting.DateIntervalBounds | src/views.py:23-25 | both results read back as dates, the first is day 1 of the second's month, and it is not later than the second |
| Greeting.DateIntervalIgnoresTime | src/views.py:18 | the time token does not change the result |
| Greeting.DateIntervalNeedsTime | src/views.py:18 | a text without a time token raises `ValueError` |
| Greeting.DateIntervalExample | src/views.py:18-25 | "2023-04-15 20:00:00" gives ("01.04.2023", "15.04.2023") |
| Greeting.GetDateInterval | src/views.py:9-25 | every error it raises is `ValueError` |
| Greeting.Between | src/views.py:39-43 | the chained comparison holds exactly when both bounds read as times and the time lies above the lower and at most the upper; when the time is above the upper bound the lower bound is never read; every failure is `ValueError` |
| Greeting.GreetingFor | src/views.py:38-64 | on a parsed time the chain fails only with `ValueError` and never returns the night greeting |
| Greeting.GetGreeting | src/views.py:28-64 | a text that does not split into two tokens, or whose second token is not a two-digit `%H:%M:%S` time, raises `ValueError`; every failure is `ValueError`; the result is "", morning, afternoon or evening, never the night greeting |
| Greeting.BoundsParse | src/views.py:39-61 | the seven bound texts read as the intended times and "24:00:00" raises `ValueError` |
| Greeting.ChainTests | src/views.py:39-61 | each range test is strict at its lower bound and inclusive at its upper bound; the night test raises for every time up to 03:59:59 and is false after |
| Greeting.GreetingByTime | src/views.py:39-56 | morning, afternoon and evening each hold exactly on their half-open ranges of seconds |
| Greeting.GreetingGaps | src/views.py:38-64 | exactly 04:00:00, 12:00:00 and 17:00:00 give the empty greeting; exactly the times up to 03:59:59 raise `ValueError`; the night greeting is never returned |
| Greeting.GreetingOf | src/views.py:36-37 | the greeting depends only on the time token |
| Greeting.GreetingTestCases | src/views.py:28-64 | 04:15, 12:15 and 17:15 give morning, afternoon and evening; 00:15 raises `ValueError` |
| Greeting.IntendedGreetingTotal | src/views.py:29-34 | the intended rule gives one of the four greetings at every time, each on its range, and agrees with the code wherever the code greets |
| Ledger.ConvertDates | src/views.py:89-92 | the caller's table ends as `ConvertedTable` and the outcome is `ConvertOutcome` of the old table |
| Ledger.ConvertedRow | src/views.py:89-92 | after a successful conversion each row's date is the date read from the first ten characters of its old text, and nothing else in the row changes |
| Ledger.ConvertTwiceFails | src/services.py:19 | converting an already converted, non-empty table fails with `TypeError` |
| Ledger.ConvertSnoc | src/services.py:19-22 | a conversion that succeeds on a table succeeds on its prefix, with the same rows |
| Aggregate.GroupSum | src/views.py:126-130 | the keys are the keys of the rows and each value is the total over the rows with that key |
| Aggregate.GroupSumPermutation | src/views.py:120-128 | grouping does not depend on the order of the rows, so sorting first changes nothing |
| Aggregate.SumOfGroups | src/services.py:51-52 | the group totals add up to the total of all rows |
| Aggregate.SortDesc | src/views.py:120 | the sorted rows are a permutation of the rows, largest first |
| Aggregate.TopRows | src/views.py:123 | the first n sorted rows: min(n, count) of them, ordered, drawn from the rows, and no left-out row is larger than a kept one |
| Aggregate.TopKeepsLarger | src/views.py:123 | a row larger than the smallest kept row is kept |
| Aggregate.RoundCents | src/services.py:52 | `round(2)` gives a whole number of cents at most half a cent away, so the nearest one, and an exact tie goes to the even cent |
| Aggregate.RoundCentsExact | src/services.py:52 | `round(2)` leaves whole-cent values unchanged |
| Aggregate.KeyTotalHundredth | src/views.py:117-130 | a per-key total of values each a hundredth of another is the hundredth of that total |
| CardSpending.SpendingByCardNumbers | src/views.py:67-132 | an empty table is returned itself, unchanged; otherwise the result is `CardSpendingOf` the old table and the caller's table has its date column converted |
| CardSpending.CardSpendingOf | src/views.py:86-132 | a non-empty table fails only with the `TypeError` of an already converted date column, the `TypeError` of a missing bound, or `ValueError`; otherwise it gives a report whose two maps have the same cards and which keeps at most five rows |
| CardSpending.Window | src/views.py:106-109 | the selected rows are no more than the table's, each dated within [first, last] |
| CardSpending.WindowMembers | src/views.py:95-109 | exactly the rows dated within [first, last], both ends included, are selected |
| CardSpending.FixCommas | src/views.py:112 | every amount has its commas replaced by dots |
| CardSpending.ParseAmounts | src/views.py:114 | every amount becomes its `float` value |
| CardSpending.AddCashback | src/views.py:117 | every row gains cashback amount / 100 |
| CardSpending.AllAmountsReadable | src/views.py:114 | reports whether every amount reads as a number |
| CardSpending.CardSpendingSpent | src/views.py:86-132 | a successful call returns the report built from the rows of the window, each priced as its amount with cashback amount / 100 |
| CardSpending.CardSpendingFails | src/views.py:107-114 | with a converted table and both dates valid, the call fails exactly when an amount in the window does not read as a number |
| CardSpending.CardSpendingSums | src/views.py:125-130 | the cards are exactly the cards of the window, each card's sum is its total payment in the window, and its cashback is that sum / 100 |
| CardSpending.CardSpendingTop | src/views.py:119-123 | the top rows of a successful call are min(5, window size) rows, largest amount first, a sub-multiset of the window's operations, each with cashback amount / 100; every copy of a window operation left out is no larger than the smallest kept row, and every window row larger than it is kept |
| CardSpending.ReportSums | src/views.py:126-130 | the two maps have the same keys, the cards of the rows, and the sums are per-card totals |
| CardSpending.ReportCashback | src/views.py:130 | each card's cashback is its sum / 100 |
| CardSpending.ReportTop | src/views.py:120-123 | the top rows are min(5, n) of the rows, ordered, a sub-multiset of them; no copy of a row left out is larger than the smallest kept row, and every row larger than it is kept |
| CardSpending.DateArg | src/views.py:107-108 | a date argument that is accepted is `%d.%m.%Y` text that reads as that date; a missing one raises `TypeError`, an unreadable one `ValueError` |
| Services.MonthBounds | src/services.py:28-45 | when the month's bounds exist, its first and last day counted are valid dates |
| Services.MonthBoundsOk | src/services.py:28-45 | bounds exist exactly for a year 1..9999 and a month key "01".."12"; then the last day is 28 for February and the month's length otherwise |
| Services.MonthBoundsErrors | src/services.py:43-44 | `KeyError` exactly when year and month are valid numbers but the month is not written as two digits; every failure is `KeyError` or `ValueError` |
| Services.MonthKeyText | src/services.py:28-41 | the keys of `day_in_month` are exactly the two-digit texts of 1..12 |
| Services.OneDigitMonth | src/services.py:44 | month "4" raises `KeyError` |
| Services.FillMissingCashback | src/services.py:48 | every missing cashback becomes 0 |
| Services.GetIncreasedCashbackCriteria | src/services.py:8-54 | the result is `CashbackCriteriaOf` the old table and the caller's table has its date column converted |
| Services.CashbackCriteriaOf | src/services.py:8-54 | a call fails only with the `TypeError` of an already converted date column, `ValueError` or `KeyError`; every value it returns is a whole number of cents |
| Services.MonthCriteria | src/services.py:42-52 | the keys are exactly the categories of the month's operations, and every value is a whole number of cents |
| Services.Rounded | src/services.py:52 | rounding keeps the keys, and each value becomes a whole number of cents at most half a cent from the sum |
| Services.CriteriaOf | src/services.py:42-52 | the keys are exactly the categories of the month's operations, each value the rounded total cashback of that category in the month |
| Services.CriteriaFails | src/services.py:19-44 | the call fails exactly when the date conversion or the month bounds fail; it returns the empty map exactly when no operation falls in the month |
| Services.MonthCriteriaOf | src/services.py:42-52 | the per-category values over a converted table are the rounded category totals of the month |
| Services.MonthCriteriaSum | src/services.py:51-52 | with whole-cent cashbacks, the values add up to the month's total cashback |
| Services.CriteriaSumToMonthTotal | src/services.py:8-54 | the same, for a whole call |
| Services.OutsideRowIgnored | src/services.py:42-45 | adding an operation dated outside the month does not change the result |
| Services.LeapDayIgnored | src/services.py:28-44 | an operation on 29 February is never counted |
| Services.TimeOfDayIgnored | src/services.py:19 | text after the tenth character of a date cell does not change the result, so every time of the last day counts |
| Services.LastDayEvening | src/services.py:19-44 | "30.04.2023 23:59:59" is counted in April 2023 |
| Services.AprilBounds | src/services.py:43-44 | year "2023", month "04" gives 1 to 30 April 2023 |
| Services.AprilExample | src/services.py:8-54 | four April 2023 operations in three categories give 90.0, 30.0 and 20.0 |
| Services.EmptyMonthExample | src/services.py:8-54 | a table with no operation in the month gives the empty map |
| Decorators.Files.WriteFile | decorators/decorators.py:5-12 | the named file gains the text at its end and is created if missing |
| Decorators.ReportWriter.constructor | decorators/decorators.py:15 | the writer starts with the given file name, or none |
| Decorators.ReportWriter.Call | decorators/decorators.py:20-43 | a call moves the writer and the files to `Step` of their old state and answers `Answer` |
| Decorators.Appended | decorators/decorators.py:10-11 | appending creates the file if missing, adds the text at the end, and leaves other files alone |
| Decorators.Answer | decorators/decorators.py:29-43 | the call succeeds exactly when the wrapped function returned, with its result unchanged; otherwise a `TypeError` naming the function is raised instead |
| Decorators.Step | decorators/decorators.py:20-41 | a given file name is kept, a missing one becomes the default log of the function called; the call appends exactly its record to that file and changes no other file |
| Decorators.Record | decorators/decorators.py:35-41 | a record starts with "Отчёт записан " and ends with a line break |
| Decorators.ReplayFilename | decorators/decorators.py:21-25 | after any calls the file name is the one given, or else the default log of the first function called |
| Decorators.ReplayLog | decorators/decorators.py:20-43 | all calls through one writer append their records, in order, to one file |
| Decorators.AppendOnly | decorators/decorators.py:10 | the files only grow: old contents are a prefix of the new |
| Decorators.RecordIsOneLine | decorators/decorators.py:35-41 | a record whose parts hold no line break is exactly one line ending in a line break |
| Decorators.OkMessageOneLine | decorators/decorators.py:40 | the message after a returned call holds no line break when the timestamp, the name and the result text hold none |
| Decorators.ErrorMessageOneLine | decorators/decorators.py:35 | the message after a raised call holds no line break when the timestamp, the name, the arguments and the error text hold none |
| Decorators.MyFuncExample | decorators/decorators.py:24-37 | the first failing call of a writer without a file name reports to `../logs/my_func_report.log` and raises the `TypeError` naming `my_func` |

## Left out

- Text.ParseInt: models `int()` on ASCII digits with an optional sign; surrounding whitespace, underscores and non-ASCII digits, which `int()` also accepts, are not modelled.
- Text.ParseDecimalOf: characterises `float()` on an optional sign, ASCII digits and at most one dot only; exponents, `inf`, `nan`, surrounding whitespace, underscores between digits ("1_000.5") and non-ASCII digits, all of which `float()` also accepts, are refused by the model (Text.ParseDecimal), and the value is the exact decimal rather than the nearest binary double.
- Calendar.ParseDotDate: models `strptime` on fixed-width two- and four-digit fields; the one-digit fields and other leniencies of `strptime` are not modelled.
- Calendar.ParseIsoDate: models `strptime("%Y-%m-%d")` with ASCII digits, a four-digit year and a two-digit month and day only; `strptime` also accepts one-digit month and day fields and non-ASCII digits (its fields match `\d`), so `get_date_interval("2023-4-5 10:00:00")` returns ("01.04.2023", "05.04.2023") and "２０２３-04-15 10:00:00" (full-width digits) is read as well, where the model raises `ValueError`.
- Calendar.ParseTime: models `strptime("%H:%M:%S")` with two-digit ASCII fields only; `strptime` also accepts a one-digit hour, minute or second and non-ASCII digits, which the model refuses with `ValueError`.
- Greeting.GetGreeting: a time token with a one-digit field or non-ASCII digits raises `ValueError` in the model, while the source reads it: `get_greeting("2023-04-15 9:05:00")` returns "Доброе утро".
- Text.Words: splits on six characters only (space, `\t`, `\n`, `\r`, `\x0b`, `\x0c`); `str.split()` also splits on `\x1c` to `\x1f`, `\x85` and the other Unicode spaces, which are not modelled.
- Greeting.GetDateInterval: the year is written with four digits ("0999"); the C library's `%Y` writes years below 1000 without padding ("999"), so for those years the texts differ from the ones modelled. A date token with one-digit month or day fields or non-ASCII digits raises `ValueError` in the model although the source reads it (see Calendar.ParseIsoDate).
- Ledger.ConvertDates: a missing (NaN) date cell makes `x[:10]` raise `TypeError` (src/views.py:89, src/services.py:19); date cells are always present in the model, so that failure is not modelled.
- Floating point: amounts, cashback and sums are exact reals; `round(2)` is modelled as round-half-to-even on the exact value.
- pandas Timestamps cover only the years 1677 to 2262; the model accepts every year 1..9999.
- The order among rows with equal amounts after `sort_values` is not modelled; the top rows are stated up to that order.
- `groupby` drops rows whose key is missing; the card and category cells are always present in the model.
- Numeric amount cells (a column pandas has already read as numbers) are not modelled; amounts are texts, as in the operations export.
- A missing (NaN) amount cell in the date window makes `x.replace(",", ".")` raise `AttributeError` (src/views.py:112); amount cells are always texts in the model, so that failure is not modelled.
- `pd.options.mode.copy_on_write = True` (src/views.py:86, src/services.py:16) sets a process-wide pandas option that stays set after the call and changes how the caller's later pandas code copies and shares data; pandas options are not part of this model.
- Missing columns, which make pandas raise `KeyError`, are not modelled; every row has every column.
- `datetime.now()`, `str()` of the result, `str()` of the exception and the text of the arguments tuple are given as texts to the model.
- Keyword arguments of a wrapped call are passed on but not written to the record; the model only carries the text of the positional arguments.
- `if e:` is always true for an exception; a falsy exception is not modelled.
- Exceptions that are not `Exception` subclasses, and I/O errors of `_write_file`, are not modelled.
- `get_currency_rate` and `get_responce` in src/views.py are stubs without behaviour; src/reports.py, src/utils.py and src/main.py are not part of this model.

## Findings

| source | as written | input that shows it | evidently intended | confidence | as-written member | corrected member |
|---|---|---|---|---|---|---|
| src/views.py:57-62 | the night test reads "24:00:00" with `%H:%M:%S`, which raises `ValueError` whenever the earlier tests are false | "2023-04-15 00:15:00" | "Доброй ночи" from 0:00 to 3:59 | not executed | Greeting.GreetingTestCases | Greeting.IntendedGreetingTotal |
| src/views.py:39-56 | each range test is strict at its lower bound | "2023-04-15 04:00:00" gives "" | 04:00, 12:00 and 17:00 open their periods | not executed | Greeting.GreetingGaps | Greeting.IntendedGreetingTotal |
