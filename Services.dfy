/** `get_increased_cashback_criteria` of src/services.py: the cashback each
    category earned in one calendar month, rounded to two decimals. */
module Services {
  import opened Results
  import opened Text
  import opened Calendar
  import opened Ledger
  import opened Aggregate

  /** The days-in-month table of the source, keyed by two-digit month text.
      February always has 28 days here. */
  const DayInMonth: map<string, int> := map[
    "01" := 31, "02" := 28, "03" := 31, "04" := 30, "05" := 31, "06" := 30,
    "07" := 31, "08" := 31, "09" := 30, "10" := 31, "11" := 30, "12" := 31]

  /** A row of the reduced frame: "Дата операции", "Категория", "Кэшбэк". */
  datatype MonthRow = MonthRow(date: Date, category: string, cashback: Option<real>)

  function CategoryOf(r: MonthRow): string { r.category }

  /** A cashback cell, a missing one counting as 0. */
  function CashbackOf(r: MonthRow): real { r.cashback.GetOr(0.0) }

  /** The month window [y-m-01, y-m-last], both ends included. */
  predicate InMonth(d: Date, y: int, m: int, last: int) {
    DateLe(Date(y, m, 1), d) && DateLe(d, Date(y, m, last))
  }

  // ---------------------------------------------------------------------
  // The bounds of the month (src/services.py:28-45)

  /** `datetime(int(year), int(month), 1)`, then `day_in_month[month]`: the
      year, the month and the last day counted, or the error raised first. */
  function MonthBounds(year: string, month: string): (r: Result<(int, int, int)>)
    ensures r.Ok? ==> ValidDate(Date(r.value.0, r.value.1, 1)) && ValidDate(Date(r.value.0, r.value.1, r.value.2))
  {
    match ParseInt(year)
    case Err(e) => Err(e)
    case Ok(y) =>
      match ParseInt(month)
      case Err(e) => Err(e)
      case Ok(m) =>
        if !(1 <= y <= 9999 && 1 <= m <= 12) then Err(ValueError)
        else if month !in DayInMonth then Err(KeyError)
        else
          assert DayInMonth[month] == if m == 2 then 28 else DaysInMonth(y, m) by {
            KeyShape();
            KeyValue(month);
            KeyDays(month, y);
          }
          Ok((y, m, DayInMonth[month]))
  }

  /** The number two digit characters spell. */
  function TwoDigitValue(k: string): int
    requires |k| == 2 && IsDigit(k[0]) && IsDigit(k[1])
  {
    DigitValue(k[0]) * 10 + DigitValue(k[1])
  }

  /** Each key of the table is two digits spelling a month number. */
  lemma KeyShape()
    ensures forall k :: k in DayInMonth ==>
              |k| == 2 && IsDigit(k[0]) && IsDigit(k[1]) && 1 <= TwoDigitValue(k) <= 12
  {
  }

  /** Each key gives its month's length, except that February always has
      28 days. */
  lemma KeyDays(k: string, y: int)
    requires k in DayInMonth
    ensures |k| == 2 && IsDigit(k[0]) && IsDigit(k[1])
    ensures DayInMonth[k] == (if TwoDigitValue(k) == 2 then 28 else DaysInMonth(y, TwoDigitValue(k)))
  {
    KeyShape();
  }

  lemma KeyValue(k: string)
    requires |k| == 2 && IsDigit(k[0]) && IsDigit(k[1])
    ensures AllDigits(k) && DigitsValue(k) == TwoDigitValue(k) && ParseInt(k) == Ok(TwoDigitValue(k))
  {
    assert k[..] == k[0..];
    TwoDigitsValue(k);
  }

  lemma KeyFromDigits(month: string)
    requires |month| == 2 && IsDigit(month[0]) && IsDigit(month[1]) && 1 <= TwoDigitValue(month) <= 12
    ensures month in DayInMonth
  {
    var d0, d1 := DigitValue(month[0]), DigitValue(month[1]);
    assert month == [('0' as int + d0) as char, ('0' as int + d1) as char];
    if d0 == 0 {
      if d1 == 1 { assert month == "01"; }
      else if d1 == 2 { assert month == "02"; }
      else if d1 == 3 { assert month == "03"; }
      else if d1 == 4 { assert month == "04"; }
      else if d1 == 5 { assert month == "05"; }
      else if d1 == 6 { assert month == "06"; }
      else if d1 == 7 { assert month == "07"; }
      else if d1 == 8 { assert month == "08"; }
      else if d1 == 9 { assert month == "09"; }
    } else {
      if d1 == 0 { assert month == "10"; }
      else if d1 == 1 { assert month == "11"; }
      else if d1 == 2 { assert month == "12"; }
    }
  }

  /** The month text is a key exactly when it is two digits spelling 1..12:
      "4" is refused with a `KeyError` although `int("4")` is 4. */
  lemma MonthKeyText(month: string)
    ensures month in DayInMonth <==> |month| == 2 && AllDigits(month) && 1 <= DigitsValue(month) <= 12
  {
    if |month| == 2 && AllDigits(month) {
      KeyValue(month);
      if 1 <= DigitsValue(month) <= 12 {
        KeyFromDigits(month);
      }
    }
    if month in DayInMonth {
      KeyShape();
      KeyValue(month);
    }
  }

  /** The bounds are built exactly for a year 1..9999 and a two-digit month
      1..12; the window then ends on the month's last day, or on the 28th
      in February. */
  lemma MonthBoundsOk(year: string, month: string)
    ensures MonthBounds(year, month).Ok? <==>
              ParseInt(year).Ok? && 1 <= ParseInt(year).value <= 9999 && month in DayInMonth
    ensures MonthBounds(year, month).Ok? ==>
              var (y, m, last) := MonthBounds(year, month).value;
              && y == ParseInt(year).value
              && m == DigitsValue(month)
              && last == (if m == 2 then 28 else DaysInMonth(y, m))
  {
    if month in DayInMonth {
      KeyShape();
      KeyValue(month);
      var m := TwoDigitValue(month);
      if ParseInt(year).Ok? && 1 <= ParseInt(year).value <= 9999 {
        var y := ParseInt(year).value;
        KeyDays(month, y);
        assert MonthBounds(year, month) == Ok((y, m, DayInMonth[month]));
      }
    }
  }

  /** A month that `int()` reads as 1..12 but that is not written with two
      plain digits ("4", "+4", "004") raises `KeyError`; every other
      failure is a `ValueError`. */
  lemma MonthBoundsErrors(year: string, month: string)
    ensures MonthBounds(year, month) == Err(KeyError) <==>
              ParseInt(year).Ok? && 1 <= ParseInt(year).value <= 9999
              && ParseInt(month).Ok? && 1 <= ParseInt(month).value <= 12
              && !(|month| == 2 && SignOf(month) == 0)
    ensures MonthBounds(year, month).Err? ==> MonthBounds(year, month).error in {KeyError, ValueError}
  {
    MonthKeyText(month);
    if ParseInt(month).Ok? && |month| == 2 && SignOf(month) == 0 {
      assert month[SignOf(month)..] == month;
    }
  }

  /** The example of a one-digit month. */
  lemma OneDigitMonth()
    ensures MonthBounds("2023", "4") == Err(KeyError)
  {
    MonthKeyText("4");
    assert "4"[..] == "4"[0..];
    assert "2023"[..] == "2023"[0..];
    FourDigits("2023");
  }

  // ---------------------------------------------------------------------
  // The month filter and the missing cashback (src/services.py:25,42-48)

  function Reduce(t: Transaction): MonthRow
    requires t.date.Stamp?
  {
    MonthRow(t.date.date, t.category, t.cashback)
  }

  /** The reduced rows dated within the month window, in table order. */
  function Picked(rows: seq<Transaction>, y: int, m: int, last: int): (r: seq<MonthRow>)
    requires AllStamped(rows)
    ensures forall j :: 0 <= j < |r| ==> InMonth(r[j].date, y, m, last)
  {
    if rows == [] then []
    else
      var init, t := rows[..|rows| - 1], rows[|rows| - 1];
      Picked(init, y, m, last) + (if InMonth(t.date.date, y, m, last) then [Reduce(t)] else [])
  }

  /** `fillna(0)` on the cashback column. */
  function Filled(rows: seq<MonthRow>): (r: seq<MonthRow>)
    ensures |r| == |rows|
  {
    seq(|rows|, i requires 0 <= i < |rows| => rows[i].(cashback := Some(CashbackOf(rows[i]))))
  }

  /** `fillna(0)`, assigned back into the filtered frame. */
  method FillMissingCashback(a: array<MonthRow>)
    modifies a
    ensures a[..] == Filled(old(a[..]))
  {
    for i := 0 to a.Length
      invariant forall j :: 0 <= j < i ==> a[j] == old(a[j]).(cashback := Some(CashbackOf(old(a[j]))))
      invariant forall j :: i <= j < a.Length ==> a[j] == old(a[j])
    {
      a[i] := a[i].(cashback := Some(CashbackOf(a[i])));
    }
  }

  /** `round(2)` on every value of a series. */
  function Rounded(m: map<string, real>): (r: map<string, real>)
    ensures r.Keys == m.Keys
    ensures forall k :: k in r ==> IsCents(r[k]) && -0.005 <= r[k] - m[k] <= 0.005
  {
    map k | k in m :: RoundCents(m[k])
  }

  // ---------------------------------------------------------------------
  // The whole function

  /** What a call returns: an error only of the kinds the date column and
      the month arguments raise, otherwise amounts in whole cents. */
  function CashbackCriteriaOf(rows: seq<Transaction>, year: string, month: string): (r: Result<map<string, real>>)
    ensures r.Err? ==> r.error in {TypeError(NotSubscriptable), ValueError, KeyError}
    ensures r.Ok? ==> forall c :: c in r.value ==> IsCents(r.value[c])
  {
    MonthBoundsErrors(year, month);
    match ConvertOutcome(rows)
    case Fail(e) => Err(e)
    case Pass =>
      assert AllStamped(ConvertedTable(rows));
      match MonthBounds(year, month)
      case Err(e) => Err(e)
      case Ok((y, m, last)) =>
        Ok(MonthCriteria(ConvertedTable(rows), y, m, last))
  }

  /** The rows of the converted table within the month window, missing
      cashback filled with 0, summed per category and rounded. */
  function MonthCriteria(table: seq<Transaction>, y: int, m: int, last: int): (r: map<string, real>)
    requires AllStamped(table)
    ensures r.Keys == MonthCategories(table, y, m, last)
    ensures forall c :: c in r ==> IsCents(r[c])
  {
    PickedCategories(table, y, m, last);
    Rounded(GroupSum(Filled(Picked(table, y, m, last)), CategoryOf, CashbackOf))
  }

  /** `get_increased_cashback_criteria(data, year, month)`. The date column
      of the caller's table is rewritten in place, even when a later step
      fails. */
  method GetIncreasedCashbackCriteria(data: array<Transaction>, year: string, month: string)
    returns (r: Result<map<string, real>>)
    modifies data
    ensures r == CashbackCriteriaOf(old(data[..]), year, month)
    ensures data[..] == ConvertedTable(old(data[..]))
  {
    var converted := ConvertDates(data);
    if converted.Fail? {
      return Err(converted.error);
    }
    var bounds := MonthBounds(year, month);
    if bounds.Err? {
      return Err(bounds.error);
    }
    var (y, m, last) := bounds.value;
    var picked := Picked(data[..], y, m, last);
    var frame := new MonthRow[|picked|](i requires 0 <= i < |picked| => picked[i]);
    assert frame[..] == picked;
    FillMissingCashback(frame);
    r := Ok(Rounded(GroupSum(frame[..], CategoryOf, CashbackOf)));
  }

  // ---------------------------------------------------------------------
  // Reference definitions over the converted table, and what the result is

  /** The categories of the operations dated within the month window. */
  function MonthCategories(rows: seq<Transaction>, y: int, m: int, last: int): set<string>
    requires AllStamped(rows)
  {
    set i | 0 <= i < |rows| && InMonth(rows[i].date.date, y, m, last) :: rows[i].category
  }

  /** Reference definition: the cashback of category `c` within the month
      window, a missing cashback counting as 0. */
  function CategoryTotal(rows: seq<Transaction>, y: int, m: int, last: int, c: string): real
    requires AllStamped(rows)
  {
    if rows == [] then 0.0
    else
      var init, t := rows[..|rows| - 1], rows[|rows| - 1];
      CategoryTotal(init, y, m, last, c)
        + (if InMonth(t.date.date, y, m, last) && t.category == c then t.cashback.GetOr(0.0) else 0.0)
  }

  /** Reference definition: all the cashback within the month window. */
  function MonthTotal(rows: seq<Transaction>, y: int, m: int, last: int): real
    requires AllStamped(rows)
  {
    if rows == [] then 0.0
    else
      var init, t := rows[..|rows| - 1], rows[|rows| - 1];
      MonthTotal(init, y, m, last) + (if InMonth(t.date.date, y, m, last) then t.cashback.GetOr(0.0) else 0.0)
  }

  lemma FilledAppend(a: seq<MonthRow>, b: seq<MonthRow>)
    ensures Filled(a + b) == Filled(a) + Filled(b)
  {
    assert forall i :: 0 <= i < |a + b| ==> (a + b)[i] == if i < |a| then a[i] else b[i - |a|];
  }

  /** The filled picked rows of a table are those of its prefix and then
      its last row, when that row falls in the window. */
  lemma FilledPickedSnoc(rows: seq<Transaction>, y: int, m: int, last: int)
    requires AllStamped(rows) && rows != []
    ensures var init, t := rows[..|rows| - 1], rows[|rows| - 1];
            && AllStamped(init)
            && Filled(Picked(rows, y, m, last))
               == Filled(Picked(init, y, m, last)) + Filled(if InMonth(t.date.date, y, m, last) then [Reduce(t)] else [])
  {
    var init, t := rows[..|rows| - 1], rows[|rows| - 1];
    assert forall i :: 0 <= i < |init| ==> init[i] == rows[i];
    var b := if InMonth(t.date.date, y, m, last) then [Reduce(t)] else [];
    assert Picked(rows, y, m, last) == Picked(init, y, m, last) + b;
    FilledAppend(Picked(init, y, m, last), b);
  }

  /** One filled row, its cashback a number. */
  lemma FilledOne(x: MonthRow)
    ensures Filled([x]) == [x.(cashback := Some(CashbackOf(x)))]
    ensures Filled([x])[..0] == []
  {
  }

  lemma {:induction false} PickedCategoryTotal(rows: seq<Transaction>, y: int, m: int, last: int, c: string)
    requires AllStamped(rows)
    ensures KeyTotal(Filled(Picked(rows, y, m, last)), CategoryOf, CashbackOf, c) == CategoryTotal(rows, y, m, last, c)
  {
    if rows != [] {
      var init, t := rows[..|rows| - 1], rows[|rows| - 1];
      FilledPickedSnoc(rows, y, m, last);
      PickedCategoryTotal(init, y, m, last, c);
      var b := if InMonth(t.date.date, y, m, last) then [Reduce(t)] else [];
      KeyTotalAppend(Filled(Picked(init, y, m, last)), Filled(b), CategoryOf, CashbackOf, c);
      if b != [] {
        FilledOne(Reduce(t));
      }
    }
  }

  lemma {:induction false} PickedMonthTotal(rows: seq<Transaction>, y: int, m: int, last: int)
    requires AllStamped(rows)
    ensures Total(Filled(Picked(rows, y, m, last)), CashbackOf) == MonthTotal(rows, y, m, last)
  {
    if rows != [] {
      var init, t := rows[..|rows| - 1], rows[|rows| - 1];
      FilledPickedSnoc(rows, y, m, last);
      PickedMonthTotal(init, y, m, last);
      var b := if InMonth(t.date.date, y, m, last) then [Reduce(t)] else [];
      TotalAppend(Filled(Picked(init, y, m, last)), Filled(b), CashbackOf);
      if b != [] {
        FilledOne(Reduce(t));
      }
    }
  }

  lemma {:induction false} PickedMembers(rows: seq<Transaction>, y: int, m: int, last: int)
    requires AllStamped(rows)
    ensures forall x :: x in Picked(rows, y, m, last) <==>
              exists i :: 0 <= i < |rows| && InMonth(rows[i].date.date, y, m, last) && x == Reduce(rows[i])
  {
    if rows != [] {
      var init := rows[..|rows| - 1];
      PickedMembers(init, y, m, last);
      assert forall i :: 0 <= i < |init| ==> init[i] == rows[i];
    }
  }

  lemma PickedCategories(rows: seq<Transaction>, y: int, m: int, last: int)
    requires AllStamped(rows)
    ensures KeysOf(Filled(Picked(rows, y, m, last)), CategoryOf) == MonthCategories(rows, y, m, last)
  {
    var p := Picked(rows, y, m, last);
    var f := Filled(p);
    PickedMembers(rows, y, m, last);
    forall c | c in KeysOf(f, CategoryOf) ensures c in MonthCategories(rows, y, m, last) {
      var j :| 0 <= j < |f| && f[j].category == c;
      assert p[j] in p;
    }
    forall c | c in MonthCategories(rows, y, m, last) ensures c in KeysOf(f, CategoryOf) {
      var i :| 0 <= i < |rows| && InMonth(rows[i].date.date, y, m, last) && rows[i].category == c;
      assert Reduce(rows[i]) in p;
      var j :| 0 <= j < |p| && p[j] == Reduce(rows[i]);
      assert f[j].category == c;
    }
  }

  /** The month's mapping holds one entry per category used within the
      window, each that category's cashback rounded to two decimals. */
  lemma MonthCriteriaOf(table: seq<Transaction>, y: int, m: int, last: int)
    requires AllStamped(table)
    ensures var r := MonthCriteria(table, y, m, last);
            && r.Keys == MonthCategories(table, y, m, last)
            && forall c :: c in r ==> r[c] == RoundCents(CategoryTotal(table, y, m, last, c))
  {
    PickedCategories(table, y, m, last);
    forall c | c in MonthCategories(table, y, m, last) {
      PickedCategoryTotal(table, y, m, last, c);
    }
  }

  /** A call that succeeds returns the mapping of the month for the
      converted table. */
  lemma CriteriaOf(rows: seq<Transaction>, year: string, month: string)
    requires CashbackCriteriaOf(rows, year, month).Ok?
    ensures ConvertOutcome(rows) == Pass && MonthBounds(year, month).Ok?
    ensures var table := ConvertedTable(rows); var (y, m, last) := MonthBounds(year, month).value;
            var r := CashbackCriteriaOf(rows, year, month).value;
            && AllStamped(table)
            && r.Keys == MonthCategories(table, y, m, last)
            && forall c :: c in r ==> r[c] == RoundCents(CategoryTotal(table, y, m, last, c))
  {
    var table := ConvertedTable(rows);
    var (y, m, last) := MonthBounds(year, month).value;
    MonthCriteriaOf(table, y, m, last);
  }

  /** A call fails exactly when the date column cannot be converted or the
      month bounds cannot be built; a month with no operations gives the
      empty mapping. */
  lemma CriteriaFails(rows: seq<Transaction>, year: string, month: string)
    ensures CashbackCriteriaOf(rows, year, month).Err? <==>
              ConvertOutcome(rows).Fail? || MonthBounds(year, month).Err?
    ensures CashbackCriteriaOf(rows, year, month).Ok? ==>
              var table := ConvertedTable(rows);
              var (y, m, last) := MonthBounds(year, month).value;
              AllStamped(table) &&
              (CashbackCriteriaOf(rows, year, month).value == map[] <==> MonthCategories(table, y, m, last) == {})
  {
    if CashbackCriteriaOf(rows, year, month).Ok? {
      CriteriaOf(rows, year, month);
    }
  }

  /** When every cashback of the month is a whole number of kopecks, the
      values of the month's mapping add up to all the cashback of the
      month. */
  lemma MonthCriteriaSum(table: seq<Transaction>, y: int, m: int, last: int)
    requires AllStamped(table)
    requires forall i :: 0 <= i < |table| && InMonth(table[i].date.date, y, m, last) ==> IsCents(table[i].cashback.GetOr(0.0))
    ensures SumValues(MonthCriteria(table, y, m, last)) == MonthTotal(table, y, m, last)
  {
    var p := Picked(table, y, m, last);
    var f := Filled(p);
    PickedCents(table, y, m, last);
    assert forall j :: 0 <= j < |f| ==> CashbackOf(f[j]) == CashbackOf(p[j]);
    GroupsOfCents(f);
    SumOfGroups(f, CategoryOf, CashbackOf);
    PickedMonthTotal(table, y, m, last);
  }

  lemma {:induction false} PickedCents(rows: seq<Transaction>, y: int, m: int, last: int)
    requires AllStamped(rows)
    requires forall i :: 0 <= i < |rows| && InMonth(rows[i].date.date, y, m, last) ==> IsCents(rows[i].cashback.GetOr(0.0))
    ensures forall j :: 0 <= j < |Picked(rows, y, m, last)| ==> IsCents(CashbackOf(Picked(rows, y, m, last)[j]))
  {
    if rows != [] {
      var init, t := rows[..|rows| - 1], rows[|rows| - 1];
      assert forall i :: 0 <= i < |init| ==> init[i] == rows[i];
      PickedCents(init, y, m, last);
      var a, b := Picked(init, y, m, last), if InMonth(t.date.date, y, m, last) then [Reduce(t)] else [];
      assert Picked(rows, y, m, last) == a + b;
      forall j | 0 <= j < |a + b| ensures IsCents(CashbackOf((a + b)[j])) {
        if j < |a| {
          assert (a + b)[j] == a[j];
          assert IsCents(CashbackOf(a[j]));
        } else {
          assert (a + b)[j] == Reduce(t) && InMonth(rows[|rows| - 1].date.date, y, m, last);
          assert IsCents(rows[|rows| - 1].cashback.GetOr(0.0));
          assert CashbackOf(Reduce(t)) == t.cashback.GetOr(0.0);
        }
      }
    }
  }

  /** Rounding sums of whole kopecks changes nothing. */
  lemma GroupsOfCents(f: seq<MonthRow>)
    requires forall j :: 0 <= j < |f| ==> IsCents(CashbackOf(f[j]))
    ensures Rounded(GroupSum(f, CategoryOf, CashbackOf)) == GroupSum(f, CategoryOf, CashbackOf)
  {
    var g := GroupSum(f, CategoryOf, CashbackOf);
    forall c | c in g ensures Rounded(g)[c] == g[c] {
      KeyTotalOfCents(f, CategoryOf, CashbackOf, c);
      RoundCentsExact(g[c]);
    }
  }

  // ---------------------------------------------------------------------
  // Rows that do not count

  /** A row whose converted date lies outside the month window changes
      nothing in the result. */
  lemma OutsideRowIgnored(rows: seq<Transaction>, t: Transaction, year: string, month: string)
    requires ConvertOutcome(rows + [t]) == Pass && MonthBounds(year, month).Ok?
    requires t.date.Written? && ParseDotDate(Prefix(t.date.text, 10)).Ok?
    requires var (y, m, last) := MonthBounds(year, month).value;
             !InMonth(ParseDotDate(Prefix(t.date.text, 10)).value, y, m, last)
    ensures CashbackCriteriaOf(rows + [t], year, month) == CashbackCriteriaOf(rows, year, month)
  {
    var (y, m, last) := MonthBounds(year, month).value;
    var all := rows + [t];
    ConvertSnoc(rows, t);
    var table := ConvertedTable(all);
    assert table[..|rows|] == ConvertedTable(rows);
    assert Picked(table, y, m, last) == Picked(ConvertedTable(rows), y, m, last);
  }

  /** A row dated 29 February is never counted, in any month of any year:
      the February window ends on the 28th. */
  lemma LeapDayIgnored(rows: seq<Transaction>, t: Transaction, year: string, month: string)
    requires ConvertOutcome(rows + [t]) == Pass && MonthBounds(year, month).Ok?
    requires t.date.Written? && ParseDotDate(Prefix(t.date.text, 10)).Ok?
    requires ParseDotDate(Prefix(t.date.text, 10)).value.month == 2
    requires ParseDotDate(Prefix(t.date.text, 10)).value.day == 29
    ensures CashbackCriteriaOf(rows + [t], year, month) == CashbackCriteriaOf(rows, year, month)
  {
    MonthBoundsOk(year, month);
    OutsideRowIgnored(rows, t, year, month);
  }

  /** Only the first ten characters of a date cell are read, so an
      operation at any time of the window's last day is counted like one at
      midnight. */
  lemma TimeOfDayIgnored(rows: seq<Transaction>, i: int, tail: string, year: string, month: string)
    requires 0 <= i < |rows| && rows[i].date.Written? && |rows[i].date.text| == 10
    ensures CashbackCriteriaOf(rows[i := rows[i].(date := Written(rows[i].date.text + tail))], year, month)
         == CashbackCriteriaOf(rows, year, month)
  {
    var rows' := rows[i := rows[i].(date := Written(rows[i].date.text + tail))];
    assert Prefix(rows'[i].date.text, 10) == rows[i].date.text;
    if AllWritten(rows) {
      assert AllWritten(rows');
      assert forall j :: 0 <= j < |rows| ==> Truncate(rows'[j]) == Truncate(rows[j]);
      assert Truncated(rows') == Truncated(rows);
    } else {
      var j :| 0 <= j < |rows| && !rows[j].date.Written?;
      assert rows'[j] == rows[j];
    }
  }

  lemma EveningPrefix()
    ensures Prefix("30.04.2023 23:59:59", 10) == "30.04.2023"
  {
  }

  lemma LastOfApril()
    ensures ParseDotDate("30.04.2023") == Ok(Date(2023, 4, 30))
  {
    DotDateText("30.04.2023");
  }

  /** The bounds of April 2023: the 1st to the 30th. */
  lemma AprilBounds()
    ensures MonthBounds("2023", "04") == Ok((2023, 4, 30))
  {
    var year, month := "2023", "04";
    assert AllDigits(year);
    ParseDigits(year);
    FourDigits(year);
    KeyValue(month);
    KeyFromDigits(month);
    KeyDays(month, 2023);
  }

  /** The evening of the last day of April 2023 falls within the April
      window. */
  lemma LastDayEvening()
    ensures ParseDotDate(Prefix("30.04.2023 23:59:59", 10)) == Ok(Date(2023, 4, 30))
    ensures MonthBounds("2023", "04") == Ok((2023, 4, 30)) && InMonth(Date(2023, 4, 30), 2023, 4, 30)
  {
    EveningPrefix();
    LastOfApril();
    AprilBounds();
  }

  /** A row whose date cell is `d` written as `dd.mm.yyyy`, with a category
      and a cashback, the other columns empty. */
  function Row(d: Date, category: string, cashback: real): Transaction
    requires ValidDate(d)
  {
    Transaction(Written(FormatDotDate(d)), "", "", "", "", category, "", Some(cashback))
  }

  function StampedRow(d: Date, category: string, cashback: real): Transaction {
    Transaction(Stamp(d), "", "", "", "", category, "", Some(cashback))
  }

  /** Four operations of April 2023 ("01.04.2023", "05.04.2023",
      "15.04.2023", "25.04.2023") in three categories. */
  function AprilRows(): seq<Transaction> {
    [Row(Date(2023, 4, 1), "Продукты", 50.0), Row(Date(2023, 4, 5), "Транспорт", 30.0),
     Row(Date(2023, 4, 15), "Развлечения", 20.0), Row(Date(2023, 4, 25), "Продукты", 40.0)]
  }

  function AprilTable(): seq<Transaction> {
    [StampedRow(Date(2023, 4, 1), "Продукты", 50.0), StampedRow(Date(2023, 4, 5), "Транспорт", 30.0),
     StampedRow(Date(2023, 4, 15), "Развлечения", 20.0), StampedRow(Date(2023, 4, 25), "Продукты", 40.0)]
  }

  /** A table of written dates converts to the same table with the dates
      read back. */
  lemma WrittenRowsConvert(dates: seq<Date>, rows: seq<Transaction>, table: seq<Transaction>)
    requires |dates| == |rows| == |table|
    requires forall i :: 0 <= i < |rows| ==> ValidDate(dates[i]) && rows[i].date == Written(FormatDotDate(dates[i]))
    requires forall i :: 0 <= i < |rows| ==> table[i] == rows[i].(date := Stamp(dates[i]))
    ensures ConvertOutcome(rows) == Pass && ConvertedTable(rows) == table
  {
    forall i | 0 <= i < |rows| ensures Truncate(rows[i]) == rows[i] && ParseDotDate(rows[i].date.text) == Ok(dates[i]) {
      DotDateRoundTrip(dates[i]);
    }
    assert Truncated(rows) == rows;
  }

  function AprilDates(): seq<Date> {
    [Date(2023, 4, 1), Date(2023, 4, 5), Date(2023, 4, 15), Date(2023, 4, 25)]
  }

  lemma AprilConverted()
    ensures ConvertOutcome(AprilRows()) == Pass && ConvertedTable(AprilRows()) == AprilTable()
  {
    AprilRowsWritten();
    AprilTableStamped();
    WrittenRowsConvert(AprilDates(), AprilRows(), AprilTable());
  }

  lemma AprilRowsWritten()
    ensures |AprilRows()| == |AprilDates()|
    ensures forall i :: 0 <= i < |AprilRows()| ==>
              ValidDate(AprilDates()[i]) && AprilRows()[i].date == Written(FormatDotDate(AprilDates()[i]))
  {
  }

  lemma AprilTableStamped()
    ensures |AprilTable()| == |AprilDates()|
    ensures forall i :: 0 <= i < |AprilRows()| ==> AprilTable()[i] == AprilRows()[i].(date := Stamp(AprilDates()[i]))
  {
  }

  lemma AprilCategories()
    ensures MonthCategories(AprilTable(), 2023, 4, 30) == {"Продукты", "Транспорт", "Развлечения"}
  {
    var table := AprilTable();
    assert forall i :: 0 <= i < 4 ==> InMonth(table[i].date.date, 2023, 4, 30);
    assert table[0].category == "Продукты" && table[1].category == "Транспорт" && table[2].category == "Развлечения";
  }

  lemma AprilCategoryTotals(c: string)
    ensures CategoryTotal(AprilTable(), 2023, 4, 30, c)
         == (if c == "Продукты" then 50.0 else 0.0) + (if c == "Транспорт" then 30.0 else 0.0)
          + (if c == "Развлечения" then 20.0 else 0.0) + (if c == "Продукты" then 40.0 else 0.0)
  {
    var table := AprilTable();
    assert forall i :: 0 <= i < 4 ==> InMonth(table[i].date.date, 2023, 4, 30);
    var p1, p2, p3 := table[..1], table[..2], table[..3];
    assert p1[..0] == [] && p2[..1] == p1 && p3[..2] == p2 && table[..3] == p3;
    assert CategoryTotal(p1, 2023, 4, 30, c) == if c == "Продукты" then 50.0 else 0.0;
    assert CategoryTotal(p2, 2023, 4, 30, c) == CategoryTotal(p1, 2023, 4, 30, c) + if c == "Транспорт" then 30.0 else 0.0;
    assert CategoryTotal(p3, 2023, 4, 30, c) == CategoryTotal(p2, 2023, 4, 30, c) + if c == "Развлечения" then 20.0 else 0.0;
  }

  lemma AprilTotals()
    ensures MonthCategories(AprilTable(), 2023, 4, 30) == {"Продукты", "Транспорт", "Развлечения"}
    ensures CategoryTotal(AprilTable(), 2023, 4, 30, "Продукты") == 90.0
    ensures CategoryTotal(AprilTable(), 2023, 4, 30, "Транспорт") == 30.0
    ensures CategoryTotal(AprilTable(), 2023, 4, 30, "Развлечения") == 20.0
  {
    AprilCategories();
    AprilCategoryTotals("Продукты");
    AprilCategoryTotals("Транспорт");
    AprilCategoryTotals("Развлечения");
  }

  /** A call whose date column converts and whose bounds build returns the
      month's mapping. */
  lemma CriteriaPass(rows: seq<Transaction>, year: string, month: string)
    requires ConvertOutcome(rows) == Pass && MonthBounds(year, month).Ok?
    ensures var (y, m, last) := MonthBounds(year, month).value;
            AllStamped(ConvertedTable(rows)) &&
            CashbackCriteriaOf(rows, year, month) == Ok(MonthCriteria(ConvertedTable(rows), y, m, last))
  {
  }

  lemma WholeAmountsRound()
    ensures RoundCents(90.0) == 90.0 && RoundCents(30.0) == 30.0 && RoundCents(20.0) == 20.0
  {
    RoundCentsExact(90.0);
    RoundCentsExact(30.0);
    RoundCentsExact(20.0);
  }

  lemma ThreeKeys<V>(r: map<string, V>, a: string, b: string, c: string)
    requires r.Keys == {a, b, c}
    ensures r == map[a := r[a], b := r[b], c := r[c]]
  {
  }

  lemma AprilCriteria()
    ensures MonthCriteria(AprilTable(), 2023, 4, 30) == map["Продукты" := 90.0, "Транспорт" := 30.0, "Развлечения" := 20.0]
  {
    var r := MonthCriteria(AprilTable(), 2023, 4, 30);
    AprilTotals();
    MonthCriteriaOf(AprilTable(), 2023, 4, 30);
    WholeAmountsRound();
    assert r.Keys == {"Продукты", "Транспорт", "Развлечения"};
    assert r["Продукты"] == 90.0 && r["Транспорт"] == 30.0 && r["Развлечения"] == 20.0;
    ThreeKeys(r, "Продукты", "Транспорт", "Развлечения");
  }

  /** The April 2023 example: products 90, transport 30, entertainment 20. */
  lemma AprilExample()
    ensures CashbackCriteriaOf(AprilRows(), "2023", "04")
         == Ok(map["Продукты" := 90.0, "Транспорт" := 30.0, "Развлечения" := 20.0])
  {
    AprilConverted();
    AprilBounds();
    CriteriaPass(AprilRows(), "2023", "04");
    AprilCriteria();
  }

  /** The same operations dated in May 2023. */
  function MayRows(): seq<Transaction> {
    [Row(Date(2023, 5, 1), "Продукты", 50.0), Row(Date(2023, 5, 5), "Транспорт", 30.0),
     Row(Date(2023, 5, 15), "Развлечения", 20.0), Row(Date(2023, 5, 25), "Продукты", 40.0)]
  }

  function MayTable(): seq<Transaction> {
    [StampedRow(Date(2023, 5, 1), "Продукты", 50.0), StampedRow(Date(2023, 5, 5), "Транспорт", 30.0),
     StampedRow(Date(2023, 5, 15), "Развлечения", 20.0), StampedRow(Date(2023, 5, 25), "Продукты", 40.0)]
  }

  /** A table with no operation in the month gives the empty mapping. */
  lemma NoneInMonth(table: seq<Transaction>, y: int, m: int, last: int)
    requires AllStamped(table)
    requires forall i :: 0 <= i < |table| ==> !InMonth(table[i].date.date, y, m, last)
    ensures MonthCriteria(table, y, m, last) == map[]
  {
    MonthCriteriaOf(table, y, m, last);
    assert MonthCategories(table, y, m, last) == {};
  }

  lemma MayInApril()
    ensures MonthCriteria(MayTable(), 2023, 4, 30) == map[]
  {
    var table := MayTable();
    forall i | 0 <= i < |table| ensures !InMonth(table[i].date.date, 2023, 4, 30) {
      assert table[i].date.date.month == 5;
    }
    NoneInMonth(table, 2023, 4, 30);
  }

  /** Asking for April about May operations gives the empty mapping. */
  lemma EmptyMonthExample()
    ensures CashbackCriteriaOf(MayRows(), "2023", "04") == Ok(map[])
  {
    MayConverted();
    AprilBounds();
    CriteriaPass(MayRows(), "2023", "04");
    MayInApril();
  }

  function MayDates(): seq<Date> {
    [Date(2023, 5, 1), Date(2023, 5, 5), Date(2023, 5, 15), Date(2023, 5, 25)]
  }

  lemma MayConverted()
    ensures ConvertOutcome(MayRows()) == Pass && ConvertedTable(MayRows()) == MayTable()
  {
    MayRowsWritten();
    MayTableStamped();
    WrittenRowsConvert(MayDates(), MayRows(), MayTable());
  }

  lemma MayRowsWritten()
    ensures |MayRows()| == |MayDates()|
    ensures forall i :: 0 <= i < |MayRows()| ==>
              ValidDate(MayDates()[i]) && MayRows()[i].date == Written(FormatDotDate(MayDates()[i]))
  {
  }

  lemma MayTableStamped()
    ensures |MayTable()| == |MayDates()|
    ensures forall i :: 0 <= i < |MayRows()| ==> MayTable()[i] == MayRows()[i].(date := Stamp(MayDates()[i]))
  {
  }

  /** A call that succeeds, on a month whose cashback is in whole kopecks,
      returns values that add up to all the cashback of the month. */
  lemma CriteriaSumToMonthTotal(rows: seq<Transaction>, year: string, month: string)
    requires CashbackCriteriaOf(rows, year, month).Ok?
    requires var table := ConvertedTable(rows); var (y, m, last) := MonthBounds(year, month).value;
             AllStamped(table) &&
             forall i :: 0 <= i < |table| && InMonth(table[i].date.date, y, m, last) ==> IsCents(table[i].cashback.GetOr(0.0))
    ensures var table := ConvertedTable(rows); var (y, m, last) := MonthBounds(year, month).value;
            AllStamped(table) &&
            SumValues(CashbackCriteriaOf(rows, year, month).value) == MonthTotal(table, y, m, last)
  {
    var table := ConvertedTable(rows);
    var (y, m, last) := MonthBounds(year, month).value;
    MonthCriteriaSum(table, y, m, last);
  }
}
