/** `spanding_by_card_numbers` of src/views.py: per-card totals, per-card
    cashback and the five largest payments of the operations dated within
    [first_date, last_date]. */
module CardSpending {
  import opened Results
  import opened Text
  import opened Calendar
  import opened Ledger
  import opened Aggregate

  /** A "Сумма платежа" cell of the filtered frame: text, then a number. */
  datatype Amount = Raw(text: string) | Number(value: real)

  /** A row of the filtered frame: the four kept columns, and "Кэшбэк" once
      it has been added. */
  datatype CardRow = CardRow(date: Date, card: string, amount: Amount, currency: string, cashback: Option<real>)

  /** A finished row: what `top_transactions` holds. */
  datatype Spending = Spending(date: Date, card: string, amount: real, currency: string, cashback: real)

  /** The empty table itself, or the triple (sums_by_card, cashback_by_card,
      top_transactions). */
  datatype CardReport =
    | Unchanged(table: array<Transaction>)
    | Report(sums: map<string, real>, cashback: map<string, real>, top: seq<Spending>)

  function CardOf(s: Spending): string { s.card }
  function AmountOf(s: Spending): real { s.amount }
  function CashbackOf(s: Spending): real { s.cashback }

  const NotStr: string := "strptime() argument 1 must be str, not None"

  /** `strptime(arg, "%d.%m.%Y")` on an optional argument. */
  function DateArg(arg: Option<string>): (r: Result<Date>)
    ensures r.Ok? ==> arg.Some? && ParseDotDate(arg.value) == r
    ensures arg.None? ==> r == Err(TypeError(NotStr))
    ensures arg.Some? && ParseDotDate(arg.value).Err? ==> r == Err(ValueError)
  {
    match arg
    case None => Err(TypeError(NotStr))
    case Some(text) => ParseDotDate(text)
  }

  predicate InWindow(d: Date, first: Date, last: Date) {
    DateLe(first, d) && DateLe(d, last)
  }

  // ---------------------------------------------------------------------
  // Column selection and the date filter (src/views.py:95-109)

  function Select(t: Transaction): CardRow
    requires t.date.Stamp?
  {
    CardRow(t.date.date, t.card, Raw(t.amount), t.currency, None)
  }

  /** The kept columns of the rows dated within [first, last], in table order. */
  function Window(rows: seq<Transaction>, first: Date, last: Date): (w: seq<CardRow>)
    requires AllStamped(rows)
    ensures |w| <= |rows|
    ensures forall j :: 0 <= j < |w| ==> w[j].amount.Raw? && InWindow(w[j].date, first, last)
  {
    if rows == [] then []
    else
      var init, t := rows[..|rows| - 1], rows[|rows| - 1];
      Window(init, first, last) + (if InWindow(t.date.date, first, last) then [Select(t)] else [])
  }

  /** Exactly the rows dated within [first, last] are selected. */
  lemma {:induction false} WindowMembers(rows: seq<Transaction>, first: Date, last: Date)
    requires AllStamped(rows)
    ensures forall x :: x in Window(rows, first, last) <==>
              exists i :: 0 <= i < |rows| && InWindow(rows[i].date.date, first, last) && x == Select(rows[i])
  {
    if rows != [] {
      var init, t := rows[..|rows| - 1], rows[|rows| - 1];
      WindowMembers(init, first, last);
      assert forall i :: 0 <= i < |init| ==> init[i] == rows[i];
    }
  }

  // ---------------------------------------------------------------------
  // Amounts and cashback on the filtered frame (src/views.py:112-117)

  predicate AllRaw(rows: seq<CardRow>) {
    forall i :: 0 <= i < |rows| ==> rows[i].amount.Raw?
  }

  function FixComma(r: CardRow): CardRow
    requires r.amount.Raw?
  {
    r.(amount := Raw(ReplaceChar(r.amount.text, ',', '.')))
  }

  function CommaFixed(rows: seq<CardRow>): (r: seq<CardRow>)
    requires AllRaw(rows)
    ensures |r| == |rows| && AllRaw(r)
  {
    seq(|rows|, i requires 0 <= i < |rows| => FixComma(rows[i]))
  }

  /** Every amount reads as a number. */
  predicate AllReadable(rows: seq<CardRow>) {
    forall i :: 0 <= i < |rows| ==> rows[i].amount.Raw? && ParseDecimal(rows[i].amount.text).Ok?
  }

  function ReadAmount(r: CardRow): (r': CardRow)
    requires r.amount.Raw? && ParseDecimal(r.amount.text).Ok?
    ensures r'.amount.Number?
  {
    r.(amount := Number(ParseDecimal(r.amount.text).value))
  }

  function Parsed(rows: seq<CardRow>): (r: seq<CardRow>)
    requires AllReadable(rows)
    ensures |r| == |rows|
    ensures forall i :: 0 <= i < |r| ==> r[i].amount.Number?
  {
    seq(|rows|, i requires 0 <= i < |rows| => ReadAmount(rows[i]))
  }

  predicate AllNumbers(rows: seq<CardRow>) {
    forall i :: 0 <= i < |rows| ==> rows[i].amount.Number?
  }

  function WithCashback(rows: seq<CardRow>): (r: seq<CardRow>)
    requires AllNumbers(rows)
    ensures |r| == |rows| && AllNumbers(r)
    ensures forall i :: 0 <= i < |r| ==> r[i].cashback.Some?
  {
    seq(|rows|, i requires 0 <= i < |rows| => rows[i].(cashback := Some(rows[i].amount.value / 100.0)))
  }

  function Spendings(rows: seq<CardRow>): (r: seq<Spending>)
    requires forall i :: 0 <= i < |rows| ==> rows[i].amount.Number? && rows[i].cashback.Some?
    ensures |r| == |rows|
  {
    seq(|rows|, i requires 0 <= i < |rows| =>
      Spending(rows[i].date, rows[i].card, rows[i].amount.value, rows[i].currency, rows[i].cashback.value))
  }

  /** `.map(lambda x: x.replace(",", "."))`, assigned back. */
  method FixCommas(a: array<CardRow>)
    requires AllRaw(a[..])
    modifies a
    ensures a[..] == CommaFixed(old(a[..]))
  {
    for i := 0 to a.Length
      invariant forall j :: 0 <= j < i ==> a[j] == FixComma(old(a[j]))
      invariant forall j :: i <= j < a.Length ==> a[j] == old(a[j])
    {
      a[i] := FixComma(a[i]);
    }
  }

  /** Scans the amounts for one `float()` cannot read. */
  method AllAmountsReadable(a: array<CardRow>) returns (ok: bool)
    ensures ok == AllReadable(a[..])
  {
    for i := 0 to a.Length
      invariant AllReadable(a[..i])
    {
      if a[i].amount.Number? || ParseDecimal(a[i].amount.text).Err? {
        return false;
      }
    }
    assert a[..] == a[..a.Length];
    return true;
  }

  /** `.map(lambda x: float(x))`, assigned back. */
  method ParseAmounts(a: array<CardRow>)
    requires AllReadable(a[..])
    modifies a
    ensures a[..] == Parsed(old(a[..]))
  {
    ghost var rows := a[..];
    for i := 0 to a.Length
      invariant forall j :: 0 <= j < i ==> a[j] == ReadAmount(rows[j])
      invariant forall j :: i <= j < a.Length ==> a[j] == rows[j]
    {
      assert rows[i].amount.Raw? && ParseDecimal(rows[i].amount.text).Ok?;
      a[i] := ReadAmount(a[i]);
    }
    assert forall j :: 0 <= j < a.Length ==> a[j] == Parsed(rows)[j];
  }

  /** The new "Кэшбэк" column: each amount divided by 100. */
  method AddCashback(a: array<CardRow>)
    requires AllNumbers(a[..])
    modifies a
    ensures a[..] == WithCashback(old(a[..]))
  {
    for i := 0 to a.Length
      invariant forall j :: 0 <= j < i ==> a[j] == old(a[j]).(cashback := Some(old(a[j]).amount.value / 100.0))
      invariant forall j :: i <= j < a.Length ==> a[j] == old(a[j])
    {
      a[i] := a[i].(cashback := Some(a[i].amount.value / 100.0));
    }
  }

  // ---------------------------------------------------------------------
  // The whole function

  lemma ConvertedIsStamped(rows: seq<Transaction>)
    requires ConvertOutcome(rows) == Pass
    ensures AllStamped(ConvertedTable(rows))
  {
  }

  /** The rows of the filtered frame once amounts and cashback are numbers. */
  function Priced(w: seq<CardRow>): seq<Spending>
    requires AllRaw(w) && AllReadable(CommaFixed(w))
  {
    Spendings(WithCashback(Parsed(CommaFixed(w))))
  }

  /** The triple built from the priced rows: sorted by amount, largest
      first, then grouped by card, and the first five kept. */
  function ReportOf(spent: seq<Spending>): CardReport {
    var sorted := SortDesc(spent, AmountOf);
    Report(GroupSum(sorted, CardOf, AmountOf), GroupSum(sorted, CardOf, CashbackOf), Prefix(sorted, 5))
  }

  /** What a call on a non-empty table returns: an error only of the kinds
      the date column, a missing or unreadable bound and an unreadable
      amount raise; otherwise a report whose two maps have the same cards
      and which keeps at most five rows. */
  function CardSpendingOf(rows: seq<Transaction>, firstDate: Option<string>, lastDate: Option<string>): (r: Result<CardReport>)
    ensures r.Err? ==> r.error in {TypeError(NotSubscriptable), TypeError(NotStr), ValueError}
    ensures r.Ok? ==> r.value.Report? && r.value.sums.Keys == r.value.cashback.Keys && |r.value.top| <= 5
  {
    match ConvertOutcome(rows)
    case Fail(e) => Err(e)
    case Pass =>
      ConvertedIsStamped(rows);
      var table := ConvertedTable(rows);
      match DateArg(firstDate)
      case Err(e) => Err(e)
      case Ok(first) =>
        match DateArg(lastDate)
        case Err(e) => Err(e)
        case Ok(last) =>
          var w := Window(table, first, last);
          if !AllReadable(CommaFixed(w)) then Err(ValueError)
          else
            Ok(ReportOf(Priced(w)))
  }

  /** `spanding_by_card_numbers(transactions, first_date, last_date)`. The
      date column of the caller's table is rewritten in place even when a
      later step fails. */
  method SpendingByCardNumbers(transactions: array<Transaction>, firstDate: Option<string>, lastDate: Option<string>)
    returns (r: Result<CardReport>)
    modifies transactions
    ensures transactions.Length == 0 ==> r == Ok(Unchanged(transactions)) && transactions[..] == old(transactions[..])
    ensures transactions.Length > 0 ==> r == CardSpendingOf(old(transactions[..]), firstDate, lastDate)
    ensures transactions.Length > 0 ==> transactions[..] == ConvertedTable(old(transactions[..]))
  {
    if transactions.Length == 0 {
      return Ok(Unchanged(transactions));
    }
    var converted := ConvertDates(transactions);
    if converted.Fail? {
      return Err(converted.error);
    }
    var first := DateArg(firstDate);
    if first.Err? {
      return Err(first.error);
    }
    var last := DateArg(lastDate);
    if last.Err? {
      return Err(last.error);
    }
    var w := Window(transactions[..], first.value, last.value);
    var frame := new CardRow[|w|](i requires 0 <= i < |w| => w[i]);
    assert frame[..] == w;
    FixCommas(frame);
    var readable := AllAmountsReadable(frame);
    if !readable {
      return Err(ValueError);
    }
    ParseAmounts(frame);
    AddCashback(frame);
    r := Ok(ReportOf(Spendings(frame[..])));
  }

  // ---------------------------------------------------------------------
  // Reference definitions over the converted table, and what the report is

  /** `float(text.replace(",", "."))`, or 0 where that fails. */
  function AmountValue(text: string): real {
    match ParseDecimal(ReplaceChar(text, ',', '.'))
    case Ok(v) => v
    case Err(_) => 0.0
  }

  predicate Readable(text: string) {
    ParseDecimal(ReplaceChar(text, ',', '.')).Ok?
  }

  /** Every amount dated within [first, last] reads as a number. */
  predicate WindowReadable(rows: seq<Transaction>, first: Date, last: Date)
    requires AllStamped(rows)
  {
    forall i :: 0 <= i < |rows| && InWindow(rows[i].date.date, first, last) ==> Readable(rows[i].amount)
  }

  /** The report row a table row becomes. */
  function SpendingOf(t: Transaction): Spending
    requires t.date.Stamp?
  {
    var v := AmountValue(t.amount);
    Spending(t.date.date, t.card, v, t.currency, v / 100.0)
  }

  /** Reference definition: the report rows of the operations dated within
      [first, last], in table order. */
  function Spent(rows: seq<Transaction>, first: Date, last: Date): (r: seq<Spending>)
    requires AllStamped(rows)
    ensures forall j :: 0 <= j < |r| ==> InWindow(r[j].date, first, last) && r[j].cashback == r[j].amount / 100.0
  {
    if rows == [] then []
    else
      var init, t := rows[..|rows| - 1], rows[|rows| - 1];
      Spent(init, first, last) + (if InWindow(t.date.date, first, last) then [SpendingOf(t)] else [])
  }

  /** Reference definition: what the operations on card `c` dated within
      [first, last] add up to. */
  function CardTotal(rows: seq<Transaction>, first: Date, last: Date, c: string): real
    requires AllStamped(rows)
  {
    if rows == [] then 0.0
    else
      var init, t := rows[..|rows| - 1], rows[|rows| - 1];
      CardTotal(init, first, last, c)
        + (if InWindow(t.date.date, first, last) && t.card == c then AmountValue(t.amount) else 0.0)
  }

  /** The cards of the operations dated within [first, last]. */
  function WindowCards(rows: seq<Transaction>, first: Date, last: Date): set<string>
    requires AllStamped(rows)
  {
    set i | 0 <= i < |rows| && InWindow(rows[i].date.date, first, last) :: rows[i].card
  }

  lemma PricedAppend(a: seq<CardRow>, b: seq<CardRow>)
    requires AllRaw(a) && AllReadable(CommaFixed(a)) && AllRaw(b) && AllReadable(CommaFixed(b))
    ensures AllRaw(a + b) && AllReadable(CommaFixed(a + b))
    ensures Priced(a + b) == Priced(a) + Priced(b)
  {
    var ab := a + b;
    assert forall i :: 0 <= i < |ab| ==> ab[i] == if i < |a| then a[i] else b[i - |a|];
    assert forall i :: 0 <= i < |ab| ==> CommaFixed(ab)[i] == if i < |a| then CommaFixed(a)[i] else CommaFixed(b)[i - |a|];
  }

  lemma FixedReadable(w: seq<CardRow>)
    requires AllRaw(w)
    ensures AllReadable(CommaFixed(w)) <==> forall j :: 0 <= j < |w| ==> Readable(w[j].amount.text)
  {
    assert forall j :: 0 <= j < |w| ==> CommaFixed(w)[j] == FixComma(w[j]);
  }

  /** The amounts of the filtered frame all read exactly when those of the
      rows dated within [first, last] do. */
  lemma ReadableWindow(rows: seq<Transaction>, first: Date, last: Date)
    requires AllStamped(rows)
    ensures AllReadable(CommaFixed(Window(rows, first, last))) <==> WindowReadable(rows, first, last)
  {
    var w := Window(rows, first, last);
    FixedReadable(w);
    WindowMembers(rows, first, last);
    if forall j :: 0 <= j < |w| ==> Readable(w[j].amount.text) {
      forall i | 0 <= i < |rows| && InWindow(rows[i].date.date, first, last) ensures Readable(rows[i].amount) {
        assert Select(rows[i]) in w;
      }
    }
    if WindowReadable(rows, first, last) {
      forall j | 0 <= j < |w| ensures Readable(w[j].amount.text) {
        assert w[j] in w;
      }
    }
  }

  /** The frame's rows, priced, are the reference rows. */
  lemma {:induction false} PricedWindow(rows: seq<Transaction>, first: Date, last: Date)
    requires AllStamped(rows) && WindowReadable(rows, first, last)
    ensures AllReadable(CommaFixed(Window(rows, first, last)))
    ensures Priced(Window(rows, first, last)) == Spent(rows, first, last)
  {
    ReadableWindow(rows, first, last);
    if rows != [] {
      var init, t := rows[..|rows| - 1], rows[|rows| - 1];
      assert forall i :: 0 <= i < |init| ==> init[i] == rows[i];
      PricedWindow(init, first, last);
      var b := if InWindow(t.date.date, first, last) then [Select(t)] else [];
      if InWindow(t.date.date, first, last) {
        assert CommaFixed(b)[0] == FixComma(Select(t));
      }
      PricedAppend(Window(init, first, last), b);
    }
  }

  /** Exactly the rows dated within [first, last] give report rows. */
  lemma {:induction false} SpentMembers(rows: seq<Transaction>, first: Date, last: Date)
    requires AllStamped(rows)
    ensures forall x :: x in Spent(rows, first, last) <==>
              exists i :: 0 <= i < |rows| && InWindow(rows[i].date.date, first, last) && x == SpendingOf(rows[i])
  {
    if rows != [] {
      var init := rows[..|rows| - 1];
      SpentMembers(init, first, last);
      assert forall i :: 0 <= i < |init| ==> init[i] == rows[i];
    }
  }

  lemma {:induction false} SpentHas(rows: seq<Transaction>, first: Date, last: Date, i: int)
    requires AllStamped(rows) && 0 <= i < |rows| && InWindow(rows[i].date.date, first, last)
    ensures SpendingOf(rows[i]) in Spent(rows, first, last)
  {
    var init := rows[..|rows| - 1];
    if i < |init| {
      assert init[i] == rows[i];
      SpentHas(init, first, last, i);
    }
  }

  /** Summing the reference rows of card `c` gives the card's total. */
  lemma {:induction false} SpentCardTotal(rows: seq<Transaction>, first: Date, last: Date, c: string)
    requires AllStamped(rows)
    ensures KeyTotal(Spent(rows, first, last), CardOf, AmountOf, c) == CardTotal(rows, first, last, c)
  {
    if rows != [] {
      var init, t := rows[..|rows| - 1], rows[|rows| - 1];
      assert forall i :: 0 <= i < |init| ==> init[i] == rows[i];
      SpentCardTotal(init, first, last, c);
      var b := if InWindow(t.date.date, first, last) then [SpendingOf(t)] else [];
      assert Spent(rows, first, last) == Spent(init, first, last) + b;
      KeyTotalAppend(Spent(init, first, last), b, CardOf, AmountOf, c);
      assert KeyTotal(b, CardOf, AmountOf, c)
          == if InWindow(t.date.date, first, last) && t.card == c then AmountValue(t.amount) else 0.0 by {
        if b != [] { assert b[..0] == []; }
      }
    }
  }

  lemma SpentCards(rows: seq<Transaction>, first: Date, last: Date)
    requires AllStamped(rows)
    ensures KeysOf(Spent(rows, first, last), CardOf) == WindowCards(rows, first, last)
  {
    var s := Spent(rows, first, last);
    SpentMembers(rows, first, last);
    forall c | c in KeysOf(s, CardOf) ensures c in WindowCards(rows, first, last) {
      var j :| 0 <= j < |s| && s[j].card == c;
      assert s[j] in s;
    }
    forall c | c in WindowCards(rows, first, last) ensures c in KeysOf(s, CardOf) {
      var i :| 0 <= i < |rows| && InWindow(rows[i].date.date, first, last) && rows[i].card == c;
      assert SpendingOf(rows[i]) in s;
      var j :| 0 <= j < |s| && s[j] == SpendingOf(rows[i]);
    }
  }

  /** Grouping the priced rows in any order gives one entry per card, the
      card's total; each card's cashback is its total divided by 100 when
      every row's cashback is its amount divided by 100. */
  lemma ReportSums(spent: seq<Spending>)
    ensures var r := ReportOf(spent);
            && r.sums.Keys == KeysOf(spent, CardOf)
            && r.cashback.Keys == r.sums.Keys
            && forall c :: c in r.sums ==> r.sums[c] == KeyTotal(spent, CardOf, AmountOf, c)
  {
    var sorted := SortDesc(spent, AmountOf);
    GroupSumPermutation(sorted, spent, CardOf, AmountOf);
    GroupSumPermutation(sorted, spent, CardOf, CashbackOf);
  }

  lemma ReportCashback(spent: seq<Spending>)
    requires forall j :: 0 <= j < |spent| ==> spent[j].cashback == spent[j].amount / 100.0
    ensures var r := ReportOf(spent);
            forall c :: c in r.sums ==> c in r.cashback && r.cashback[c] == r.sums[c] / 100.0
  {
    var sorted := SortDesc(spent, AmountOf);
    var r := ReportOf(spent);
    GroupSumPermutation(sorted, spent, CardOf, AmountOf);
    GroupSumPermutation(sorted, spent, CardOf, CashbackOf);
    forall c | c in r.sums ensures c in r.cashback && r.cashback[c] == r.sums[c] / 100.0 {
      KeyTotalHundredth(spent, CardOf, AmountOf, CashbackOf, c);
    }
  }

  /** The top rows are min(5, n) of the n priced rows, largest first:
      every copy of a row left out is no larger than the smallest kept row,
      and every row larger than it is kept. */
  lemma ReportTop(spent: seq<Spending>)
    ensures var top := ReportOf(spent).top;
            && |top| == (if |spent| < 5 then |spent| else 5)
            && SortedDesc(top, AmountOf)
            && multiset(top) <= multiset(spent)
            && (forall x :: x in multiset(spent) - multiset(top) && |top| > 0 ==> x.amount <= top[|top| - 1].amount)
            && forall x :: x in spent && |top| > 0 && x.amount > top[|top| - 1].amount ==> x in top
  {
    TopRows(spent, SortDesc(spent, AmountOf), AmountOf, 5);
    ReportTopDropped(spent);
    var top := ReportOf(spent).top;
    forall x | x in spent && |top| > 0 && x.amount > top[|top| - 1].amount ensures x in top {
      ReportTopLarger(spent, x);
    }
  }

  /** The top rows are drawn from the rows, and no copy of a row left out
      is larger than the smallest of them. */
  lemma ReportTopDropped(spent: seq<Spending>)
    ensures var top := ReportOf(spent).top;
            && multiset(top) <= multiset(spent)
            && forall x :: x in multiset(spent) - multiset(top) && |top| > 0 ==> x.amount <= top[|top| - 1].amount
  {
    TopRows(spent, SortDesc(spent, AmountOf), AmountOf, 5);
    var top := ReportOf(spent).top;
    forall x | x in multiset(spent) - multiset(top) && |top| > 0 ensures x.amount <= top[|top| - 1].amount {
      assert AmountOf(x) <= AmountOf(top[|top| - 1]);
    }
  }

  /** A row larger than the smallest top row is a top row. */
  lemma ReportTopLarger(spent: seq<Spending>, x: Spending)
    requires x in spent
    requires var top := ReportOf(spent).top; |top| > 0 && x.amount > top[|top| - 1].amount
    ensures x in ReportOf(spent).top
  {
    var sorted := SortDesc(spent, AmountOf);
    assert x in multiset(sorted);
    TopKeepsLarger(sorted, AmountOf, 5, x);
  }

  /** A call that returns a report returns the report of the reference rows. */
  lemma CardSpendingSpent(rows: seq<Transaction>, firstDate: Option<string>, lastDate: Option<string>)
    requires CardSpendingOf(rows, firstDate, lastDate).Ok?
    ensures ConvertOutcome(rows) == Pass && DateArg(firstDate).Ok? && DateArg(lastDate).Ok?
    ensures var table, first, last := ConvertedTable(rows), DateArg(firstDate).value, DateArg(lastDate).value;
            && AllStamped(table)
            && WindowReadable(table, first, last)
            && CardSpendingOf(rows, firstDate, lastDate).value == ReportOf(Spent(table, first, last))
  {
    var table, first, last := ConvertedTable(rows), DateArg(firstDate).value, DateArg(lastDate).value;
    ReadableWindow(table, first, last);
    PricedWindow(table, first, last);
  }

  /** A call on a non-empty table fails exactly when the date column cannot
      be converted, a bound is missing or unreadable, or an amount dated
      within the bounds does not read as a number; amounts outside the
      bounds are never read. */
  lemma CardSpendingFails(rows: seq<Transaction>, firstDate: Option<string>, lastDate: Option<string>)
    requires ConvertOutcome(rows) == Pass && DateArg(firstDate).Ok? && DateArg(lastDate).Ok?
    ensures var table, first, last := ConvertedTable(rows), DateArg(firstDate).value, DateArg(lastDate).value;
            AllStamped(table) &&
            (CardSpendingOf(rows, firstDate, lastDate).Err? <==> !WindowReadable(table, first, last))
  {
    var table, first, last := ConvertedTable(rows), DateArg(firstDate).value, DateArg(lastDate).value;
    ReadableWindow(table, first, last);
  }

  /** The per-card maps of a report: one total per card used within
      [first, last] (inclusive), equal to what that card's operations add up
      to, and a cashback per card equal to its total divided by 100. */
  lemma CardSpendingSums(rows: seq<Transaction>, firstDate: Option<string>, lastDate: Option<string>)
    requires CardSpendingOf(rows, firstDate, lastDate).Ok?
    ensures ConvertOutcome(rows) == Pass && DateArg(firstDate).Ok? && DateArg(lastDate).Ok?
    ensures var table, first, last := ConvertedTable(rows), DateArg(firstDate).value, DateArg(lastDate).value;
            var report := CardSpendingOf(rows, firstDate, lastDate).value;
            && AllStamped(table)
            && report.Report?
            && report.sums.Keys == WindowCards(table, first, last)
            && report.cashback.Keys == report.sums.Keys
            && (forall c :: c in report.sums ==> report.sums[c] == CardTotal(table, first, last, c))
            && (forall c :: c in report.sums ==> report.cashback[c] == report.sums[c] / 100.0)
  {
    CardSpendingSpent(rows, firstDate, lastDate);
    var table, first, last := ConvertedTable(rows), DateArg(firstDate).value, DateArg(lastDate).value;
    var spent := Spent(table, first, last);
    ReportSums(spent);
    ReportCashback(spent);
    SpentCards(table, first, last);
    forall c | c in ReportOf(spent).sums ensures ReportOf(spent).sums[c] == CardTotal(table, first, last, c) {
      SpentCardTotal(table, first, last, c);
    }
  }

  /** The top rows of the reference rows, in terms of the table. */
  lemma SpentTop(table: seq<Transaction>, first: Date, last: Date)
    requires AllStamped(table)
    ensures var top := ReportOf(Spent(table, first, last)).top;
            var n := |Spent(table, first, last)|;
            && |top| == (if n < 5 then n else 5)
            && SortedDesc(top, AmountOf)
            && multiset(top) <= multiset(Spent(table, first, last))
            && (forall x :: x in multiset(Spent(table, first, last)) - multiset(top) && |top| > 0 ==>
                  x.amount <= top[|top| - 1].amount)
            && (forall j :: 0 <= j < |top| ==>
                  InWindow(top[j].date, first, last) && top[j].cashback == top[j].amount / 100.0)
  {
    var spent := Spent(table, first, last);
    ReportTop(spent);
    var top := ReportOf(spent).top;
    forall j | 0 <= j < |top| ensures InWindow(top[j].date, first, last) && top[j].cashback == top[j].amount / 100.0 {
      assert top[j] in multiset(spent);
      var k :| 0 <= k < |spent| && spent[k] == top[j];
    }
  }

  lemma SpentTopLarger(table: seq<Transaction>, first: Date, last: Date)
    requires AllStamped(table)
    ensures var top := ReportOf(Spent(table, first, last)).top;
            forall i :: 0 <= i < |table| && InWindow(table[i].date.date, first, last) && |top| > 0
              && AmountValue(table[i].amount) > top[|top| - 1].amount
              ==> SpendingOf(table[i]) in top
  {
    var spent := Spent(table, first, last);
    var top := ReportOf(spent).top;
    forall i | 0 <= i < |table| && InWindow(table[i].date.date, first, last) && |top| > 0
                 && AmountValue(table[i].amount) > top[|top| - 1].amount
      ensures SpendingOf(table[i]) in top {
      SpentHas(table, first, last, i);
      ReportTopLarger(spent, SpendingOf(table[i]));
    }
  }

  /** `top` is what `sort_values(ascending=False)` then `iloc[:5]` keep of
      the operations dated within [first, last]: min(5, n) of the n
      operations, largest first, drawn from them (each at most as often as
      it occurs there) with their cashback; every copy of an operation left
      out is no larger than the smallest kept row, and every operation
      larger than it is kept. */
  predicate WindowTopRows(top: seq<Spending>, table: seq<Transaction>, first: Date, last: Date)
    requires AllStamped(table)
  {
    var n := |Window(table, first, last)|;
    && |top| == (if n < 5 then n else 5)
    && SortedDesc(top, AmountOf)
    && multiset(top) <= multiset(Spent(table, first, last))
    && (forall x :: x in multiset(Spent(table, first, last)) - multiset(top) && |top| > 0 ==>
          x.amount <= top[|top| - 1].amount)
    && (forall j :: 0 <= j < |top| ==>
          InWindow(top[j].date, first, last) && top[j].cashback == top[j].amount / 100.0)
    && (forall i :: 0 <= i < |table| && InWindow(table[i].date.date, first, last) && |top| > 0
          && AmountValue(table[i].amount) > top[|top| - 1].amount
          ==> SpendingOf(table[i]) in top)
  }

  /** The top rows of a successful call are the top rows of its window. */
  lemma CardSpendingTop(rows: seq<Transaction>, firstDate: Option<string>, lastDate: Option<string>)
    requires CardSpendingOf(rows, firstDate, lastDate).Ok?
    ensures ConvertOutcome(rows) == Pass && DateArg(firstDate).Ok? && DateArg(lastDate).Ok?
    ensures AllStamped(ConvertedTable(rows))
    ensures WindowTopRows(CardSpendingOf(rows, firstDate, lastDate).value.top,
                          ConvertedTable(rows), DateArg(firstDate).value, DateArg(lastDate).value)
  {
    CardSpendingSpent(rows, firstDate, lastDate);
    WindowTop(ConvertedTable(rows), DateArg(firstDate).value, DateArg(lastDate).value);
  }

  /** The top rows of the report on a window whose amounts all read. */
  lemma WindowTop(table: seq<Transaction>, first: Date, last: Date)
    requires AllStamped(table) && WindowReadable(table, first, last)
    ensures WindowTopRows(ReportOf(Spent(table, first, last)).top, table, first, last)
  {
    PricedWindow(table, first, last);
    SpentTop(table, first, last);
    SpentTopLarger(table, first, last);
  }
}
