/** The transaction table both report functions receive (a pandas DataFrame
    with one row per operation) and the date-column rewrite they both start
    with: `x[:10]` on every "Дата операции" cell, then `pd.to_datetime(...,
    format="%d.%m.%Y")`, each assigned back into the caller's table. */
module Ledger {
  import opened Results
  import opened Text
  import opened Calendar

  /** A "Дата операции" cell: text as read from the file, or a timestamp
      once the column has been converted. */
  datatype DateCell = Written(text: string) | Stamp(date: Date)

  /** One row of the table, one field per column the code reads. Amounts are
      text with a decimal comma ("Сумма платежа"); a missing cashback
      ("Кэшбэк") is `None`. */
  datatype Transaction = Transaction(
    date: DateCell,
    card: string,
    status: string,
    amount: string,
    currency: string,
    category: string,
    description: string,
    cashback: Option<real>)

  /** The message Python gives when `x[:10]` meets a converted cell. */
  const NotSubscriptable: string := "'Timestamp' object is not subscriptable"

  predicate AllWritten(rows: seq<Transaction>) {
    forall i :: 0 <= i < |rows| ==> rows[i].date.Written?
  }

  predicate AllStamped(rows: seq<Transaction>) {
    forall i :: 0 <= i < |rows| ==> rows[i].date.Stamp?
  }

  /** The row after `x[:10]` on its date cell. */
  function Truncate(t: Transaction): Transaction
    requires t.date.Written?
  {
    t.(date := Written(Prefix(t.date.text, 10)))
  }

  function Truncated(rows: seq<Transaction>): (r: seq<Transaction>)
    requires AllWritten(rows)
    ensures |r| == |rows| && AllWritten(r)
  {
    seq(|rows|, i requires 0 <= i < |rows| => Truncate(rows[i]))
  }

  /** Every (truncated) date cell reads as `dd.mm.yyyy`. */
  predicate AllParse(rows: seq<Transaction>) {
    forall i :: 0 <= i < |rows| ==> rows[i].date.Written? && ParseDotDate(rows[i].date.text).Ok?
  }

  function Stamped(rows: seq<Transaction>): (r: seq<Transaction>)
    requires AllParse(rows)
    ensures |r| == |rows| && AllStamped(r)
  {
    seq(|rows|, i requires 0 <= i < |rows| => rows[i].(date := Stamp(ParseDotDate(rows[i].date.text).value)))
  }

  /** What the two assignments raise, if anything. */
  function ConvertOutcome(rows: seq<Transaction>): Outcome {
    if !AllWritten(rows) then Fail(TypeError(NotSubscriptable))
    else if !AllParse(Truncated(rows)) then Fail(ValueError)
    else Pass
  }

  /** The caller's table after the two assignments: each assignment happens
      only when its whole column was computed. */
  function ConvertedTable(rows: seq<Transaction>): (r: seq<Transaction>)
    ensures |r| == |rows|
  {
    if !AllWritten(rows) then rows
    else if !AllParse(Truncated(rows)) then Truncated(rows)
    else Stamped(Truncated(rows))
  }

  /** Rewrites the date column of the caller's table in place
      (src/views.py:89,92 and src/services.py:19,22). */
  method ConvertDates(a: array<Transaction>) returns (o: Outcome)
    modifies a
    ensures o == ConvertOutcome(old(a[..]))
    ensures a[..] == ConvertedTable(old(a[..]))
  {
    // x[:10] raises on the first timestamp, before the column is assigned
    var written := AllDatesWritten(a);
    if !written {
      return Fail(TypeError(NotSubscriptable));
    }
    TruncateDates(a);
    // to_datetime raises on the first cell it cannot read
    var readable := AllDatesParse(a);
    if !readable {
      return Fail(ValueError);
    }
    StampDates(a);
    return Pass;
  }

  /** Scans the column for a cell `x[:10]` cannot slice. */
  method AllDatesWritten(a: array<Transaction>) returns (ok: bool)
    ensures ok == AllWritten(a[..])
  {
    for i := 0 to a.Length
      invariant AllWritten(a[..i])
    {
      if a[i].date.Stamp? {
        return false;
      }
    }
    assert a[..] == a[..a.Length];
    return true;
  }

  /** Scans the column for a cell `to_datetime` cannot read. */
  method AllDatesParse(a: array<Transaction>) returns (ok: bool)
    ensures ok == AllParse(a[..])
  {
    for i := 0 to a.Length
      invariant AllParse(a[..i])
    {
      if a[i].date.Stamp? || ParseDotDate(a[i].date.text).Err? {
        return false;
      }
    }
    assert a[..] == a[..a.Length];
    return true;
  }

  /** `x[:10]` on every date cell, assigned back. */
  method TruncateDates(a: array<Transaction>)
    requires AllWritten(a[..])
    modifies a
    ensures a[..] == Truncated(old(a[..]))
  {
    for i := 0 to a.Length
      invariant forall j :: 0 <= j < i ==> a[j] == Truncate(old(a[j]))
      invariant forall j :: i <= j < a.Length ==> a[j] == old(a[j])
    {
      a[i] := Truncate(a[i]);
    }
  }

  /** The parsed timestamps, assigned back. */
  method StampDates(a: array<Transaction>)
    requires AllParse(a[..])
    modifies a
    ensures a[..] == Stamped(old(a[..]))
  {
    for i := 0 to a.Length
      invariant forall j :: 0 <= j < i ==> a[j] == old(a[j]).(date := Stamp(ParseDotDate(old(a[j]).date.text).value))
      invariant forall j :: i <= j < a.Length ==> a[j] == old(a[j])
    {
      a[i] := a[i].(date := Stamp(ParseDotDate(a[i].date.text).value));
    }
  }

  /** A converted row keeps every other column and carries the date its
      first ten characters spell. */
  lemma ConvertedRow(rows: seq<Transaction>, i: int)
    requires ConvertOutcome(rows) == Pass && 0 <= i < |rows|
    ensures var text := Prefix(rows[i].date.text, 10);
            && ParseDotDate(text).Ok?
            && ConvertedTable(rows)[i] == rows[i].(date := Stamp(ParseDotDate(text).value))
  {
    assert Truncated(rows)[i] == Truncate(rows[i]);
  }

  /** The rewrite lands in the caller's table, so a table that was converted
      once cannot be passed again: the second `x[:10]` fails. */
  lemma ConvertTwiceFails(rows: seq<Transaction>)
    requires |rows| > 0 && ConvertOutcome(rows) == Pass
    ensures ConvertOutcome(ConvertedTable(rows)) == Fail(TypeError(NotSubscriptable))
  {
    assert ConvertedTable(rows)[0].date.Stamp?;
  }

  /** Converting a table with one more row converts the first rows as
      before. */
  lemma ConvertSnoc(rows: seq<Transaction>, t: Transaction)
    requires ConvertOutcome(rows + [t]) == Pass
    ensures ConvertOutcome(rows) == Pass
    ensures ConvertedTable(rows + [t])[..|rows|] == ConvertedTable(rows)
  {
    var all := rows + [t];
    assert forall i :: 0 <= i < |rows| ==> all[i] == rows[i];
    assert forall i :: 0 <= i < |rows| ==> Truncated(all)[i] == Truncated(rows)[i];
    forall i | 0 <= i < |rows| ensures ConvertedTable(all)[i] == ConvertedTable(rows)[i] {
      ConvertedRow(all, i);
      ConvertedRow(rows, i);
    }
  }
}
