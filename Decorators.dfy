/** `report_writer` and `_write_file` of decorators/decorators.py: a
    decorator that runs the wrapped function and appends one report record
    to a log file, either the file named when the decorator was built or a
    default file named after the first function it ran.

    The state the code keeps is the `filename` cell shared (through
    `nonlocal`) by every function wrapped by one `report_writer(...)` value,
    and the contents of the files it appends to. Timestamps
    (`datetime.now()`), the text of the arguments tuple, the text of a
    result and the message of an exception are given as texts. */
module Decorators {
  import opened Results

  /** How a call of the wrapped function ended: with a value, or with an
      exception whose `str()` is `message`. */
  datatype Run<T> = Returned(value: T) | Raised(message: string)

  /** One call through the wrapper: the function's `__name__`, the text of
      its positional arguments, the timestamp written, and how it ended. */
  datatype Invocation<T> = Invocation(name: string, args: string, stamp: string, run: Run<T>)

  /** The state a `report_writer(...)` value works on: its `filename` cell
      and the files on disk. */
  datatype WriterState = WriterState(filename: Option<string>, files: map<string, string>)

  const Written: string := "Отчёт записан "
  const BadArguments: string := ". Неверный тип аргументов или количество аргументов."

  /** The log a function is reported to when no file name was given. */
  function DefaultLog(name: string): string {
    "../logs/" + name + "_report.log"
  }

  /** The text of a file, empty if it does not exist yet. */
  function FileText(files: map<string, string>, filename: string): string {
    if filename in files then files[filename] else ""
  }

  /** `open(filename, "a").writelines(text)`: the file gains `text` at its
      end, and is created if missing. */
  function Appended(files: map<string, string>, filename: string, text: string): (r: map<string, string>)
    ensures r.Keys == files.Keys + {filename}
    ensures FileText(r, filename) == FileText(files, filename) + text
    ensures forall f :: f in files && f != filename ==> r[f] == files[f]
  {
    files[filename := FileText(files, filename) + text]
  }

  /** The message written after a call that returned `shown` (the
      result's `str()`). */
  function OkMessage(stamp: string, name: string, shown: string): string {
    Written + stamp + ". " + name + " OK, результат: " + shown
  }

  /** The message written after a call that raised `message`. */
  function ErrorMessage(stamp: string, name: string, args: string, message: string): string {
    Written + stamp + ". " + name + " error: Inputs: " + args + ". Error: " + message
  }

  function OkRecord(stamp: string, name: string, shown: string): string {
    OkMessage(stamp, name, shown) + "\n"
  }

  function ErrorRecord(stamp: string, name: string, args: string, message: string): string {
    ErrorMessage(stamp, name, args, message) + "\n"
  }

  /** The record a call appends: a line starting with `Written`, its
      message chosen by how the call ended. */
  function Record<T>(inv: Invocation<T>, show: T -> string): (r: string)
    ensures Written <= r
    ensures r[|r| - 1] == '\n'
  {
    match inv.run
    case Returned(v) => OkRecord(inv.stamp, inv.name, show(v))
    case Raised(message) => ErrorRecord(inv.stamp, inv.name, inv.args, message)
  }

  /** What the wrapper returns, or the `TypeError` it raises instead of the
      wrapped function's exception. */
  function Answer<T>(inv: Invocation<T>): (r: Result<T>)
    ensures inv.run.Returned? <==> r.Ok?
    ensures inv.run.Returned? ==> r.value == inv.run.value
    ensures inv.run.Raised? ==> r.error == TypeError(inv.name + BadArguments)
  {
    match inv.run
    case Returned(v) => Ok(v)
    case Raised(_) => Err(TypeError(inv.name + BadArguments))
  }

  /** The file a call writes to: the cell's file, or the default one. */
  function Target(filename: Option<string>, name: string): string {
    filename.GetOr(DefaultLog(name))
  }

  /** One call through the wrapper: the first call fixes the file name for
      good, and the call appends its one record to that file and leaves
      every other file as it was. */
  function Step<T>(s: WriterState, inv: Invocation<T>, show: T -> string): (r: WriterState)
    ensures s.filename.Some? ==> r.filename == s.filename
    ensures s.filename.None? ==> r.filename == Some(DefaultLog(inv.name))
    ensures FileText(r.files, r.filename.value) == FileText(s.files, r.filename.value) + Record(inv, show)
    ensures forall f :: f != r.filename.value ==> FileText(r.files, f) == FileText(s.files, f)
  {
    var target := Target(s.filename, inv.name);
    WriterState(Some(target), Appended(s.files, target, Record(inv, show)))
  }

  /** Several calls in a row, through wrappers made by one `report_writer`. */
  function Replay<T>(s: WriterState, invs: seq<Invocation<T>>, show: T -> string): WriterState {
    if invs == [] then s
    else Step(Replay(s, invs[..|invs| - 1], show), invs[|invs| - 1], show)
  }

  /** All the records of a sequence of calls, in order. */
  function Records<T>(invs: seq<Invocation<T>>, show: T -> string): string {
    if invs == [] then "" else Records(invs[..|invs| - 1], show) + Record(invs[|invs| - 1], show)
  }

  // ---------------------------------------------------------------------
  // The objects

  /** The files on disk. */
  class Files {
    var contents: map<string, string>

    constructor(contents: map<string, string>)
      ensures this.contents == contents
    {
      this.contents := contents;
    }

    /** `_write_file(filename, text)`. */
    method WriteFile(filename: string, text: string)
      modifies this
      ensures contents == Appended(old(contents), filename, text)
    {
      contents := contents[filename := FileText(contents, filename) + text];
    }
  }

  /** The closure `report_writer(filename)` returns, together with every
      `inner_wrapper` it builds: they all share the `filename` cell. */
  class ReportWriter {
    var filename: Option<string>
    const files: Files

    constructor(filename: Option<string>, files: Files)
      ensures this.filename == filename && this.files == files
    {
      this.filename := filename;
      this.files := files;
    }

    /** `inner_wrapper(*args)` of a function called `inv.name`. */
    method Call<T>(inv: Invocation<T>, show: T -> string) returns (r: Result<T>)
      modifies this, files
      ensures WriterState(filename, files.contents)
           == Step(WriterState(old(filename), old(files.contents)), inv, show)
      ensures r == Answer(inv)
    {
      if filename.None? {
        filename := Some(DefaultLog(inv.name));
      }
      var target := filename.value;
      match inv.run
      case Raised(message) =>
        files.WriteFile(target, ErrorRecord(inv.stamp, inv.name, inv.args, message));
        return Err(TypeError(inv.name + BadArguments));
      case Returned(v) =>
        files.WriteFile(target, OkRecord(inv.stamp, inv.name, show(v)));
        return Ok(v);
    }
  }

  // ---------------------------------------------------------------------
  // What the wrapper promises

  /** The file name is fixed by the first call: the one given to the
      decorator, or else the default log of the first function called; no
      later call changes it. */
  lemma {:induction false} ReplayFilename<T>(s: WriterState, invs: seq<Invocation<T>>, show: T -> string)
    requires invs != []
    ensures Replay(s, invs, show).filename == Some(Target(s.filename, invs[0].name))
  {
    var init := invs[..|invs| - 1];
    if init != [] {
      assert init[0] == invs[0];
      ReplayFilename(s, init, show);
    }
  }

  /** Two appends to one file are one append of both texts. */
  lemma AppendedTwice(files: map<string, string>, filename: string, a: string, b: string)
    ensures Appended(Appended(files, filename, a), filename, b) == Appended(files, filename, a + b)
  {
    assert FileText(Appended(files, filename, a), filename) + b == FileText(files, filename) + (a + b);
  }

  /** Every call of a sequence writes to the same file, so the files after
      the calls are the files before with the records of the calls, in
      order, appended to that one file. */
  lemma {:induction false} ReplayLog<T>(s: WriterState, invs: seq<Invocation<T>>, show: T -> string)
    requires invs != []
    ensures Replay(s, invs, show).files
         == Appended(s.files, Target(s.filename, invs[0].name), Records(invs, show))
  {
    var target := Target(s.filename, invs[0].name);
    var init, last := invs[..|invs| - 1], invs[|invs| - 1];
    if init == [] {
      assert Records(invs, show) == Record(last, show);
    } else {
      assert init[0] == invs[0];
      var s1 := Replay(s, init, show);
      ReplayLog(s, init, show);
      ReplayFilename(s, init, show);
      assert Target(s1.filename, last.name) == target;
      AppendedTwice(s.files, target, Records(init, show), Record(last, show));
    }
  }

  /** The files only grow: whatever they held before is a prefix of what
      they hold after any number of calls. */
  lemma {:induction false} AppendOnly<T>(s: WriterState, invs: seq<Invocation<T>>, show: T -> string, f: string)
    ensures FileText(s.files, f) <= FileText(Replay(s, invs, show).files, f)
  {
    if invs != [] {
      var init := invs[..|invs| - 1];
      AppendOnly(s, init, show, f);
    }
  }

  /** `report_writer()(my_func)(2, "3")`: the first call of a writer built
      without a file name reports to `../logs/my_func_report.log`, appends
      the error record there, and raises the `TypeError` naming `my_func`. */
  lemma MyFuncExample(files: map<string, string>, stamp: string, args: string, message: string, show: int -> string)
    ensures var inv := Invocation("my_func", args, stamp, Raised(message));
            var s' := Step(WriterState(None, files), inv, show);
            && s'.filename == Some("../logs/my_func_report.log")
            && FileText(s'.files, "../logs/my_func_report.log")
               == FileText(files, "../logs/my_func_report.log") + ErrorRecord(stamp, "my_func", args, message)
            && Answer(inv) == Err(TypeError("my_func" + BadArguments))
  {
    var inv := Invocation("my_func", args, stamp, Raised(message));
    assert DefaultLog("my_func") == "../logs/my_func_report.log";
    assert Record(inv, show) == ErrorRecord(stamp, "my_func", args, message);
  }

  // ---------------------------------------------------------------------
  // One line per call

  /** The number of line breaks in a text. */
  function Newlines(s: string): nat {
    if s == [] then 0 else Newlines(s[..|s| - 1]) + (if s[|s| - 1] == '\n' then 1 else 0)
  }

  lemma {:induction false} NewlinesAppend(a: string, b: string)
    ensures Newlines(a + b) == Newlines(a) + Newlines(b)
  {
    if b != [] {
      assert (a + b)[..|a + b| - 1] == a + b[..|b| - 1];
      assert (a + b)[|a + b| - 1] == b[|b| - 1];
      NewlinesAppend(a, b[..|b| - 1]);
    } else {
      assert a + b == a;
    }
  }

  lemma {:induction false} NoNewlines(s: string)
    requires forall i :: 0 <= i < |s| ==> s[i] != '\n'
    ensures Newlines(s) == 0
  {
    if s != [] {
      NoNewlines(s[..|s| - 1]);
    }
  }

  predicate OneLine(s: string) {
    forall i :: 0 <= i < |s| ==> s[i] != '\n'
  }

  lemma OneLineAppend(a: string, b: string)
    requires OneLine(a) && OneLine(b)
    ensures OneLine(a + b)
  {
    assert forall i :: 0 <= i < |a + b| ==> (a + b)[i] == if i < |a| then a[i] else b[i - |a|];
  }

  lemma OkMessageOneLine(stamp: string, name: string, shown: string)
    requires OneLine(stamp) && OneLine(name) && OneLine(shown)
    ensures OneLine(OkMessage(stamp, name, shown))
  {
    OneLineAppend(Written, stamp);
    OneLineAppend(Written + stamp, ". ");
    OneLineAppend(Written + stamp + ". ", name);
    OneLineAppend(Written + stamp + ". " + name, " OK, результат: ");
    OneLineAppend(Written + stamp + ". " + name + " OK, результат: ", shown);
  }

  lemma ErrorMessageOneLine(stamp: string, name: string, args: string, message: string)
    requires OneLine(stamp) && OneLine(name) && OneLine(args) && OneLine(message)
    ensures OneLine(ErrorMessage(stamp, name, args, message))
  {
    OneLineAppend(Written, stamp);
    OneLineAppend(Written + stamp, ". ");
    OneLineAppend(Written + stamp + ". ", name);
    OneLineAppend(Written + stamp + ". " + name, " error: Inputs: ");
    OneLineAppend(Written + stamp + ". " + name + " error: Inputs: ", args);
    OneLineAppend(Written + stamp + ". " + name + " error: Inputs: " + args, ". Error: ");
    OneLineAppend(Written + stamp + ". " + name + " error: Inputs: " + args + ". Error: ", message);
  }

  /** When the timestamp, the name, the arguments and the result or error
      texts hold no line break, a record is exactly one line, so the log
      grows by one line per call. */
  lemma RecordIsOneLine<T>(inv: Invocation<T>, show: T -> string)
    requires OneLine(inv.stamp) && OneLine(inv.name) && OneLine(inv.args)
    requires inv.run.Returned? ==> OneLine(show(inv.run.value))
    requires inv.run.Raised? ==> OneLine(inv.run.message)
    ensures Newlines(Record(inv, show)) == 1
    ensures Record(inv, show)[|Record(inv, show)| - 1] == '\n'
  {
    var body := match inv.run
      case Returned(v) => OkMessage(inv.stamp, inv.name, show(v))
      case Raised(message) => ErrorMessage(inv.stamp, inv.name, inv.args, message);
    match inv.run {
      case Returned(v) => OkMessageOneLine(inv.stamp, inv.name, show(v));
      case Raised(message) => ErrorMessageOneLine(inv.stamp, inv.name, inv.args, message);
    }
    assert Record(inv, show) == body + "\n";
    assert (body + "\n")[|body|] == '\n';
    NoNewlines(body);
    NewlinesAppend(body, "\n");
  }
}
