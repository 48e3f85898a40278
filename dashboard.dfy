/** The supervisor dashboard (frontend/dashboard.js): the KPI arithmetic over
    the loaded tasks, the employee filter, CSV export, and the loading of tasks
    and employees from either response shape. `Math.round` of a ratio is the
    exact `RoundDiv`. */
module Dashboard {
  import opened Common
  import opened Tasks
  import opened Api

  const CompletedStatuses: set<string> := {"completed"}
  const InProgressStatuses: set<string> := {"in_progress", "in-progress"}
  const PendingStatuses: set<string> := {"pending", "not_started", "not-started"}

  // ---------------------------------------------------------------------------
  // KPI arithmetic

  datatype TaskStatistics = TaskStatistics(total: nat, completed: nat, inProgress: nat, pending: nat,
                                           overdue: nat, completionRate: int)
  datatype EmployeeStatistics = EmployeeStatistics(total: nat, active: nat)
  datatype PerformanceMetrics = PerformanceMetrics(averageProgress: int, onTimeDelivery: int, productivity: int)
  datatype KpiData = KpiData(taskStatistics: TaskStatistics, employeeStatistics: EmployeeStatistics,
                             performanceMetrics: PerformanceMetrics)

  /** The sum of `task.progress || 0`. */
  function SumProgress(tasks: seq<Task>): int {
    if |tasks| == 0 then 0 else SumProgress(tasks[..|tasks| - 1]) + ProgressOf(tasks[|tasks| - 1])
  }

  lemma {:induction false} SumProgressBounds(tasks: seq<Task>)
    requires forall i | 0 <= i < |tasks| :: 0 <= ProgressOf(tasks[i]) <= 100
    ensures 0 <= SumProgress(tasks) <= 100 * |tasks|
  {
    if |tasks| > 0 {
      SumProgressBounds(tasks[..|tasks| - 1]);
    }
  }

  /** `calculateAverageProgress`: the rounded mean progress, 0 without tasks. */
  function CalculateAverageProgress(tasks: seq<Task>): (r: int)
    ensures |tasks| == 0 ==> r == 0
  {
    if |tasks| == 0 then 0 else RoundDiv(SumProgress(tasks), |tasks|)
  }

  /** When every task's progress is a percentage, so is the average. */
  lemma AverageProgressIsPercentage(tasks: seq<Task>)
    requires forall i | 0 <= i < |tasks| :: 0 <= ProgressOf(tasks[i]) <= 100
    ensures 0 <= CalculateAverageProgress(tasks) <= 100
  {
    if |tasks| > 0 {
      SumProgressBounds(tasks);
      RoundDivBetween(SumProgress(tasks), |tasks|, 0, 100);
    }
  }

  /** A completed task counts as on time when it lacks either date, and
      otherwise when it was last updated no later than it was due. */
  predicate OnTime(t: Task) {
    t.dueDate.None? || t.updatedAt.None? || t.updatedAt.value <= t.dueDate.value
  }

  function CountOnTimeCompleted(tasks: seq<Task>): nat {
    if |tasks| == 0 then 0
    else CountOnTimeCompleted(tasks[..|tasks| - 1]) + (if IsCompleted(tasks[|tasks| - 1]) && OnTime(tasks[|tasks| - 1]) then 1 else 0)
  }

  lemma {:induction false} OnTimeAtMostCompleted(tasks: seq<Task>)
    ensures CountOnTimeCompleted(tasks) <= CountStatus(tasks, CompletedStatuses)
  {
    if |tasks| > 0 {
      OnTimeAtMostCompleted(tasks[..|tasks| - 1]);
    }
  }

  lemma {:induction false} AllOnTime(tasks: seq<Task>)
    requires forall i | 0 <= i < |tasks| :: OnTime(tasks[i])
    ensures CountOnTimeCompleted(tasks) == CountStatus(tasks, CompletedStatuses)
  {
    if |tasks| > 0 {
      AllOnTime(tasks[..|tasks| - 1]);
    }
  }

  /** `calculateOnTimeDelivery`: the rounded percentage of completed tasks that
      were on time, 0 when none is completed. */
  function CalculateOnTimeDelivery(tasks: seq<Task>): (r: int)
    ensures 0 <= r <= 100
    ensures CountStatus(tasks, CompletedStatuses) == 0 ==> r == 0
  {
    var completed := CountStatus(tasks, CompletedStatuses);
    if completed == 0 then 0
    else
      OnTimeAtMostCompleted(tasks);
      MulLe(100, CountOnTimeCompleted(tasks), completed);
      RoundDivBetween(CountOnTimeCompleted(tasks) * 100, completed, 0, 100);
      RoundDiv(CountOnTimeCompleted(tasks) * 100, completed)
  }

  /** With every task on time (undated tasks included), delivery is 100% as
      soon as one task is completed. */
  lemma OnTimeDeliveryFull(tasks: seq<Task>)
    requires forall i | 0 <= i < |tasks| :: OnTime(tasks[i])
    requires CountStatus(tasks, CompletedStatuses) > 0
    ensures CalculateOnTimeDelivery(tasks) == 100
  {
    var completed := CountStatus(tasks, CompletedStatuses);
    AllOnTime(tasks);
    assert CountOnTimeCompleted(tasks) * 100 == 100 * completed;
    RoundDivExact(100, completed);
  }

  /** `Math.max(0, Math.min(100, x))`. */
  function Clamp(x: int): int {
    if x < 0 then 0 else if x > 100 then 100 else x
  }

  /** `calculateProductivity`: `(completed*100 + inProgress*50 - overdue*25) / total`,
      rounded and clamped to 0..100; 0 without tasks. */
  function CalculateProductivity(tasks: seq<Task>, now: int): (r: int)
    ensures 0 <= r <= 100
    ensures |tasks| == 0 ==> r == 0
  {
    if |tasks| == 0 then 0
    else
      var score := CountStatus(tasks, CompletedStatuses) * 100 + CountStatus(tasks, InProgressStatuses) * 50
                   - CountOverdue(tasks, now) * 25;
      Clamp(RoundDiv(score, |tasks|))
  }

  /** `completionRate`: the rounded percentage of completed tasks, 0 without tasks. */
  function CompletionRate(completed: nat, total: nat): (r: int)
    requires completed <= total
    ensures 0 <= r <= 100
    ensures total == 0 ==> r == 0
    ensures completed == total && total > 0 ==> r == 100
  {
    if total > 0 then
      MulLe(100, completed, total);
      RoundDivBetween(completed * 100, total, 0, 100);
      RoundDivExact(100, total);
      RoundDiv(completed * 100, total)
    else 0
  }

  /** `calculateKPIData`: the status counts, the completion rate, the employee
      counts (every loaded employee counts as active) and the three
      performance metrics. */
  function CalculateKpiData(tasks: seq<Task>, employees: seq<Employee>, now: int): (r: KpiData)
    ensures var s := r.taskStatistics;
            && s.total == |tasks|
            && s.completed + s.inProgress + s.pending <= s.total
            && s.completed + s.overdue <= s.total
            && 0 <= s.completionRate <= 100
            && (s.total == 0 ==> s.completionRate == 0)
    ensures r.employeeStatistics == EmployeeStatistics(|employees|, |employees|)
    ensures 0 <= r.performanceMetrics.onTimeDelivery <= 100 && 0 <= r.performanceMetrics.productivity <= 100
  {
    var completed := CountStatus(tasks, CompletedStatuses);
    var inProgress := CountStatus(tasks, InProgressStatuses);
    var pending := CountStatus(tasks, PendingStatuses);
    CountStatusUnion(tasks, CompletedStatuses, InProgressStatuses);
    CountStatusUnion(tasks, CompletedStatuses + InProgressStatuses, PendingStatuses);
    CompletedAndOverdueDisjoint(tasks, now);
    KpiData(
      TaskStatistics(|tasks|, completed, inProgress, pending, CountOverdue(tasks, now), CompletionRate(completed, |tasks|)),
      EmployeeStatistics(|employees|, |employees|),
      PerformanceMetrics(CalculateAverageProgress(tasks), CalculateOnTimeDelivery(tasks), CalculateProductivity(tasks, now)))
  }

  /** A team whose tasks are all completed has a 100% completion rate and full
      productivity, whatever the clock says. */
  lemma AllCompletedIsFullyProductive(tasks: seq<Task>, employees: seq<Employee>, now: int)
    requires |tasks| > 0
    requires forall i | 0 <= i < |tasks| :: IsCompleted(tasks[i])
    ensures CalculateKpiData(tasks, employees, now).taskStatistics.completionRate == 100
    ensures CalculateProductivity(tasks, now) == 100
  {
    CountStatusAll(tasks, CompletedStatuses);
    NoOverdueWhenAllCompleted(tasks, now);
    CountStatusUnion(tasks, CompletedStatuses, InProgressStatuses);
    RoundDivExact(100, |tasks|);
  }

  /** Without overdue tasks, productivity is never below the completion rate:
      in-progress work only adds to the score. */
  lemma ProductivityAtLeastCompletionRate(tasks: seq<Task>, employees: seq<Employee>, now: int)
    requires CountOverdue(tasks, now) == 0
    ensures CalculateProductivity(tasks, now) >= CalculateKpiData(tasks, employees, now).taskStatistics.completionRate
  {
    if |tasks| > 0 {
      var completed := CountStatus(tasks, CompletedStatuses);
      RoundDivMonotone(completed * 100, completed * 100 + CountStatus(tasks, InProgressStatuses) * 50, |tasks|);
      RoundDivBetween(completed * 100, |tasks|, 0, 100);
    }
  }

  // ---------------------------------------------------------------------------
  // Employee filter

  /** `getFilteredTasks`: every task when the filter is empty, otherwise the
      tasks of the selected employee. */
  function GetFilteredTasks(tasks: seq<Task>, currentFilter: string): (r: seq<Task>)
    ensures currentFilter == "" ==> r == tasks
    ensures currentFilter != "" ==> forall t :: t in r <==> t in tasks && t.employeeId == currentFilter
  {
    if currentFilter == "" then tasks else TasksOf(tasks, currentFilter)
  }

  // ---------------------------------------------------------------------------
  // CSV export

  /** `s.replace(/"/g, '""')`. */
  function EscapeQuotes(s: string): (r: string)
    ensures |r| >= |s|
  {
    if |s| == 0 then "" else (if s[0] == '"' then "\"\"" else [s[0]]) + EscapeQuotes(s[1..])
  }

  /** Reads an escaped cell body back: a doubled quote stands for one quote,
      and a lone quote is malformed. */
  function UnescapeQuotes(s: string): Option<string> {
    if |s| == 0 then Some("")
    else if s[0] == '"' then
      if |s| >= 2 && s[1] == '"' then
        match UnescapeQuotes(s[2..])
        case Some(rest) => Some("\"" + rest)
        case None => None
      else None
    else
      match UnescapeQuotes(s[1..])
      case Some(rest) => Some([s[0]] + rest)
      case None => None
  }

  lemma {:induction false} UnescapeEscape(s: string)
    ensures UnescapeQuotes(EscapeQuotes(s)) == Some(s)
  {
    if |s| > 0 {
      UnescapeEscape(s[1..]);
      var e := EscapeQuotes(s);
      if s[0] == '"' {
        assert e[2..] == EscapeQuotes(s[1..]);
      } else {
        assert e[1..] == EscapeQuotes(s[1..]);
      }
      assert [s[0]] + s[1..] == s;
    }
  }

  /** One CSV cell: the value in double quotes with its quotes doubled. */
  function QuoteCell(s: string): (r: string)
    ensures |r| >= 2 && r[0] == '"' && r[|r| - 1] == '"'
  {
    "\"" + EscapeQuotes(s) + "\""
  }

  function UnquoteCell(c: string): Option<string> {
    if |c| >= 2 && c[0] == '"' && c[|c| - 1] == '"' then UnescapeQuotes(c[1..|c| - 1]) else None
  }

  /** Quoting loses nothing: every cell reads back as the value written. */
  lemma QuoteCellRoundTrip(s: string)
    ensures UnquoteCell(QuoteCell(s)) == Some(s)
  {
    var c := QuoteCell(s);
    assert c[1..|c| - 1] == EscapeQuotes(s);
    UnescapeEscape(s);
  }

  /** `String(row[header])`: a missing property prints as "undefined". */
  function CellText(row: Obj<string>, header: string): string {
    Get(row, header).GetOr("undefined")
  }

  function CsvRow(row: Obj<string>, headers: seq<string>): string {
    Join(seq(|headers|, i requires 0 <= i < |headers| => QuoteCell(CellText(row, headers[i]))), ",")
  }

  /** The lines of the file: the first row's keys, unquoted, then one line of
      quoted cells per row, in the header order. */
  function CsvLines(data: seq<Obj<string>>): (r: seq<string>)
    requires |data| > 0
    ensures |r| == |data| + 1
    ensures r[0] == Join(Keys(data[0]), ",")
    ensures forall i | 0 <= i < |data| :: r[i + 1] == CsvRow(data[i], Keys(data[0]))
  {
    [Join(Keys(data[0]), ",")] + seq(|data|, i requires 0 <= i < |data| => CsvRow(data[i], Keys(data[0])))
  }

  /** What `downloadCSV` produces: an error for no rows, else the file text. */
  datatype Export = ExportError(message: string) | CsvFile(content: string)

  /** `downloadCSV(data)`: the lines joined by newlines. */
  function DownloadCsv(data: seq<Obj<string>>): (r: Export)
    ensures r.ExportError? <==> |data| == 0
    ensures r.ExportError? ==> r.message == "No data to export"
  {
    if |data| == 0 then ExportError("No data to export") else CsvFile(Join(CsvLines(data), "\n"))
  }

  /** The texts of a row's cells, in header order. */
  function CellTexts(row: Obj<string>, headers: seq<string>): (r: seq<string>)
    ensures |r| == |headers|
  {
    seq(|headers|, i requires 0 <= i < |headers| => CellText(row, headers[i]))
  }

  function Quoted(values: seq<string>): (r: seq<string>)
    ensures |r| == |values|
  {
    seq(|values|, i requires 0 <= i < |values| => QuoteCell(values[i]))
  }

  /** The part of the file after the header line: the row lines joined by
      newlines. */
  function CsvBody(data: seq<Obj<string>>): string
    requires |data| > 0
  {
    Join(seq(|data|, i requires 0 <= i < |data| => CsvRow(data[i], Keys(data[0]))), "\n")
  }

  // A reader for the rows of the file, independent of how they were written.

  /** Reads the body of a quoted cell (the text after its opening quote) up to
      its closing quote, where `""` stands for one quote: the value and what
      follows the closing quote. */
  function ReadQuotedBody(s: string): Option<(string, string)>
    decreases |s|
  {
    if |s| == 0 then None
    else if s[0] == '"' then
      if |s| >= 2 && s[1] == '"' then
        match ReadQuotedBody(s[2..])
        case Some((v, rest)) => Some(("\"" + v, rest))
        case None => None
      else Some(("", s[1..]))
    else
      match ReadQuotedBody(s[1..])
      case Some((v, rest)) => Some(([s[0]] + v, rest))
      case None => None
  }

  /** Reads `n` quoted cells separated by commas: their values and the text
      after the last one. */
  function ReadRecord(s: string, n: nat): Option<(seq<string>, string)>
    requires n >= 1
    decreases n
  {
    if |s| == 0 || s[0] != '"' then None
    else
      match ReadQuotedBody(s[1..])
      case None => None
      case Some((v, rest)) =>
        if n == 1 then Some(([v], rest))
        else if |rest| > 0 && rest[0] == ',' then
          match ReadRecord(rest[1..], n - 1)
          case Some((vs, after)) => Some(([v] + vs, after))
          case None => None
        else None
  }

  /** Reads `count` records of `n` cells separated by newlines, up to the end
      of the text. */
  function ReadRecords(s: string, n: nat, count: nat): Option<seq<seq<string>>>
    requires n >= 1
    decreases count
  {
    if count == 0 then (if s == "" then Some([]) else None)
    else
      match ReadRecord(s, n)
      case None => None
      case Some((r, rest)) =>
        if count == 1 then (if rest == "" then Some([r]) else None)
        else if |rest| > 0 && rest[0] == '\n' then
          match ReadRecords(rest[1..], n, count - 1)
          case Some(rs) => Some([r] + rs)
          case None => None
        else None
  }

  /** An escaped body followed by the closing quote reads back as the value,
      whatever comes after, unless that starts with another quote. */
  lemma {:induction false} ReadEscaped(v: string, rest: string)
    requires |rest| == 0 || rest[0] != '"'
    ensures ReadQuotedBody(EscapeQuotes(v) + "\"" + rest) == Some((v, rest))
    decreases |v|
  {
    var s := EscapeQuotes(v) + "\"" + rest;
    if |v| > 0 {
      ReadEscaped(v[1..], rest);
      if v[0] == '"' {
        assert s[2..] == EscapeQuotes(v[1..]) + "\"" + rest;
        assert "\"" + v[1..] == v;
      } else {
        assert s[1..] == EscapeQuotes(v[1..]) + "\"" + rest;
        assert [v[0]] + v[1..] == v;
      }
    } else {
      assert s == "\"" + rest;
    }
  }

  /** One more cell in front of a record. */
  lemma RecordStep(s: string, n: nat, v: string, tail: string, vs: seq<string>, after: string)
    requires n >= 1 && |s| > 0 && s[0] == '"'
    requires ReadQuotedBody(s[1..]) == Some((v, "," + tail))
    requires ReadRecord(tail, n) == Some((vs, after))
    ensures ReadRecord(s, n + 1) == Some(([v] + vs, after))
  {
    assert ("," + tail)[1..] == tail;
  }

  /** One more record in front of the rest. */
  lemma RecordsStep(s: string, n: nat, count: nat, r: seq<string>, tail: string, rs: seq<seq<string>>)
    requires n >= 1 && count >= 1
    requires ReadRecord(s, n) == Some((r, "\n" + tail))
    requires ReadRecords(tail, n, count) == Some(rs)
    ensures ReadRecords(s, n, count + 1) == Some([r] + rs)
  {
    assert ("\n" + tail)[1..] == tail;
  }

  /** A line of quoted cells opens with the first cell's quote, its escaped
      value and closing quote, then a comma and the other cells. */
  lemma SplitQuotedLine(values: seq<string>, rest: string)
    requires |values| >= 1
    ensures var line := Join(Quoted(values), ",") + rest;
            && |line| > 0 && line[0] == '"'
            && line[1..] == EscapeQuotes(values[0]) + "\"" +
                            (if |values| == 1 then rest else "," + (Join(Quoted(values[1..]), ",") + rest))
  {
    var q := Quoted(values);
    assert q[0] == "\"" + EscapeQuotes(values[0]) + "\"";
    if |values| > 1 {
      assert q[1..] == Quoted(values[1..]);
    }
  }

  /** A line of one quoted cell reads back as that value. */
  lemma ReadLastCell(values: seq<string>, rest: string)
    requires |values| == 1
    requires |rest| == 0 || rest[0] == '\n'
    ensures ReadRecord(Join(Quoted(values), ",") + rest, 1) == Some((values, rest))
  {
    SplitQuotedLine(values, rest);
    ReadEscaped(values[0], rest);
    assert [values[0]] == values;
  }

  /** A line of quoted cells reads back as its values, with the text after it
      untouched. */
  lemma {:induction false} ReadJoinedCells(values: seq<string>, rest: string)
    requires |values| >= 1
    requires |rest| == 0 || rest[0] == '\n'
    ensures ReadRecord(Join(Quoted(values), ",") + rest, |values|) == Some((values, rest))
    decreases |values|
  {
    if |values| == 1 {
      ReadLastCell(values, rest);
    } else {
      var v := values[0];
      var line := Join(Quoted(values), ",") + rest;
      var tail := Join(Quoted(values[1..]), ",") + rest;
      SplitQuotedLine(values, rest);
      ReadEscaped(v, "," + tail);
      ReadJoinedCells(values[1..], rest);
      RecordStep(line, |values| - 1, v, tail, values[1..], rest);
      assert [v] + values[1..] == values;
    }
  }

  /** The lines of a table: each row's quoted cells joined by commas. */
  function TableLines(table: seq<seq<string>>): (r: seq<string>)
    ensures |r| == |table|
  {
    seq(|table|, i requires 0 <= i < |table| => Join(Quoted(table[i]), ","))
  }

  /** Lines of quoted cells joined by newlines read back as the table. */
  lemma {:induction false} ReadJoinedRecords(table: seq<seq<string>>, n: nat)
    requires n >= 1 && forall i | 0 <= i < |table| :: |table[i]| == n
    ensures ReadRecords(Join(TableLines(table), "\n"), n, |table|) == Some(table)
    decreases |table|
  {
    if |table| == 1 {
      ReadSingleRecord(table, n);
    } else if |table| > 1 {
      var tail := Join(TableLines(table[1..]), "\n");
      SplitTableLines(table);
      ReadJoinedCells(table[0], "\n" + tail);
      ReadJoinedRecords(table[1..], n);
      RecordsStep(Join(TableLines(table), "\n"), n, |table| - 1, table[0], tail, table[1..]);
      assert [table[0]] + table[1..] == table;
    }
  }

  /** A table of one row is one line, which reads back as that row. */
  lemma ReadSingleRecord(table: seq<seq<string>>, n: nat)
    requires n >= 1 && |table| == 1 && |table[0]| == n
    ensures ReadRecords(Join(TableLines(table), "\n"), n, 1) == Some(table)
  {
    assert Join(TableLines(table), "\n") == Join(Quoted(table[0]), ",") + "";
    ReadJoinedCells(table[0], "");
    assert [table[0]] == table;
  }

  /** The lines of a table of several rows are its first row's line, a
      newline, and the lines of the other rows. */
  lemma SplitTableLines(table: seq<seq<string>>)
    requires |table| > 1
    ensures Join(TableLines(table), "\n")
         == Join(Quoted(table[0]), ",") + ("\n" + Join(TableLines(table[1..]), "\n"))
  {
    assert TableLines(table)[1..] == TableLines(table[1..]);
  }

  /** The values of the rows, in header order: the table the file holds. */
  function CsvTable(data: seq<Obj<string>>): (r: seq<seq<string>>)
    requires |data| > 0
    ensures |r| == |data| && forall i | 0 <= i < |r| :: |r[i]| == |Keys(data[0])|
  {
    seq(|data|, i requires 0 <= i < |data| => CellTexts(data[i], Keys(data[0])))
  }

  /** A row line is the row's cell texts, quoted and joined by commas. */
  lemma CsvRowIsQuotedLine(row: Obj<string>, headers: seq<string>)
    ensures CsvRow(row, headers) == Join(Quoted(CellTexts(row, headers)), ",")
  {
    assert Quoted(CellTexts(row, headers))
        == seq(|headers|, k requires 0 <= k < |headers| => QuoteCell(CellText(row, headers[k])));
  }

  lemma CsvBodyIsTableLines(data: seq<Obj<string>>)
    requires |data| > 0
    ensures CsvBody(data) == Join(TableLines(CsvTable(data)), "\n")
  {
    var rows := seq(|data|, i requires 0 <= i < |data| => CsvRow(data[i], Keys(data[0])));
    var table := CsvTable(data);
    forall i | 0 <= i < |data| ensures rows[i] == TableLines(table)[i] {
      CsvRowIsQuotedLine(data[i], Keys(data[0]));
    }
    assert rows == TableLines(table);
  }

  /** The file is the header line, a newline, and the row lines. */
  lemma DownloadCsvShape(data: seq<Obj<string>>)
    requires |data| > 0
    ensures DownloadCsv(data) == CsvFile(Join(Keys(data[0]), ",") + "\n" + CsvBody(data))
  {
    var lines := CsvLines(data);
    var rows := seq(|data|, i requires 0 <= i < |data| => CsvRow(data[i], Keys(data[0])));
    assert lines[1..] == rows;
  }

  /** The file `downloadCSV` writes is the header line, a newline, and rows
      that read back, cell by cell, as each row's values in header order
      ("undefined" where a row lacks a header). */
  lemma CsvFileReadsBack(data: seq<Obj<string>>)
    requires |data| > 0 && |Keys(data[0])| > 0
    ensures DownloadCsv(data) == CsvFile(Join(Keys(data[0]), ",") + "\n" + CsvBody(data))
    ensures ReadRecords(CsvBody(data), |Keys(data[0])|, |data|) == Some(CsvTable(data))
    ensures forall i, j | 0 <= i < |data| && 0 <= j < |Keys(data[0])| ::
              CsvTable(data)[i][j] == Get(data[i], Keys(data[0])[j]).GetOr("undefined")
  {
    DownloadCsvShape(data);
    CsvBodyIsTableLines(data);
    ReadJoinedRecords(CsvTable(data), |Keys(data[0])|);
  }

  // ---------------------------------------------------------------------------
  // Loading

  /** The value `loadRealData` sees for a call: what it returned, or the
      `{success: false, error}` object its `.catch` substitutes. */
  function Settled<T>(c: CallResult<T>): Reply<T> {
    match c
    case Returned(r) => r
    case Threw(m) => Wrapped(Literal(false), m, NoData)
  }

  /** A list read from a response: `{success: <truthy>, data: [...]}` and a
      bare array are both accepted; anything else is not. */
  function AcceptList<T>(r: Reply<T>): (o: Option<seq<T>>)
    ensures o.Some? ==> (r.Bare? && o.value == r.items) || (r.Wrapped? && r.data.Items? && o.value == r.data.items)
  {
    match r
    case Wrapped(success, _, Items(items)) => if success.Truthy() then Some(items) else None
    case Bare(items) => Some(items)
    case _ => None
  }

  /** Both response shapes carry the same list, an empty one included; a
      call that failed, or was answered with a falsy `success`, carries none. */
  lemma BothShapesAccepted<T>(items: seq<T>, error: string, message: string)
    ensures AcceptList(Wrapped(Literal(true), error, Items(items))) == AcceptList(Bare(items)) == Some(items)
    ensures AcceptList(Settled<T>(Threw(message))).None?
    ensures AcceptList(Wrapped(Literal(false), error, Items(items))).None?
  {
  }

  /** The tasks loaded: the supervisor's own, or else all tasks when that
      fallback call returns a list; `None` when neither does. */
  function LoadedTasks(tasksResult: CallResult<Task>, allTasksResult: CallResult<Task>): Option<seq<Task>> {
    match AcceptList(Settled(tasksResult))
    case Some(ts) => Some(ts)
    case None =>
      match allTasksResult
      case Returned(r) => AcceptList(r)
      case Threw(_) => None
  }

  const LoadFailedMessage := "Failed to load any real data from backend"

  /** `loadRealData` throws exactly when neither tasks nor employees loaded; an
      empty list of either still counts as loaded. */
  lemma LoadFailsOnlyWithoutData(tasksResult: CallResult<Task>, employeesResult: CallResult<Employee>,
                                 allTasksResult: CallResult<Task>)
    ensures (LoadedTasks(tasksResult, allTasksResult).None? && AcceptList(Settled(employeesResult)).None?)
            <==> ((tasksResult.Threw? || AcceptList(tasksResult.reply).None?)
                  && (allTasksResult.Threw? || AcceptList(allTasksResult.reply).None?)
                  && (employeesResult.Threw? || AcceptList(employeesResult.reply).None?))
    ensures employeesResult == Returned(Bare([])) ==> AcceptList(Settled(employeesResult)).Some?
  {
  }

  /** The shape test `loadRealData` applies to each response, step by step as
      the method does it: the list of a successful wrapped answer or of a bare
      array, and whether there was one. `AcceptList` is the same test as a
      value, for the lemmas; this method is proved to agree with it. */
  method ReadList<T>(r: Reply<T>) returns (items: seq<T>, loaded: bool)
    ensures loaded == AcceptList(r).Some?
    ensures items == AcceptList(r).GetOr([])
  {
    items, loaded := [], false;
    if r.Wrapped? && r.success.Truthy() && r.data.Items? {
      items, loaded := r.data.items, true;
    } else if r.Bare? {
      items, loaded := r.items, true;
    }
  }

  /** The supervisor dashboard's state. */
  class SupervisorDashboard {
    var tasks: seq<Task>
    var employees: seq<Employee>
    var kpiData: Option<KpiData>
    var currentFilter: string

    constructor ()
      ensures tasks == [] && employees == [] && kpiData == None && currentFilter == ""
    {
      tasks, employees, kpiData, currentFilter := [], [], None, "";
    }

    /** The data-shape handling of `loadRealData`, given what the supervisor's
        task call, the employee call and (only consulted when the first fails)
        the all-tasks fallback produced. The result is the error thrown. */
    method LoadRealData(tasksResult: CallResult<Task>, employeesResult: CallResult<Employee>,
                        allTasksResult: CallResult<Task>, now: int)
      returns (thrown: Option<string>)
      modifies this
      ensures tasks == LoadedTasks(tasksResult, allTasksResult).GetOr([])
      ensures employees == AcceptList(Settled(employeesResult)).GetOr([])
      ensures kpiData == Some(CalculateKpiData(tasks, employees, now))
      ensures currentFilter == old(currentFilter)
      ensures thrown == if LoadedTasks(tasksResult, allTasksResult).None? && AcceptList(Settled(employeesResult)).None?
                        then Some(LoadFailedMessage) else None
    {
      var newTasks, tasksLoaded := ReadList(Settled(tasksResult));
      if !tasksLoaded {
        match allTasksResult
        case Returned(all) =>
          newTasks, tasksLoaded := ReadList(all);
        case Threw(_) =>
      }
      var newEmployees, employeesLoaded := ReadList(Settled(employeesResult));
      var dataLoadSuccess := tasksLoaded || employeesLoaded;
      tasks, employees := newTasks, newEmployees;
      kpiData := Some(CalculateKpiData(newTasks, newEmployees, now));
      thrown := if dataLoadSuccess then None else Some(LoadFailedMessage);
    }
  }
}
