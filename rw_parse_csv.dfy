/**
 * Tokenised rows to task records. The header row names the columns; every later row is a
 * task unless it is empty, a metadata row or has an empty Task cell.
 */
module RwParseCsv {
  import opened Wrappers
  import opened Text
  import opened Exceptions
  import opened Dates
  import opened RwTypes
  import opened RwMetadata

  /** The date reader (`%Y-%m-%d`), given as a function: None for text it rejects. */
  type DateParser = string -> Option<Date>

  /**
   * Empty estimate and date cells mean None; a date is read only when present and an
   * estimate must be all digits. The start is read first, then the end, then the estimate.
   */
  function ParseDatesAndEstimates(parseDate: DateParser, estimate: string, startDate: string, endDate: string)
    : (r: Result<(Option<int>, Option<Date>, Option<Date>), Exc>)
    ensures r.Ok? ==> (r.value.0.None? <==> estimate == [])
    ensures r.Ok? ==> (r.value.1.None? <==> startDate == []) && (r.value.2.None? <==> endDate == [])
    ensures r.Ok? && estimate != [] ==> IsDigits(estimate) && r.value.0 == Some(DigitsValue(estimate))
    ensures (estimate != [] && !IsDigits(estimate) && (startDate == [] || parseDate(startDate).Some?)
      && (endDate == [] || parseDate(endDate).Some?)) ==> r == Err(BadEstimate(estimate))
  {
    var start :- if startDate == [] then Ok(None) else ReadDate(parseDate, startDate);
    var end :- if endDate == [] then Ok(None) else ReadDate(parseDate, endDate);
    if estimate == [] then Ok((None, start, end))
    else if !IsDigits(estimate) then Err(BadEstimate(estimate))
    else Ok((Some(DigitsValue(estimate) as int), start, end))
  }

  function ReadDate(parseDate: DateParser, text: string): (r: Result<Option<Date>, Exc>)
    ensures r.Ok? <==> parseDate(text).Some?
    ensures r.Ok? ==> r.value == parseDate(text)
  {
    match parseDate(text)
    case Some(d) => Ok(Some(d))
    case None => Err(BadDate(text))
  }

  const ExpectedColumns: seq<string> := ["Task", "Estimate", "StartDate", "EndDate", "Status", "Assignee", "next"]

  /** The first expected column the header lacks, if any. */
  function MissingHeader(headers: seq<string>, expected: seq<string>): (r: Option<string>)
    ensures r.None? <==> forall e :: e in expected ==> e in headers
    ensures r.Some? ==> r.value in expected && r.value !in headers
  {
    if |expected| == 0 then None
    else if expected[0] !in headers then Some(expected[0])
    else MissingHeader(headers, expected[1..])
  }

  function IndexOf(s: seq<string>, x: string): (i: nat)
    requires x in s
    ensures i < |s| && s[i] == x && x !in s[..i]
  {
    if s[0] == x then 0 else 1 + IndexOf(s[1..], x)
  }

  /**
   * `{k: v.strip() for k, v in zip(keys, values)}`: the pairs up to the shorter length,
   * a later duplicate key overriding an earlier one.
   */
  function RowDict(keys: seq<string>, values: seq<string>, n: nat): (d: map<string, string>)
    requires n <= |keys| && n <= |values|
    ensures forall k :: k in d <==> k in keys[..n]
  {
    if n == 0 then map[] else RowDict(keys, values, n - 1)[keys[n - 1] := Strip(values[n - 1])]
  }

  /** The value under a key comes from its last occurrence among the zipped pairs. */
  lemma {:induction false} RowDictLastWins(keys: seq<string>, values: seq<string>, n: nat, i: nat)
    requires i < n <= |keys| && n <= |values|
    requires keys[i] !in keys[i + 1..n]
    ensures RowDict(keys, values, n)[keys[i]] == Strip(values[i])
  {
    if i < n - 1 {
      assert keys[n - 1] in keys[i + 1..n];
      assert keys[i + 1..n - 1] == keys[i + 1..n][..n - 1 - (i + 1)];
      RowDictLastWins(keys, values, n - 1, i);
    }
  }

  function Lookup(d: map<string, string>, key: string): (r: Result<string, Exc>)
    ensures r.Ok? <==> key in d
    ensures r.Ok? ==> r.value == d[key]
    ensures r.Err? ==> r.error == MissingKey(key)
  {
    if key in d then Ok(d[key]) else Err(MissingKey(key))
  }

  /**
   * The columns of one task row read before its dates are parsed; the Status cell is read
   * only after them.
   */
  datatype TaskCells = TaskCells(task: string, assignee: string, estimate: string, startDate: string, endDate: string)

  function TaskCellsOf(d: map<string, string>): (r: Result<TaskCells, Exc>)
    ensures r.Ok? <==> ("Task" in d && "Assignee" in d && "Estimate" in d && "StartDate" in d && "EndDate" in d)
    ensures r.Ok? ==> r.value == TaskCells(d["Task"], d["Assignee"], d["Estimate"], d["StartDate"], d["EndDate"])
    ensures r.Err? ==> r.error in {MissingKey("Task"), MissingKey("Assignee"), MissingKey("Estimate"),
      MissingKey("StartDate"), MissingKey("EndDate")}
  {
    var task :- Lookup(d, "Task");
    var assignee :- Lookup(d, "Assignee");
    var estimate :- Lookup(d, "Estimate");
    var startDate :- Lookup(d, "StartDate");
    var endDate :- Lookup(d, "EndDate");
    Ok(TaskCells(task, assignee, estimate, startDate, endDate))
  }

  function Min(a: nat, b: nat): nat {
    if a < b then a else b
  }

  /** The row's cells from the `next` column on, stripped, empty ones dropped. */
  function NextCells(row: seq<string>, nextIndex: nat): seq<string> {
    if nextIndex <= |row| then NonEmptyStripped(row[nextIndex..]) else []
  }

  /**
   * The named cells of a row after the header: None when the row is skipped (empty,
   * metadata, or an empty Task cell).
   */
  function RowCells(headers: seq<string>, nextIndex: nat, row: seq<string>): (r: Result<Option<TaskCells>, Exc>)
    requires nextIndex < |headers|
    ensures (row == [] || StartsWith(row[0], "%")) ==> r == Ok(None)
    ensures r.Ok? && r.value.Some? ==> (row != [] && !StartsWith(row[0], "%") &&
      TaskCellsOf(RowDict(headers, row, Min(nextIndex, |row|))) == Ok(r.value.value) && r.value.value.task != [])
  {
    if |row| == 0 || StartsWith(row[0], "%") then Ok(None)
    else
      var d := RowDict(headers, row, Min(nextIndex, |row|));
      match Lookup(d, "Task")
      case Err(e) => Err(e)
      case Ok(task) =>
        if task == [] then Ok(None)
        else match TaskCellsOf(d)
          case Err(e) => Err(e)
          case Ok(cells) => Ok(Some(cells))
  }

  /**
   * The task a row's cells describe, or the first step that fails: the dates and estimate are
   * parsed first, and only then is the Status cell looked up in the row dictionary and parsed.
   */
  function TaskFromCells(parseDate: DateParser, cells: TaskCells, d: map<string, string>, next: seq<string>,
                         rowIdx: nat): (r: Result<InputTask, Exc>)
    ensures ParseDatesAndEstimates(parseDate, cells.estimate, cells.startDate, cells.endDate).Err? ==>
      r == Err(ParseDatesAndEstimates(parseDate, cells.estimate, cells.startDate, cells.endDate).error)
    ensures r.Ok? ==> ("Status" in d && r.value.name == cells.task && r.value.next == next &&
      r.value.assignees == NonEmptyStripped(Split(cells.assignee, ',')) &&
      ParseStatus(d["Status"]) == Ok(r.value.status) && r.value.inputRowIdx == rowIdx &&
      !r.value.specificAssignments && !r.value.parallelizable)
  {
    match ParseDatesAndEstimates(parseDate, cells.estimate, cells.startDate, cells.endDate)
    case Err(e) => Err(e)
    case Ok(dates) =>
      match Lookup(d, "Status")
      case Err(e) => Err(e)
      case Ok(cell) =>
        match ParseStatus(cell)
        case Err(e) => Err(e)
        case Ok(status) =>
          Ok(InputTask(cells.task, "", false, NonEmptyStripped(Split(cells.assignee, ',')), next, false,
            dates.0, dates.1, dates.2, status, rowIdx, None))
  }

  /**
   * One row after the header: None when it is skipped, the task otherwise; `rowIdx` is its
   * index among the rows after the header.
   */
  function ParseRow(parseDate: DateParser, headers: seq<string>, nextIndex: nat, row: seq<string>, rowIdx: nat)
    : (r: Result<Option<InputTask>, Exc>)
    requires nextIndex < |headers|
    ensures (row == [] || StartsWith(row[0], "%")) ==> r == Ok(None)
    ensures r.Ok? && r.value.Some? ==> (
      var d := RowDict(headers, row, Min(nextIndex, |row|));
      var t := r.value.value;
      "Task" in d && t.name == d["Task"] && t.name != [] &&
      t.next == NextCells(row, nextIndex) &&
      "Assignee" in d && t.assignees == NonEmptyStripped(Split(d["Assignee"], ',')) &&
      "Status" in d && ParseStatus(d["Status"]) == Ok(t.status) &&
      t.inputRowIdx == rowIdx && !t.specificAssignments && !t.parallelizable)
  {
    match RowCells(headers, nextIndex, row)
    case Err(e) => Err(e)
    case Ok(None) => Ok(None)
    case Ok(Some(cells)) =>
      var d := RowDict(headers, row, Min(nextIndex, |row|));
      match TaskFromCells(parseDate, cells, d, NextCells(row, nextIndex), rowIdx)
      case Err(e) => Err(e)
      case Ok(t) => Ok(Some(t))
  }

  /**
   * A kept row whose dictionary has no Status entry (the row ends before that column) reports
   * its date or estimate error when it has one, and the missing Status key only otherwise.
   */
  lemma MissingStatusOutcome(parseDate: DateParser, headers: seq<string>, nextIndex: nat, row: seq<string>,
                             rowIdx: nat)
    requires nextIndex < |headers|
    requires RowCells(headers, nextIndex, row).Ok? && RowCells(headers, nextIndex, row).value.Some?
    requires "Status" !in RowDict(headers, row, Min(nextIndex, |row|))
    ensures var c := RowCells(headers, nextIndex, row).value.value;
      var dates := ParseDatesAndEstimates(parseDate, c.estimate, c.startDate, c.endDate);
      ParseRow(parseDate, headers, nextIndex, row, rowIdx) ==
        (if dates.Err? then Err(dates.error) else Err(MissingKey("Status")))
  {
  }

  /** The result of every row after the header, each parsed on its own with its index. */
  function RowResults(parseDate: DateParser, headers: seq<string>, nextIndex: nat, rows: seq<seq<string>>)
    : (r: seq<Result<Option<InputTask>, Exc>>)
    requires nextIndex < |headers|
    ensures |r| == |rows|
    ensures forall i :: 0 <= i < |rows| ==> r[i] == ParseRow(parseDate, headers, nextIndex, rows[i], i)
  {
    seq(|rows|, i requires 0 <= i < |rows| => ParseRow(parseDate, headers, nextIndex, rows[i], i))
  }

  /** The tasks of the row results in order (skipped rows give none), or the first failure. */
  function Collect(results: seq<Result<Option<InputTask>, Exc>>): Result<seq<InputTask>, Exc> {
    if |results| == 0 then Ok([])
    else
      match Collect(results[..|results| - 1])
      case Err(e) => Err(e)
      case Ok(init) =>
        match results[|results| - 1]
        case Err(e) => Err(e)
        case Ok(None) => Ok(init)
        case Ok(Some(t)) => Ok(init + [t])
  }

  /** The indexes of the results that are tasks, in order. */
  function TaskPositions(results: seq<Result<Option<InputTask>, Exc>>): seq<nat> {
    if |results| == 0 then []
    else
      var init := TaskPositions(results[..|results| - 1]);
      match results[|results| - 1]
      case Ok(Some(_)) => init + [|results| - 1]
      case _ => init
  }

  /**
   * A successful collection holds exactly the tasks of the results, each at its position,
   * positions strictly increasing: output follows input order and skips nothing else.
   */
  lemma {:induction false} CollectedTasks(results: seq<Result<Option<InputTask>, Exc>>)
    requires Collect(results).Ok?
    ensures var ts := Collect(results).value;
      var pos := TaskPositions(results);
      |ts| == |pos| &&
      (forall i :: 0 <= i < |ts| ==> pos[i] < |results| && results[pos[i]] == Ok(Some(ts[i]))) &&
      (forall i, j :: 0 <= i < j < |pos| ==> pos[i] < pos[j]) &&
      (forall k :: 0 <= k < |results| && results[k].Ok? && results[k].value.Some? ==> k in pos)
  {
    if |results| > 0 {
      var n := |results|;
      var init := results[..n - 1];
      CollectedTasks(init);
      var ts0, pos0 := Collect(init).value, TaskPositions(init);
      var ts, pos := Collect(results).value, TaskPositions(results);
      forall k | 0 <= k < n - 1
        ensures results[k] == init[k]
      {
      }
      match results[n - 1]
      case Ok(Some(t)) =>
        assert ts == ts0 + [t] && pos == pos0 + [n - 1];
        forall i | 0 <= i < |ts|
          ensures pos[i] < n && results[pos[i]] == Ok(Some(ts[i]))
        {
          if i < |ts0| {
            assert pos[i] == pos0[i] && ts[i] == ts0[i];
          }
        }
        forall k | 0 <= k < n && results[k].Ok? && results[k].value.Some?
          ensures k in pos
        {
          if k < n - 1 {
            assert k in pos0;
          }
        }
      case Ok(None) =>
        assert ts == ts0 && pos == pos0;
      case Err(_) =>
        assert false;
    }
  }

  /** A collection fails exactly when some result is a failure, with the first failure's error. */
  lemma {:induction false} CollectFails(results: seq<Result<Option<InputTask>, Exc>>, k: nat)
    requires k < |results| && results[k].Err?
    requires forall j :: 0 <= j < k ==> results[j].Ok?
    ensures Collect(results) == Err(results[k].error)
    decreases |results|
  {
    if k < |results| - 1 {
      var init := results[..|results| - 1];
      CollectFails(init, k);
    } else {
      CollectSucceeds(results[..k]);
    }
  }

  lemma {:induction false} CollectSucceeds(results: seq<Result<Option<InputTask>, Exc>>)
    requires forall j :: 0 <= j < |results| ==> results[j].Ok?
    ensures Collect(results).Ok?
  {
    if |results| > 0 {
      CollectSucceeds(results[..|results| - 1]);
    }
  }

  /** The parsed tasks of the rows after the header, in order, or the first row's failure. */
  function ParseRows(parseDate: DateParser, headers: seq<string>, nextIndex: nat, rows: seq<seq<string>>)
    : Result<seq<InputTask>, Exc>
    requires nextIndex < |headers|
  {
    Collect(RowResults(parseDate, headers, nextIndex, rows))
  }

  /**
   * Each task's `inputRowIdx` is the index, among the rows after the header, of the row
   * that produced it, counting skipped rows.
   */
  lemma ParsedRowIndexes(parseDate: DateParser, headers: seq<string>, nextIndex: nat, rows: seq<seq<string>>)
    requires nextIndex < |headers|
    requires ParseRows(parseDate, headers, nextIndex, rows).Ok?
    ensures var ts := ParseRows(parseDate, headers, nextIndex, rows).value;
      var pos := TaskPositions(RowResults(parseDate, headers, nextIndex, rows));
      |ts| == |pos| && forall i :: 0 <= i < |ts| ==> ts[i].inputRowIdx == pos[i]
  {
    var results := RowResults(parseDate, headers, nextIndex, rows);
    CollectedTasks(results);
    var ts := Collect(results).value;
    var pos := TaskPositions(results);
    forall i | 0 <= i < |ts|
      ensures ts[i].inputRowIdx == pos[i]
    {
      assert results[pos[i]] == ParseRow(parseDate, headers, nextIndex, rows[pos[i]], pos[i]);
    }
  }

  /** The whole row logic: no rows, a missing column, or the parsed rows. */
  function TaskList(parseDate: DateParser, data: seq<seq<string>>): (r: Result<seq<InputTask>, Exc>)
    ensures data == [] ==> r == Err(NoData)
    ensures data != [] && MissingHeader(data[0], ExpectedColumns).Some? ==>
      r == Err(NoHeader(MissingHeader(data[0], ExpectedColumns).value))
  {
    if |data| == 0 then Err(NoData)
    else match MissingHeader(data[0], ExpectedColumns)
      case Some(e) => Err(NoHeader(e))
      case None =>
        assert "next" in ExpectedColumns;
        ParseRows(parseDate, data[0], IndexOf(data[0], "next"), data[1..])
  }

  /**
   * Reads the header, checks the expected columns, then walks the rows after it,
   * appending one task per row that is neither empty, metadata nor nameless.
   */
  method CsvStringToTaskList(parseDate: DateParser, data: seq<seq<string>>) returns (r: Result<seq<InputTask>, Exc>)
    ensures r == TaskList(parseDate, data)
  {
    if |data| == 0 {
      return Err(NoData);
    }
    var headers := data[0];
    var missing := CheckHeaders(headers);
    if missing.Some? {
      return Err(NoHeader(missing.value));
    }
    assert "next" in ExpectedColumns;
    var nextIndex := IndexOf(headers, "next");
    r := ParseRowLoop(parseDate, headers, nextIndex, data[1..], RowResults(parseDate, headers, nextIndex, data[1..]));
  }

  /** The first expected column the header lacks, checked in order. */
  method CheckHeaders(headers: seq<string>) returns (missing: Option<string>)
    ensures missing == MissingHeader(headers, ExpectedColumns)
  {
    for k := 0 to |ExpectedColumns|
      invariant forall e :: e in ExpectedColumns[..k] ==> e in headers
    {
      if ExpectedColumns[k] !in headers {
        MissingIsFirst(headers, ExpectedColumns, k);
        return Some(ExpectedColumns[k]);
      }
    }
    assert ExpectedColumns[..|ExpectedColumns|] == ExpectedColumns;
    return None;
  }

  /** The row loop: one task per kept row, or the first row's failure. */
  method ParseRowLoop(parseDate: DateParser, headers: seq<string>, nextIndex: nat, rows: seq<seq<string>>,
                      ghost results: seq<Result<Option<InputTask>, Exc>>)
    returns (r: Result<seq<InputTask>, Exc>)
    requires nextIndex < |headers| && |results| == |rows|
    requires forall i {:trigger ParseRow(parseDate, headers, nextIndex, rows[i], i)} :: 0 <= i < |rows| ==>
      results[i] == ParseRow(parseDate, headers, nextIndex, rows[i], i)
    ensures r == Collect(results)
  {
    var processed: seq<InputTask> := [];
    for rowIdx := 0 to |rows|
      invariant Collect(results[..rowIdx]) == Ok(processed)
    {
      var t := ParseRow(parseDate, headers, nextIndex, rows[rowIdx], rowIdx);
      assert results[..rowIdx + 1][..rowIdx] == results[..rowIdx];
      assert results[..rowIdx + 1][rowIdx] == t;
      if t.Err? {
        CollectFailsAfter(results, rowIdx);
        return Err(t.error);
      }
      if t.value.Some? {
        processed := processed + [t.value.value];
      }
    }
    assert results[..|rows|] == results;
    return Ok(processed);
  }

  /** A failure after a clean prefix is the failure of the whole collection. */
  lemma CollectFailsAfter(results: seq<Result<Option<InputTask>, Exc>>, k: nat)
    requires k < |results| && results[k].Err? && Collect(results[..k]).Ok?
    ensures Collect(results) == Err(results[k].error)
  {
    forall j | 0 <= j < k
      ensures results[j].Ok?
    {
      CollectOkPrefix(results[..k], j);
    }
    CollectFails(results, k);
  }

  /** Every result before a successful collection's end is a success. */
  lemma {:induction false} CollectOkPrefix(results: seq<Result<Option<InputTask>, Exc>>, j: nat)
    requires j < |results| && Collect(results).Ok?
    ensures results[j].Ok?
  {
    if j < |results| - 1 {
      CollectOkPrefix(results[..|results| - 1], j);
    }
  }

  lemma {:induction false} MissingIsFirst(headers: seq<string>, expected: seq<string>, k: nat)
    requires k < |expected| && expected[k] !in headers
    requires forall e :: e in expected[..k] ==> e in headers
    ensures MissingHeader(headers, expected) == Some(expected[k])
  {
    if k > 0 {
      assert expected[0] in expected[..k];
      assert expected[1..][..k - 1] == expected[..k][1..];
      MissingIsFirst(headers, expected[1..], k - 1);
    }
  }
}
