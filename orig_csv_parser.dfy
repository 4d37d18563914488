/**
 * backend/csv_parser.py after tokenisation: the rows `csv.reader` produced are the input.
 * The first row names the columns; every later row is a metadata declaration, a task row,
 * or skipped. `try_csv` turns any exception of the row loop into one ERROR notification.
 */
module OrigCsvParser {
  import opened Wrappers
  import opened Text
  import opened Exceptions
  import opened Dates
  import opened OrigTypes

  /** `parse_date`, which backend/dateutil.py does not define; any parser may stand in. */
  type DateParser = string -> Result<Date, Exc>

  /** The `Metadata` fields the row loop sets; its registry is never changed (see `TeamRow`). */
  datatype Settings = Settings(startDate: Option<Date>, endDate: Option<Date>, minSlack: int)

  const InitialSettings: Settings := Settings(None, None, 0)

  /** `list.index(x)`: the first position of `x`. */
  function IndexOf(s: seq<string>, x: string): (r: nat)
    requires x in s
    ensures r < |s| && s[r] == x
    ensures forall j :: 0 <= j < r ==> s[j] != x
  {
    if s[0] == x then 0 else 1 + IndexOf(s[1..], x)
  }

  /** The stripped cells of a row, as dictionary values. */
  function StrippedCells(values: seq<string>): (r: seq<Cell>)
    ensures |r| == |values| && forall j :: 0 <= j < |values| ==> r[j] == Str(Strip(values[j]))
  {
    seq(|values|, j requires 0 <= j < |values| => Str(Strip(values[j])))
  }

  /** `{k: v for k, v in zip(keys, cells)}` over the first `n` pairs; a later key wins. */
  function Zip(keys: seq<string>, cells: seq<Cell>, n: nat): (r: Row)
    requires n <= |keys| && n <= |cells|
    ensures forall j :: 0 <= j < n ==> keys[j] in r
    decreases n
  {
    if n == 0 then map[]
    else Zip(keys, cells, n - 1)[keys[n - 1] := cells[n - 1]]
  }

  /** A key takes the value of the last pair that names it. */
  lemma {:induction false} ZipLastWins(keys: seq<string>, cells: seq<Cell>, n: nat, k: nat)
    requires k < n <= |keys| && n <= |cells|
    requires forall j :: k < j < n ==> keys[j] != keys[k]
    ensures Zip(keys, cells, n)[keys[k]] == cells[k]
    decreases n
  {
    if k < n - 1 {
      ZipLastWins(keys, cells, n - 1, k);
    }
  }

  /** The stripped, non-empty cells from position `from` on: the `next` list. */
  function NextCells(row: seq<string>, from: nat): (r: seq<string>)
    ensures forall j :: 0 <= j < |r| ==> r[j] != []
    decreases |row| - from
  {
    if from >= |row| then []
    else
      var rest := NextCells(row, from + 1);
      if Strip(row[from]) == [] then rest else [Strip(row[from])] + rest
  }

  function Min(a: nat, b: nat): nat {
    if a <= b then a else b
  }

  /** The dictionary of a task row: the cells before `next` by header, then the `next` list. */
  function RowDict(headers: seq<string>, nextIndex: nat, row: seq<string>): (r: Row)
    requires nextIndex <= |headers|
    ensures forall j :: 0 <= j < Min(nextIndex, |row|) ==> headers[j] in r
    ensures "next" in r && r["next"] == List(NextCells(row, nextIndex))
  {
    Zip(headers, StrippedCells(row), Min(nextIndex, |row|))["next" := List(NextCells(row, nextIndex))]
  }

  /** What one row after the header does to the loop. */
  datatype RowStep = Skip | SetMeta(settings: Settings) | Keep(row: Row)

  /** True iff some cell from position 2 on is non-blank: each such cell is a member. */
  predicate HasMember(row: seq<string>) {
    exists j :: 2 <= j < |row| && Strip(row[j]) != []
  }

  /**
   * A `%TEAM` row: too short raises; otherwise the first non-blank member makes the two
   * argument `add_person` call fail, since the method takes three; without members nothing
   * happens.
   */
  function TeamRow(row: seq<string>): (r: Result<RowStep, Exc>)
    ensures |row| < 3 ==> r == Err(InvalidDeclaration("%TEAM"))
    ensures |row| >= 3 ==> (r.Err? <==> HasMember(row))
    ensures r.Ok? ==> r.value == Skip
  {
    if |row| < 3 then Err(InvalidDeclaration("%TEAM"))
    else if HasMember(row) then Err(TypeError("add_person"))
    else Ok(Skip)
  }

  /** A `%START`, `%END` or `%MINSLACK` row, which needs a value cell. */
  function SettingRow(row: seq<string>, keyword: string, s: Settings, parseDate: DateParser): (r: Result<RowStep, Exc>)
    requires |row| > 0
    ensures |row| < 2 ==> r == Err(InvalidDeclaration(keyword))
    ensures r.Ok? ==> r.value.SetMeta?
  {
    if |row| < 2 then Err(InvalidDeclaration(keyword))
    else if keyword == "%MINSLACK" then
      if ParseInt(row[1]).Some? then Ok(SetMeta(s.(minSlack := ParseInt(row[1]).value)))
      else Err(NotAnInt(row[1]))
    else
      var d := parseDate(row[1]);
      if d.Err? then Err(d.error)
      else if keyword == "%START" then Ok(SetMeta(s.(startDate := Some(d.value))))
      else Ok(SetMeta(s.(endDate := Some(d.value))))
  }

  /** The body of the row loop. Only an exact first cell selects a metadata declaration. */
  function RowOf(headers: seq<string>, nextIndex: nat, row: seq<string>, s: Settings, parseDate: DateParser): (r: Result<RowStep, Exc>)
    requires nextIndex <= |headers|
  {
    if |row| == 0 then Ok(Skip)
    else if row[0] == "%TEAM" then TeamRow(row)
    else if row[0] == "%START" || row[0] == "%END" || row[0] == "%MINSLACK" then SettingRow(row, row[0], s, parseDate)
    else
      var d := RowDict(headers, nextIndex, row);
      if "Task" !in d then Err(MissingKey("Task"))
      else if !Truthy(d["Task"]) || d["Task"] == Str("Task") then Ok(Skip)
      else Ok(Keep(d))
  }

  /** A row the loop keeps names a task that is neither blank nor the header word. */
  predicate NamesTask(d: Row) {
    "Task" in d && Truthy(d["Task"]) && d["Task"] != Str("Task")
  }

  /** The rows kept and the settings after rows 1 .. n-1 of `data`, or the first exception. */
  function Scan(data: seq<seq<string>>, headers: seq<string>, nextIndex: nat, parseDate: DateParser, n: nat): Result<(seq<Row>, Settings), Exc>
    requires nextIndex <= |headers| && n <= |data|
    decreases n
  {
    if n <= 1 then Ok(([], InitialSettings))
    else
      var before := Scan(data, headers, nextIndex, parseDate, n - 1);
      if before.Err? then before
      else
        var step := RowOf(headers, nextIndex, data[n - 1], before.value.1, parseDate);
        if step.Err? then Err(step.error)
        else match step.value
          case Skip => before
          case SetMeta(s) => Ok((before.value.0, s))
          case Keep(d) => Ok((before.value.0 + [d], before.value.1))
  }

  /** Every kept row names a task. */
  lemma {:induction false} ScanNamesTasks(data: seq<seq<string>>, headers: seq<string>, nextIndex: nat, parseDate: DateParser, n: nat)
    requires nextIndex <= |headers| && n <= |data|
    requires Scan(data, headers, nextIndex, parseDate, n).Ok?
    ensures forall j :: 0 <= j < |Scan(data, headers, nextIndex, parseDate, n).value.0| ==>
      NamesTask(Scan(data, headers, nextIndex, parseDate, n).value.0[j])
    decreases n
  {
    if n > 1 {
      ScanNamesTasks(data, headers, nextIndex, parseDate, n - 1);
    }
  }

  /** An exception in one row is the loop's exception, whatever the later rows hold. */
  lemma {:induction false} ScanFailureStays(data: seq<seq<string>>, headers: seq<string>, nextIndex: nat, parseDate: DateParser, n: nat, m: nat)
    requires nextIndex <= |headers| && n <= m <= |data|
    requires Scan(data, headers, nextIndex, parseDate, n).Err?
    ensures Scan(data, headers, nextIndex, parseDate, m).Err?
    ensures Scan(data, headers, nextIndex, parseDate, m).error == Scan(data, headers, nextIndex, parseDate, n).error
    decreases m - n
  {
    if n < m {
      ScanErrStep(data, headers, nextIndex, parseDate, n);
      ScanFailureStays(data, headers, nextIndex, parseDate, n + 1, m);
    }
  }

  /** The row after a failed prefix leaves the failure as it is. */
  lemma ScanErrStep(data: seq<seq<string>>, headers: seq<string>, nextIndex: nat, parseDate: DateParser, n: nat)
    requires nextIndex <= |headers| && n < |data|
    requires Scan(data, headers, nextIndex, parseDate, n).Err?
    ensures Scan(data, headers, nextIndex, parseDate, n + 1).Err?
    ensures Scan(data, headers, nextIndex, parseDate, n + 1).error == Scan(data, headers, nextIndex, parseDate, n).error
  {
  }

  function DelimiterNote(column: string, delimiter: char): Notification {
    Notification(Error, "Could not find '" + column + "' column parsing as ordinal-separated: " + IntToString(delimiter as int))
  }

  const EmptyNote: Notification := Notification(Error, "CSV appears empty")

  /** A completed parse: the task rows and the metadata settings. */
  datatype Parsed = Parsed(rows: seq<Row>, settings: Settings)

  /** `csv_string_to_data`: `None` with a notification when a header is missing. */
  function CsvToDataOf(data: seq<seq<string>>, delimiter: char, parseDate: DateParser): (r: Result<(Option<Parsed>, seq<Notification>), Exc>)
    ensures data == [] ==> r == Ok((None, [EmptyNote]))
    ensures data != [] && "Task" !in data[0] ==> r == Ok((None, [DelimiterNote("Task", delimiter)]))
    ensures data != [] && "Task" in data[0] && "next" !in data[0] ==> r == Ok((None, [DelimiterNote("next", delimiter)]))
    ensures r.Ok? && r.value.0.Some? ==> r.value.1 == []
  {
    if data == [] then Ok((None, [EmptyNote]))
    else if "Task" !in data[0] then Ok((None, [DelimiterNote("Task", delimiter)]))
    else if "next" !in data[0] then Ok((None, [DelimiterNote("next", delimiter)]))
    else
      var scan := Scan(data, data[0], IndexOf(data[0], "next"), parseDate, |data|);
      if scan.Err? then Err(scan.error) else Ok((Some(Parsed(scan.value.0, scan.value.1)), []))
  }

  /** `str(e)`, the message of an exception, for whatever messages Python builds. */
  type Describe = Exc -> string

  function InvalidCsvNote(delimiter: char, e: Exc, describe: Describe): Notification {
    Notification(Error, "Invalid CSV (delimiter ASCII: " + IntToString(delimiter as int) + ") : " + describe(e))
  }

  /** `try_csv`: the parse, with an exception turned into one ERROR notification and `None`. */
  function TryCsvOf(data: seq<seq<string>>, notes: seq<Notification>, delimiter: char, parseDate: DateParser, describe: Describe): (r: (Option<Parsed>, seq<Notification>))
    ensures CsvToDataOf(data, delimiter, parseDate).Err? ==>
      r == (None, notes + [InvalidCsvNote(delimiter, CsvToDataOf(data, delimiter, parseDate).error, describe)])
    ensures CsvToDataOf(data, delimiter, parseDate).Ok? ==>
      r == (CsvToDataOf(data, delimiter, parseDate).value.0, notes + CsvToDataOf(data, delimiter, parseDate).value.1)
  {
    var c := CsvToDataOf(data, delimiter, parseDate);
    if c.Err? then (None, notes + [InvalidCsvNote(delimiter, c.error, describe)])
    else (c.value.0, notes + c.value.1)
  }

  /** Every outcome adds exactly one notification, except a completed parse, which adds none. */
  lemma TryCsvNotifies(data: seq<seq<string>>, notes: seq<Notification>, delimiter: char, parseDate: DateParser, describe: Describe)
    ensures var r := TryCsvOf(data, notes, delimiter, parseDate, describe);
      (r.0.Some? ==> r.1 == notes) &&
      (r.0.None? ==> |r.1| == |notes| + 1 && r.1[..|notes|] == notes && r.1[|notes|].severity == Error)
  {
  }

  /** Any `%TEAM` row that is reached and names a member ends the parse in the error path. */
  lemma TeamRowFails(data: seq<seq<string>>, delimiter: char, parseDate: DateParser, n: nat)
    requires 1 <= n < |data| && "Task" in data[0] && "next" in data[0]
    requires Scan(data, data[0], IndexOf(data[0], "next"), parseDate, n).Ok?
    requires |data[n]| >= 3 && data[n][0] == "%TEAM" && HasMember(data[n])
    ensures CsvToDataOf(data, delimiter, parseDate) == Err(TypeError("add_person"))
  {
    var headers := data[0];
    var ni := IndexOf(headers, "next");
    var before := Scan(data, headers, ni, parseDate, n);
    assert TeamRow(data[n]) == Err(TypeError("add_person"));
    assert RowOf(headers, ni, data[n], before.value.1, parseDate) == Err(TypeError("add_person"));
    ScanFailsAt(data, delimiter, headers, ni, parseDate, n, TypeError("add_person"));
  }

  /** A row that raises ends the parse with its exception. */
  lemma ScanFailsAt(data: seq<seq<string>>, delimiter: char, headers: seq<string>, nextIndex: nat, parseDate: DateParser, n: nat, e: Exc)
    requires 1 <= n < |data| && headers == data[0] && "Task" in headers && "next" in headers
    requires nextIndex == IndexOf(headers, "next")
    requires Scan(data, headers, nextIndex, parseDate, n).Ok?
    requires RowOf(headers, nextIndex, data[n], Scan(data, headers, nextIndex, parseDate, n).value.1, parseDate) == Err(e)
    ensures CsvToDataOf(data, delimiter, parseDate) == Err(e)
  {
    assert Scan(data, headers, nextIndex, parseDate, n + 1) == Err(e);
    ScanFailureStays(data, headers, nextIndex, parseDate, n + 1, |data|);
  }

  /** The cells of a kept row's `next` list, and each header before `next` read from its cell. */
  lemma {:induction false} KeptRowCells(headers: seq<string>, nextIndex: nat, row: seq<string>, k: nat)
    requires nextIndex <= |headers| && k < nextIndex && k < |row|
    requires forall j :: k < j < nextIndex ==> headers[j] != headers[k]
    ensures RowDict(headers, nextIndex, row)[headers[k]] == Str(Strip(row[k])) || headers[k] == "next"
  {
    if headers[k] != "next" {
      var cells := StrippedCells(row);
      var n := Min(nextIndex, |row|);
      ZipLastWins(headers, cells, n, k);
      var z := Zip(headers, cells, n);
      assert z[headers[k]] == cells[k] == Str(Strip(row[k]));
      assert RowDict(headers, nextIndex, row) == z["next" := List(NextCells(row, nextIndex))];
    }
  }

  /**
   * `csv_string_to_data`, with the row loop and the metadata object it fills. Its only
   * metadata calls set the dates and the slack, so the registry stays as constructed.
   */
  method CsvStringToData(data: seq<seq<string>>, delimiter: char, parseDate: DateParser)
    returns (r: Result<Option<(seq<Row>, Metadata)>, Exc>, added: seq<Notification>)
    ensures CsvToDataOf(data, delimiter, parseDate).Ok? <==> r.Ok?
    ensures r.Ok? ==> added == CsvToDataOf(data, delimiter, parseDate).value.1
    ensures r.Ok? ==> (r.value.Some? <==> CsvToDataOf(data, delimiter, parseDate).value.0.Some?)
    ensures r.Err? ==> r.error == CsvToDataOf(data, delimiter, parseDate).error
    ensures r.Ok? && r.value.Some? ==>
      var p := CsvToDataOf(data, delimiter, parseDate).value.0.value;
      var m := r.value.value.1;
      && fresh(m)
      && r.value.value.0 == p.rows
      && Settings(m.startDate, m.endDate, m.minSlack) == p.settings
      && m.Reg() == Registry(map[], map[], InitialNames, map[])
  {
    added := [];
    if |data| == 0 {
      added := [EmptyNote];
      return Ok(None), added;
    }
    var headers := data[0];
    if "Task" !in headers {
      added := [DelimiterNote("Task", delimiter)];
      return Ok(None), added;
    }
    if "next" !in headers {
      added := [DelimiterNote("next", delimiter)];
      return Ok(None), added;
    }
    var nextIndex := IndexOf(headers, "next");
    var processed: seq<Row> := [];
    var m := new Metadata();
    for i := 1 to |data|
      invariant Scan(data, headers, nextIndex, parseDate, i) == Ok((processed, Settings(m.startDate, m.endDate, m.minSlack)))
      invariant m.Reg() == Registry(map[], map[], InitialNames, map[])
    {
      var step := RowOf(headers, nextIndex, data[i], Settings(m.startDate, m.endDate, m.minSlack), parseDate);
      if step.Err? {
        ScanFailureStays(data, headers, nextIndex, parseDate, i + 1, |data|);
        return Err(step.error), added;
      }
      match step.value
      case Skip =>
      case SetMeta(s) =>
        m.startDate, m.endDate, m.minSlack := s.startDate, s.endDate, s.minSlack;
      case Keep(d) =>
        processed := processed + [d];
    }
    return Ok(Some((processed, m))), added;
  }

  /** `try_csv`: the notifications get the parse's notices, or one ERROR for its exception. */
  method TryCsv(data: seq<seq<string>>, notes: seq<Notification>, delimiter: char, parseDate: DateParser, describe: Describe)
    returns (rows: Option<seq<Row>>, m: Option<Metadata>, notes': seq<Notification>)
    ensures notes' == TryCsvOf(data, notes, delimiter, parseDate, describe).1
    ensures rows.Some? <==> TryCsvOf(data, notes, delimiter, parseDate, describe).0.Some?
    ensures rows.Some? ==> rows.value == TryCsvOf(data, notes, delimiter, parseDate, describe).0.value.rows
    ensures m.Some? <==> rows.Some?
    ensures m.Some? ==>
      var p := TryCsvOf(data, notes, delimiter, parseDate, describe).0.value;
      fresh(m.value) && Settings(m.value.startDate, m.value.endDate, m.value.minSlack) == p.settings
  {
    var r, added := CsvStringToData(data, delimiter, parseDate);
    if r.Err? {
      return None, None, notes + [InvalidCsvNote(delimiter, r.error, describe)];
    }
    notes' := notes + added;
    if r.value.None? {
      return None, None, notes';
    }
    rows, m := Some(r.value.value.0), Some(r.value.value.1);
  }

  /**
   * Rows that are not metadata declarations: an empty row is skipped, and so is a row whose
   * `Task` cell (the last `Task` column before `next`) is blank or reads "Task"; any other
   * row is kept as its dictionary.
   */
  lemma TaskRowFilter(headers: seq<string>, nextIndex: nat, row: seq<string>, s: Settings, parseDate: DateParser, k: nat)
    requires nextIndex <= |headers| && k < nextIndex && k < |row| && headers[k] == "Task"
    requires forall j :: k < j < nextIndex ==> headers[j] != "Task"
    requires row[0] != "%TEAM" && row[0] != "%START" && row[0] != "%END" && row[0] != "%MINSLACK"
    ensures RowOf(headers, nextIndex, row, s, parseDate) ==
      if Strip(row[k]) == [] || Strip(row[k]) == "Task" then Ok(Skip) else Ok(Keep(RowDict(headers, nextIndex, row)))
  {
    var d := RowDict(headers, nextIndex, row);
    KeptRowCells(headers, nextIndex, row, k);
    var cell := Str(Strip(row[k]));
    assert "Task" in d && d["Task"] == cell;
    assert RowOf(headers, nextIndex, row, s, parseDate) ==
      if !Truthy(cell) || cell == Str("Task") then Ok(Skip) else Ok(Keep(d));
  }

  lemma EmptyRowSkipped(headers: seq<string>, nextIndex: nat, s: Settings, parseDate: DateParser)
    requires nextIndex <= |headers|
    ensures RowOf(headers, nextIndex, [], s, parseDate) == Ok(Skip)
  {
  }

  /** `try_csv("")`: no rows at all, so one "CSV appears empty" error. */
  lemma EmptyCsvReported(notes: seq<Notification>, delimiter: char, parseDate: DateParser, describe: Describe)
    ensures TryCsvOf([], notes, delimiter, parseDate, describe) == (None, notes + [Notification(Error, "CSV appears empty")])
  {
  }
}
