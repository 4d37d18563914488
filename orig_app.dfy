/**
 * backend/app.py: `parse_to_python` tries JSON, then comma- and tab-separated CSV, and
 * `process` checks the parse against the schema, computes its metrics and renders it,
 * shaping the reply. `json.loads`, `csv.reader`, the metric computation and the SVG
 * rendering are parameters.
 */
module OrigApp {
  import opened Wrappers
  import opened Exceptions
  import opened OrigTypes
  import opened OrigSchema
  import opened OrigCsvParser

  /** What `json.loads` gives: a value the schema check can meet, or the decoder's message. */
  datatype JsonLoad = Loaded(value: Item) | JsonError(message: string)

  type JsonLoader = string -> JsonLoad

  /** `list(csv.reader(lines, delimiter=...))` of a text. */
  type Splitter = (string, char) -> seq<seq<string>>

  /** A parse result as Python returns it: a pair `(content, metadata)`, or the `None` of line 35. */
  datatype Parse = Pair(content: Item, metadata: Item) | NoParse

  /** Python truthiness of a parse result: any 2-tuple is true, whatever it holds. */
  predicate Truthy(p: Parse) {
    p.Pair?
  }

  function InvalidJsonNote(message: string): Notification {
    Notification(Error, "Invalid JSON ( json.loads threw: \"" + message + ")\"")
  }

  /**
   * `try_json`: the loaded value paired with a fresh Metadata, or, when the decoder fails,
   * one ERROR notification and the pair `(None, None)`. Either way the result is a pair.
   */
  function TryJsonOf(content: string, notes: seq<Notification>, load: JsonLoader): (r: (Parse, seq<Notification>))
    ensures r.0.Pair?
    ensures load(content).Loaded? <==> r.1 == notes
    ensures load(content).Loaded? ==> r.0.content == load(content).value && r.0.metadata.MetadataItem?
    ensures load(content).JsonError? ==>
      r.0 == Pair(NoneItem, NoneItem) && r.1 == notes + [InvalidJsonNote(load(content).message)]
  {
    match load(content)
    case Loaded(v) => (Pair(v, MetadataItem), notes)
    case JsonError(msg) => (Pair(NoneItem, NoneItem), notes + [InvalidJsonNote(msg)])
  }

  /**
   * `try_csv(content, [], delimiter)` as a Python value: the task rows paired with their
   * Metadata, or `(None, None)` after a notice or an exception.
   */
  function CsvAttempt(content: string, delimiter: char, split: Splitter, parseDate: DateParser, describe: Describe)
    : (r: (Parse, seq<Notification>))
    ensures r.0.Pair?
    ensures r.1 == TryCsvOf(split(content, delimiter), [], delimiter, parseDate, describe).1
    ensures r.0.content.NoneItem? <==> TryCsvOf(split(content, delimiter), [], delimiter, parseDate, describe).0.None?
    ensures r.0.metadata.NoneItem? <==> r.0.content.NoneItem?
    ensures !r.0.content.NoneItem? ==>
      r.0.content == ListItem(TryCsvOf(split(content, delimiter), [], delimiter, parseDate, describe).0.value.rows)
      && r.0.metadata.MetadataItem?
  {
    var t := TryCsvOf(split(content, delimiter), [], delimiter, parseDate, describe);
    if t.0.Some? then (Pair(ListItem(t.0.value.rows), MetadataItem), t.1) else (Pair(NoneItem, NoneItem), t.1)
  }

  /** `parse_to_python` as written: each attempt is kept when its result is truthy. */
  function ParseToPythonOf(content: string, load: JsonLoader, split: Splitter, parseDate: DateParser, describe: Describe)
    : (Parse, seq<Notification>)
  {
    var j := TryJsonOf(content, [], load);
    if Truthy(j.0) then j
    else
      var c := CsvAttempt(content, ',', split, parseDate, describe);
      if Truthy(c.0) then c
      else
        var t := CsvAttempt(content, '\t', split, parseDate, describe);
        if Truthy(t.0) then t else (NoParse, j.1 + c.1 + t.1)
  }

  /**
   * As written, the JSON attempt always answers: its pair is truthy even after the decoder
   * failed, so the CSV attempts are never made and the text splitter is never consulted.
   */
  lemma JsonAlwaysAnswers(content: string, load: JsonLoader, split: Splitter, other: Splitter, parseDate: DateParser, describe: Describe)
    ensures ParseToPythonOf(content, load, split, parseDate, describe) == TryJsonOf(content, [], load)
    ensures ParseToPythonOf(content, load, split, parseDate, describe) == ParseToPythonOf(content, load, other, parseDate, describe)
    ensures load(content).JsonError? ==>
      ParseToPythonOf(content, load, split, parseDate, describe).0 == Pair(NoneItem, NoneItem)
  {
  }

  /**
   * The text `Task,next` is not JSON but is a comma-separated header: as written the reply
   * is built from `(None, None)` and the JSON error, while the intended fallback would have
   * parsed it as an empty task list.
   */
  lemma HeaderOnlyCsvIgnored(load: JsonLoader, split: Splitter, parseDate: DateParser, describe: Describe)
    requires load("Task,next").JsonError?
    requires split("Task,next", ',') == [["Task", "next"]]
    ensures ParseToPythonOf("Task,next", load, split, parseDate, describe)
      == (Pair(NoneItem, NoneItem), [InvalidJsonNote(load("Task,next").message)])
    ensures ParseWithFallbackOf("Task,next", load, split, parseDate, describe) == (Pair(ListItem([]), MetadataItem), [])
  {
    var data := [["Task", "next"]];
    assert data[0][0] == "Task" && data[0][1] == "next";
    assert Scan(data, data[0], IndexOf(data[0], "next"), parseDate, |data|) == Ok(([], InitialSettings));
    assert CsvToDataOf(data, ',', parseDate) == Ok((Some(Parsed([], InitialSettings)), []));
    var t := TryCsvOf(data, [], ',', parseDate, describe);
    assert t.0 == Some(Parsed([], InitialSettings));
    assert t.1 == [] + [];
    var c := CsvAttempt("Task,next", ',', split, parseDate, describe);
    assert c == (Pair(ListItem([]), MetadataItem), []);
    var j := TryJsonOf("Task,next", [], load);
    var none: seq<Notification> := [];
    var note := InvalidJsonNote(load("Task,next").message);
    assert none + [note] == [note];
    assert j == (Pair(NoneItem, NoneItem), [note]);
    assert !Produced(j.0);
    assert ParseWithFallbackOf("Task,next", load, split, parseDate, describe) == c;
    assert ParseToPythonOf("Task,next", load, split, parseDate, describe) == j;
  }

  /** A parse that produced content: the first element of the pair is not `None`. */
  predicate Produced(p: Parse) {
    p.Pair? && !p.content.NoneItem?
  }

  /** `parse_to_python` with the evidently intended test: an attempt counts when it produced content. */
  function ParseWithFallbackOf(content: string, load: JsonLoader, split: Splitter, parseDate: DateParser, describe: Describe)
    : (Parse, seq<Notification>)
  {
    var j := TryJsonOf(content, [], load);
    if Produced(j.0) then j
    else
      var c := CsvAttempt(content, ',', split, parseDate, describe);
      if Produced(c.0) then c
      else
        var t := CsvAttempt(content, '\t', split, parseDate, describe);
        if Produced(t.0) then t else (NoParse, j.1 + c.1 + t.1)
  }

  /**
   * The intended order: JSON when it decodes to something, else comma-separated CSV when that
   * yields rows, else tab-separated; each answer carries only its own attempt's notifications.
   * On total failure there is no parse, and the notifications of the three attempts follow in
   * that order: the JSON error (when the decoder failed) and then one ERROR from each CSV attempt.
   */
  lemma FallbackOrder(content: string, load: JsonLoader, split: Splitter, parseDate: DateParser, describe: Describe)
    ensures var r := ParseWithFallbackOf(content, load, split, parseDate, describe);
      var c := TryCsvOf(split(content, ','), [], ',', parseDate, describe);
      var t := TryCsvOf(split(content, '\t'), [], '\t', parseDate, describe);
      && (load(content).Loaded? && !load(content).value.NoneItem? ==> r == (Pair(load(content).value, MetadataItem), []))
      && (!(load(content).Loaded? && !load(content).value.NoneItem?) && c.0.Some? ==>
            r == (Pair(ListItem(c.0.value.rows), MetadataItem), c.1))
      && (!(load(content).Loaded? && !load(content).value.NoneItem?) && c.0.None? && t.0.Some? ==>
            r == (Pair(ListItem(t.0.value.rows), MetadataItem), t.1))
      && (!(load(content).Loaded? && !load(content).value.NoneItem?) && c.0.None? && t.0.None? ==>
            r.0 == NoParse && r.1 == TryJsonOf(content, [], load).1 + c.1 + t.1)
  {
  }

  /** On total failure the notifications are the JSON one (if any) and exactly one ERROR per CSV attempt. */
  lemma FallbackNotes(content: string, load: JsonLoader, split: Splitter, parseDate: DateParser, describe: Describe)
    requires ParseWithFallbackOf(content, load, split, parseDate, describe).0.NoParse?
    ensures var notes := ParseWithFallbackOf(content, load, split, parseDate, describe).1;
      var k := |TryJsonOf(content, [], load).1|;
      && k <= 1
      && |notes| == k + 2
      && (load(content).JsonError? ==> k == 1 && notes[0] == InvalidJsonNote(load(content).message))
      && notes[k].severity == Error && notes[k + 1].severity == Error
  {
    var notes := ParseWithFallbackOf(content, load, split, parseDate, describe).1;
    TryCsvNotifies(split(content, ','), [], ',', parseDate, describe);
    TryCsvNotifies(split(content, '\t'), [], '\t', parseDate, describe);
    var j := TryJsonOf(content, [], load).1;
    var c := TryCsvOf(split(content, ','), [], ',', parseDate, describe).1;
    var t := TryCsvOf(split(content, '\t'), [], '\t', parseDate, describe).1;
    assert notes == j + c + t;
    assert notes[|j|] == c[0] && notes[|j| + 1] == t[0];
  }

  /** `n.to_dict()`: the severity's name and the message. */
  datatype NoteDict = NoteDict(severity: string, message: string)

  function SeverityName(s: Severity): string {
    match s
    case Info => "INFO"
    case Error => "ERROR"
    case Severe => "SEVERE"
  }

  function ToDict(n: Notification): NoteDict {
    NoteDict(SeverityName(n.severity), n.message)
  }

  /** `[n.to_dict() for n in notifications]`: one dictionary per notification, in order. */
  function Dicts(notes: seq<Notification>): (r: seq<NoteDict>)
    ensures |r| == |notes|
    ensures forall i :: 0 <= i < |notes| ==> r[i] == NoteDict(SeverityName(notes[i].severity), notes[i].message)
  {
    seq(|notes|, i requires 0 <= i < |notes| => ToDict(notes[i]))
  }

  /** Distinct severities serialise to distinct names. */
  lemma SeverityNamesDistinct(a: Severity, b: Severity)
    ensures SeverityName(a) == SeverityName(b) <==> a == b
  {
  }

  /** `compute_graph_metrics(parsed, notifications)`: the notifications it leaves, and whether it raised. */
  type Metrics = (Parse, seq<Notification>) -> (Outcome<Exc>, seq<Notification>)

  /** `generate_svg_graph(parsed)`: the base64 text of the image, or the exception it raised. */
  type Render = Parse -> Result<string, Exc>

  /** The reply: the 200 body, the 500 body of the except branch, or an exception outside the try. */
  datatype Response =
    | Success(image: string, notifications: seq<NoteDict>)
    | ServerError(message: string, notifications: seq<NoteDict>)
    | Uncaught(error: Exc)

  /** What `for task in parsed_content` iterates over: the two members of a pair; `None` is not iterable. */
  function ItemsOf(p: Parse): (r: Result<seq<Item>, Exc>)
    ensures p.Pair? ==> r.Ok? && r.value == [p.content, p.metadata]
    ensures p.NoParse? ==> r.Err? && r.error == TypeError("iter")
  {
    match p
    case Pair(a, b) => Ok([a, b])
    case NoParse => Err(TypeError("iter"))
  }

  /** Lines 46-57: the schema check, the metrics, the rendering, and the reply for each outcome. */
  function RespondOf(parsed: Parse, notes: seq<Notification>, describe: Describe, metrics: Metrics, render: Render): Response {
    var items := ItemsOf(parsed);
    if items.Err? then ServerError(describe(items.error), Dicts(notes))
    else
      var schema := SchemaOf(items.value, |items.value|);
      if schema.Fail? then ServerError(describe(schema.error), Dicts(notes))
      else
        var m := metrics(parsed, notes);
        if m.0.Fail? then ServerError(describe(m.0.error), Dicts(m.1))
        else
          var image := render(parsed);
          if image.Err? then ServerError(describe(image.error), Dicts(m.1))
          else Success(image.value, Dicts(m.1))
  }

  /**
   * A reply succeeds iff the parse is a pair whose two members pass the schema check and
   * the metrics and the rendering do not raise; its body is then exactly the image and the
   * notifications the metrics left. Otherwise the reply is a 500 whose notifications are the
   * parser's when the schema step raised.
   */
  lemma RespondSucceeds(parsed: Parse, notes: seq<Notification>, describe: Describe, metrics: Metrics, render: Render)
    ensures RespondOf(parsed, notes, describe, metrics, render).Uncaught? == false
    ensures RespondOf(parsed, notes, describe, metrics, render).Success? <==>
      parsed.Pair? && Conforms(parsed.content) && Conforms(parsed.metadata)
      && metrics(parsed, notes).0.Pass? && render(parsed).Ok?
    ensures RespondOf(parsed, notes, describe, metrics, render).Success? ==>
      RespondOf(parsed, notes, describe, metrics, render) == Success(render(parsed).value, Dicts(metrics(parsed, notes).1))
    ensures !(parsed.Pair? && Conforms(parsed.content) && Conforms(parsed.metadata)) ==>
      RespondOf(parsed, notes, describe, metrics, render).ServerError?
      && RespondOf(parsed, notes, describe, metrics, render).notifications == Dicts(notes)
  {
    if parsed.Pair? {
      var items := [parsed.content, parsed.metadata];
      SchemaPasses(items, 2);
      assert (forall i :: 0 <= i < 2 ==> Conforms(items[i])) <==> Conforms(parsed.content) && Conforms(parsed.metadata);
    }
  }

  /** A pair whose second member is a Metadata object or `None` never passes the schema check. */
  lemma SecondMemberFails(p: Parse)
    requires p.Pair? && (p.metadata.MetadataItem? || p.metadata.NoneItem?)
    ensures SchemaOf([p.content, p.metadata], 2).Fail?
    ensures SchemaOf([p.content, p.metadata], 2).error in {AttributeError("FATAL"), TypeError("in"), TypeError("indices")}
  {
    var items := [p.content, p.metadata];
    SchemaPasses(items, 2);
    assert !Conforms(items[1]);
  }

  /** Every parse result either attempt order yields is a pair with Metadata or `None` second, or `None`. */
  lemma ParsesArePairs(content: string, load: JsonLoader, split: Splitter, parseDate: DateParser, describe: Describe)
    ensures var p := ParseToPythonOf(content, load, split, parseDate, describe).0;
      p.Pair? && (p.metadata.MetadataItem? || p.metadata.NoneItem?)
    ensures var p := ParseWithFallbackOf(content, load, split, parseDate, describe).0;
      p.NoParse? || p.metadata.MetadataItem? || p.metadata.NoneItem?
  {
  }

  /** `process`: `data['content']` outside the try, then the parse and the reply. */
  function ProcessOf(request: Option<map<string, string>>, load: JsonLoader, split: Splitter, parseDate: DateParser,
                     describe: Describe, metrics: Metrics, render: Render): Response {
    if request.None? then Uncaught(TypeError("subscript"))
    else if "content" !in request.value then Uncaught(MissingKey("content"))
    else
      var p := ParseToPythonOf(request.value["content"], load, split, parseDate, describe);
      RespondOf(p.0, p.1, describe, metrics, render)
  }

  /**
   * `verify_schema` is handed the whole pair, whose second member is a Metadata object (or
   * `None`), so every request with content ends in the 500 reply, carrying exactly the
   * parser's notifications and the message of AttributeError (for the undefined severity) or
   * of TypeError (for `in` on an object that cannot be searched, or for indexing a string or
   * list by "Status").
   */
  lemma ProcessAlwaysFails(request: Option<map<string, string>>, load: JsonLoader, split: Splitter, parseDate: DateParser,
                           describe: Describe, metrics: Metrics, render: Render)
    requires request.Some? && "content" in request.value
    ensures var r := ProcessOf(request, load, split, parseDate, describe, metrics, render);
      && r.ServerError?
      && r.notifications == Dicts(ParseToPythonOf(request.value["content"], load, split, parseDate, describe).1)
      && r.message in {describe(AttributeError("FATAL")), describe(TypeError("in")), describe(TypeError("indices"))}
  {
    var p := ParseToPythonOf(request.value["content"], load, split, parseDate, describe);
    ParsesArePairs(request.value["content"], load, split, parseDate, describe);
    SecondMemberFails(p.0);
  }

  /** The intended fallback does not rescue the reply: a CSV parse still reaches the check as a pair. */
  lemma FallbackStillFails(content: string, load: JsonLoader, split: Splitter, parseDate: DateParser, describe: Describe,
                           metrics: Metrics, render: Render)
    ensures var p := ParseWithFallbackOf(content, load, split, parseDate, describe);
      RespondOf(p.0, p.1, describe, metrics, render).ServerError?
      && RespondOf(p.0, p.1, describe, metrics, render).notifications == Dicts(p.1)
  {
    var p := ParseWithFallbackOf(content, load, split, parseDate, describe);
    ParsesArePairs(content, load, split, parseDate, describe);
    if p.0.Pair? {
      SecondMemberFails(p.0);
    }
  }
}
