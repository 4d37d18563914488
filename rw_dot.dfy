/**
 * The DOT serialisation of the rewritten backend: how each scheduled task becomes an HTML-like
 * node label (border from its dates, table layout from its estimate and status) and how each
 * edge is coloured and labelled from its slack.
 */
module RwDot {
  import opened Wrappers
  import opened Text
  import opened Exceptions
  import opened Dates
  import opened RwTypes
  import opened RwGraph
  import opened RwScheduler

  /** `SOON_THRESHOLD`: business days ahead at which a start counts as imminent. */
  const SoonThreshold := 3

  /** The per-task decoration; rendering reads only whether the task is critical. */
  datatype Decoration = Decoration(critical: bool)

  /** How a date prints (`str(date)`); the calendar text itself is not modelled. */
  type DateFormat = Date -> string

  const FontOpen := "<FONT POINT-SIZE=\"14\">"
  const FontClose := "</FONT>"

  /** `title_format`. */
  function TitleFormat(title: string): string {
    FontOpen + title + FontClose
  }

  /** The title text sits between the font tags and can be read back. */
  lemma TitleWrapsText(title: string)
    ensures |TitleFormat(title)| == |FontOpen| + |title| + |FontClose|
    ensures TitleFormat(title)[..|FontOpen|] == FontOpen
    ensures TitleFormat(title)[|FontOpen|..|FontOpen| + |title|] == title
    ensures TitleFormat(title)[|FontOpen| + |title|..] == FontClose
  {
    var r := TitleFormat(title);
    assert r == FontOpen + (title + FontClose);
    assert r[|FontOpen|..] == title + FontClose;
  }

  /** `style_text`: italic is applied first, so bold is the outer tag. */
  function StyleText(text: string, italic: bool, bold: bool): string {
    var s := if italic then "<i>" + text + "</i>" else text;
    if bold then "<b>" + s + "</b>" else s
  }

  /** The nesting of the two styles and the default of neither. */
  lemma StyleNesting(text: string)
    ensures StyleText(text, false, false) == text
    ensures StyleText(text, true, true) == "<b>" + StyleText(text, true, false) + "</b>"
    ensures StyleText(text, true, false) == "<i>" + text + "</i>"
    ensures StyleText(text, false, true) == "<b>" + text + "</b>"
  {
  }

  /** A task is overdue when it has an end date already past. */
  predicate Overdue(task: InputTask, today: Date) {
    task.endDate.Some? && today > task.endDate.value
  }

  /** A task has started when it has a start date not after today. */
  predicate Started(task: InputTask, today: Date) {
    task.startDate.Some? && today >= task.startDate.value
  }

  /** A task starts soon when its start date is at most `SoonThreshold` business days ahead. */
  predicate Soon(task: InputTask, today: Date) {
    task.startDate.Some? && BusdaysBetween(today, task.startDate.value) <= SoonThreshold
  }

  /** The colours the generator names, with the DOT spelling of each. */
  datatype Colour = Black | Red | LightGreen | LightYellow | Gray

  function ColourName(c: Colour): string {
    match c
    case Black => "black"
    case Red => "red"
    case LightGreen => "lightgreen"
    case LightYellow => "lightyellow"
    case Gray => "gray"
  }

  datatype Border = Border(width: int, colour: Colour)

  /** The node border that `dot_task` chooses from the dates and `today`. */
  function BorderOf(task: InputTask, today: Date): (r: Border)
    ensures r.colour == Red <==>
      Overdue(task, today) || (Started(task, today) && task.status != InProgress)
    ensures r.colour == LightGreen <==>
      !Overdue(task, today) && Started(task, today) && task.status == InProgress
    ensures r.colour == LightYellow <==>
      !Overdue(task, today) && !Started(task, today) && Soon(task, today)
    ensures r.colour == Black <==>
      !Overdue(task, today) && !Started(task, today) && !Soon(task, today)
    ensures r.width == 2 <==> r.colour == Black
    ensures r.width == 2 || r.width == 4
  {
    if Overdue(task, today) then Border(4, Red)
    else if Started(task, today) then
      (if task.status != InProgress then Border(4, Red) else Border(4, LightGreen))
    else if Soon(task, today) then Border(4, LightYellow)
    else Border(2, Black)
  }

  /** A lightyellow border is only for a start that lies ahead, between one and three days. */
  lemma SoonIsAhead(task: InputTask, today: Date)
    requires BorderOf(task, today).colour == LightYellow
    ensures 1 <= task.startDate.value - today <= SoonThreshold
  {
  }

  /**
   * Equality of a `Status` member with a text: `Status` is a plain enumeration, so a member
   * never equals a `str`.
   */
  predicate StatusIsText(st: Status, text: string) {
    false
  }

  /** The three-column table's status colour, compared against status texts. */
  function StatusColor(st: Status): (r: string)
    ensures r == "white"
  {
    if StatusIsText(st, "blocked") then "red"
    else if StatusIsText(st, "in progress") then "lightgreen"
    else "white"
  }

  /** `f"{task.status}"`: the enumeration's qualified member name. */
  function StatusText(st: Status): string {
    "Status." + StatusName(st)
  }

  /** A date field as an f-string shows it: `None` when absent. */
  function DateText(d: Option<Date>, fmt: DateFormat): string {
    match d
    case None => "None"
    case Some(x) => fmt(x)
  }

  /** `f"{task.estimate}d"`. */
  function EstimateText(e: Option<int>): string {
    match e
    case None => "Noned"
    case Some(x) => IntToString(x) + "d"
  }

  datatype Layout = MilestoneTable | DoneTable | TwoColumnTable | ThreeColumnTable

  /** The label layout: a zero estimate wins over every status. */
  function LayoutOf(task: InputTask): (r: Layout)
    ensures r == MilestoneTable <==> task.estimate == Some(0)
    ensures r == DoneTable <==> task.estimate != Some(0) && task.status == Completed
    ensures r == TwoColumnTable <==> task.estimate != Some(0) && task.status == NotStarted
    ensures r == ThreeColumnTable <==>
      task.estimate != Some(0) && task.status in {InProgress, Blocked, Milestone}
  {
    if task.estimate == Some(0) then MilestoneTable
    else match task.status
      case Completed => DoneTable
      case NotStarted => TwoColumnTable
      case _ => ThreeColumnTable
  }

  /** The texts that the label tables are filled with. */
  datatype Cells = Cells(title: string, startDate: string, endDate: string, estimate: string,
                         assignees: string, description: string, border: Border, status: Status)

  /** The cell texts of one task; `wrap` is the escaped, wrapped description. */
  function CellsOf(task: InputTask, decoration: Decoration, today: Date,
                   fmt: DateFormat, wrap: string -> string): Cells {
    Cells(TitleFormat(StyleText(task.name, false, decoration.critical)),
          DateText(task.startDate, fmt), DateText(task.endDate, fmt),
          EstimateText(task.estimate),
          if |task.assignees| > 0 then Join(", ", task.assignees) else "",
          wrap(task.description), BorderOf(task, today), task.status)
  }

  /** The HTML table of the label for one layout. */
  function Label(layout: Layout, c: Cells): string {
    var bw := IntToString(c.border.width);
    var bc := ColourName(c.border.colour);
    var sc := StatusColor(c.status);
    match layout
    case MilestoneTable =>
      "<table border='1' cellborder='1' cellspacing='0'><tr><td>" + c.title + "</td></tr>"
      + "<tr><td bgcolor='white'>" + c.endDate + "</td></tr>"
      + "<tr><td bgcolor='#FFD580'> " + c.description + "</td></tr></table>"
    case DoneTable =>
      "<table border='1' color='lightblue' cellborder='1' cellspacing='0'>"
      + "<tr><td color='black' bgcolor='lightblue'>" + c.title + " (done)</td></tr>"
      + "<tr><td color='black' bgcolor='white'>" + c.endDate + "</td></tr></table>"
    case TwoColumnTable =>
      "<table border='" + bw + "' color='" + bc + "' cellborder='1' cellspacing='0'>"
      + "<tr><td color='black' colspan='2'>" + c.title + "</td></tr>"
      + "<tr><td color='black' bgcolor='white'>" + c.startDate
      + "</td><td color='black' bgcolor='white'>" + c.endDate + "</td></tr>"
      + "<tr><td color='black' bgcolor='white'>" + c.assignees
      + "</td><td color='black' bgcolor='white'>" + c.estimate + "</td></tr>"
      + "<tr><td color='black' colspan='2'>" + c.description + "</td></tr></table>"
    case ThreeColumnTable =>
      "<table border='" + bw + "' color='" + bc + "' cellborder='1' cellspacing='0'>"
      + "<tr><td color='black' colspan='3' bgcolor='" + sc + "'>" + c.title + "</td></tr>"
      + "<tr><td color='black' bgcolor='white'>" + c.startDate
      + "</td><td color='black' bgcolor='" + sc + "'>" + StatusText(c.status)
      + "</td><td color='black' bgcolor='white'>" + c.endDate + "</td></tr>"
      + "<tr><td color='black' bgcolor='white' colspan='2'>" + c.assignees
      + "</td><td color='black' bgcolor='white'>" + c.estimate + "</td></tr>"
      + "<tr><td color='black' colspan='3'>" + c.description + "</td></tr></table>"
  }

  const LabelOpen := " [label=<"
  const LabelClose := ">];"

  /** A node statement: the dense id, then the label. */
  function NodeStatement(id: int, body: string): string {
    IntToString(id) + LabelOpen + body + LabelClose
  }

  /** A node statement starts with the task's id and ends with the statement close. */
  lemma NodeStatementFrame(id: int, body: string)
    ensures |NodeStatement(id, body)| == |IntToString(id)| + |LabelOpen| + |body| + |LabelClose|
    ensures NodeStatement(id, body)[..|IntToString(id)|] == IntToString(id)
    ensures NodeStatement(id, body)[|IntToString(id)|..|IntToString(id)| + |LabelOpen|] == LabelOpen
    ensures NodeStatement(id, body)[|NodeStatement(id, body)| - |LabelClose|..] == LabelClose
  {
    var s := IntToString(id);
    var r := NodeStatement(id, body);
    assert r == s + (LabelOpen + (body + LabelClose));
    assert r[|s|..] == LabelOpen + (body + LabelClose);
    assert r == (s + LabelOpen + body) + LabelClose;
  }

  /** `dot_task`: the node statement of a task that has been given scheduler fields. */
  function DotTask(task: InputTask, decoration: Decoration, today: Date,
                   fmt: DateFormat, wrap: string -> string): string
    requires task.schedulerFields.Some?
  {
    NodeStatement(task.schedulerFields.value.id,
                  Label(LayoutOf(task), CellsOf(task, decoration, today, fmt, wrap)))
  }

  /** A milestone's label shows only the title, the end date and the description. */
  lemma MilestoneIgnoresStatus(task: InputTask, other: Status, decoration: Decoration, today: Date,
                               fmt: DateFormat, wrap: string -> string)
    requires task.schedulerFields.Some? && task.estimate == Some(0)
    ensures DotTask(task, decoration, today, fmt, wrap) ==
            DotTask(task.(status := other), decoration, today, fmt, wrap)
  {
  }

  datatype EdgeStyle = EdgeStyle(colour: Colour, width: int, text: string)

  /** The colour, pen width and label of one edge. */
  function EdgeStyleOf(e: Edge): (r: EdgeStyle)
    ensures r.colour == Red <==> e.slack < 0
    ensures r.colour == Black <==> e.critical && e.slack >= 0
    ensures r.colour == Gray <==> !e.critical && e.slack >= 0
    ensures r.width == (if e.critical then 4 else 1)
    ensures e.slack == 0 <==> r.text == ""
    ensures e.slack > 0 ==> r.text == "+" + NatToString(e.slack) + "d"
    ensures e.slack < 0 ==> r.text == "late " + NatToString(-e.slack) + "d"
  {
    var colour := if e.critical then Black else Gray;
    var width := if e.critical then 4 else 1;
    if e.slack > 0 then EdgeStyle(colour, width, "+" + IntToString(e.slack) + "d")
    else if e.slack < 0 then EdgeStyle(Red, width, "late " + IntToString(-e.slack) + "d")
    else EdgeStyle(colour, width, "")
  }

  /** Every node has scheduler fields and every edge joins two nodes of the graph. */
  predicate WellFormed(g: Graph) {
    (forall i :: 0 <= i < |g.nodes| ==> g.nodes[i].schedulerFields.Some?) &&
    (forall j :: 0 <= j < |g.edges| ==>
      NodeIndex(g.nodes, g.edges[j].source, 0).Some? && NodeIndex(g.nodes, g.edges[j].target, 0).Some?)
  }

  /** The dense id of the node a name refers to. */
  function IdOf(g: Graph, name: string): int
    requires WellFormed(g) && NodeIndex(g.nodes, name, 0).Some?
  {
    g.nodes[NodeIndex(g.nodes, name, 0).value].schedulerFields.value.id
  }

  /** One edge statement, ending in a newline. */
  function EdgeStatement(g: Graph, e: Edge): string
    requires WellFormed(g) && e in g.edges
  {
    var st := EdgeStyleOf(e);
    IntToString(IdOf(g, e.source)) + " -> " + IntToString(IdOf(g, e.target))
    + " [color=" + ColourName(st.colour) + ", penwidth=" + IntToString(st.width)
    + ", label=\"" + st.text + "\"];\n"
  }

  /** The statements of the listed edges, in order. */
  function EdgeStatementsOf(g: Graph, view: seq<Edge>): (r: seq<string>)
    requires WellFormed(g) && forall e :: e in view ==> e in g.edges
    ensures |r| == |view|
  {
    if view == [] then [] else [EdgeStatement(g, view[0])] + EdgeStatementsOf(g, view[1..])
  }

  /** The edge statements, one per edge of `G.edges`: grouped by source node, in node order. */
  function EdgeStatements(g: Graph): (r: seq<string>)
    requires WellFormed(g)
    ensures |r| == |EdgeView(g.nodes, g.edges, |g.nodes|)|
  {
    EdgeStatementsOf(g, EdgeView(g.nodes, g.edges, |g.nodes|))
  }

  /**
   * The position of the first node of `nodes[n..]` without a decoration, if there is one.
   * `decorations[task]` hashes the name but compares every field, so a key is found only
   * when it equals the task outright.
   */
  function FirstUndecorated(nodes: seq<InputTask>, decorations: map<InputTask, Decoration>, n: nat)
    : (r: Option<nat>)
    requires n <= |nodes|
    ensures r.Some? ==> (n <= r.value < |nodes| && nodes[r.value] !in decorations &&
      forall i :: n <= i < r.value ==> nodes[i] in decorations)
    ensures r.None? ==> forall i :: n <= i < |nodes| ==> nodes[i] in decorations
    decreases |nodes| - n
  {
    if n == |nodes| then None
    else if nodes[n] !in decorations then Some(n)
    else FirstUndecorated(nodes, decorations, n + 1)
  }

  /** The node statements, one per node in node order, for a fully decorated graph. */
  function NodeStatements(g: Graph, decorations: map<InputTask, Decoration>, today: Date,
                          fmt: DateFormat, wrap: string -> string): (r: seq<string>)
    requires WellFormed(g)
    requires forall i :: 0 <= i < |g.nodes| ==> g.nodes[i] in decorations
    ensures |r| == |g.nodes|
  {
    seq(|g.nodes|, i requires 0 <= i < |g.nodes| =>
      DotTask(g.nodes[i], decorations[g.nodes[i]], today, fmt, wrap))
  }

  const Header := "digraph Items {\n" + "rankdir=LR;\n"
    + "node [fontname=\"Calibri,sans-serif\" fontsize=\"12pt\" shape=plaintext];\n"
    + "edge [fontname=\"Calibri,sans-serif\" fontsize=\"10pt\"];\n"

  const Footer := "}\n"

  /**
   * `generate_dot_file`, as a value: the missing-key error of the first undecorated node, or
   * the header, the node statements joined by newlines, the edge statements and the footer.
   */
  function DotFileOf(g: Graph, decorations: map<InputTask, Decoration>, today: Date,
                     fmt: DateFormat, wrap: string -> string): Result<string, Exc>
    requires WellFormed(g)
  {
    match FirstUndecorated(g.nodes, decorations, 0)
    case Some(k) => Err(MissingKey(g.nodes[k].name))
    case None => Ok(DotText(g, decorations, today, fmt, wrap))
  }

  /** The text of a fully decorated graph: header, joined node statements, edges, footer. */
  function DotText(g: Graph, decorations: map<InputTask, Decoration>, today: Date,
                   fmt: DateFormat, wrap: string -> string): string
    requires WellFormed(g)
    requires forall i :: 0 <= i < |g.nodes| ==> g.nodes[i] in decorations
  {
    Header + Join("\n", NodeStatements(g, decorations, today, fmt, wrap)) + Concat(EdgeStatements(g)) + Footer
  }

  /**
   * The file fails exactly when some node has no decoration equal to it in every field,
   * naming the first such node.
   */
  lemma DotFileFails(g: Graph, decorations: map<InputTask, Decoration>, today: Date,
                     fmt: DateFormat, wrap: string -> string, k: nat)
    requires WellFormed(g) && k < |g.nodes| && g.nodes[k] !in decorations
    requires forall i :: 0 <= i < k ==> g.nodes[i] in decorations
    ensures DotFileOf(g, decorations, today, fmt, wrap) == Err(MissingKey(g.nodes[k].name))
  {
    var r := FirstUndecorated(g.nodes, decorations, 0);
    assert r.Some? && r.value == k by {
      if r.None? {
        assert false;
      } else if r.value < k {
        assert false;
      } else if r.value > k {
        assert false;
      }
    }
  }

  /** `f` begins with `a` and ends with `c`. */
  predicate FramedBy(f: string, a: string, c: string) {
    |a| + |c| <= |f| && f[..|a|] == a && f[|f| - |c|..] == c
  }

  /** A text built of parts keeps its first and last parts at its two ends. */
  lemma Framed(a: string, b: string, c: string, d: string)
    ensures FramedBy(a + b + c + d, a, d)
  {
    assert a + b + c + d == a + (b + c + d);
  }

  /** A successful file is framed by the graph header and the closing-brace line. */
  lemma DotFileFrame(g: Graph, decorations: map<InputTask, Decoration>, today: Date,
                     fmt: DateFormat, wrap: string -> string)
    requires WellFormed(g)
    requires DotFileOf(g, decorations, today, fmt, wrap).Ok?
    ensures FramedBy(DotFileOf(g, decorations, today, fmt, wrap).value, Header, Footer)
  {
    assert FirstUndecorated(g.nodes, decorations, 0).None?;
    assert DotFileOf(g, decorations, today, fmt, wrap).value == DotText(g, decorations, today, fmt, wrap);
    DotTextFrame(g, decorations, today, fmt, wrap);
  }

  lemma DotTextFrame(g: Graph, decorations: map<InputTask, Decoration>, today: Date,
                     fmt: DateFormat, wrap: string -> string)
    requires WellFormed(g)
    requires forall i :: 0 <= i < |g.nodes| ==> g.nodes[i] in decorations
    ensures FramedBy(DotText(g, decorations, today, fmt, wrap), Header, Footer)
  {
    Framed(Header, Join("\n", NodeStatements(g, decorations, today, fmt, wrap)), Concat(EdgeStatements(g)), Footer);
  }

  /** Appends `parts` to `prefix` one at a time, as the edge loop appends its statements. */
  method AppendAll(prefix: string, parts: seq<string>) returns (dot: string)
    ensures dot == prefix + Concat(parts)
  {
    dot := prefix;
    for j := 0 to |parts|
      invariant dot == prefix + Concat(parts[..j])
    {
      ConcatAppend(parts[..j], parts[j]);
      assert parts[..j + 1] == parts[..j] + [parts[j]];
      dot := dot + parts[j];
    }
    assert parts[..|parts|] == parts;
  }

  /** `generate_dot_file`: the header, the joined node statements, the edges, the closing brace. */
  method GenerateDotFile(g: Graph, decorations: map<InputTask, Decoration>, today: Date,
                         fmt: DateFormat, wrap: string -> string)
    returns (r: Result<string, Exc>)
    requires WellFormed(g)
    ensures r == DotFileOf(g, decorations, today, fmt, wrap)
  {
    var missing := FirstUndecorated(g.nodes, decorations, 0);
    if missing.Some? {
      return Err(MissingKey(g.nodes[missing.value].name));
    }
    var dot := Header;
    dot := dot + Join("\n", NodeStatements(g, decorations, today, fmt, wrap));
    dot := AppendAll(dot, EdgeStatements(g));
    dot := dot + Footer;
    assert dot == DotText(g, decorations, today, fmt, wrap);
    r := Ok(dot);
  }
}
