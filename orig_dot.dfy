/**
 * backend/dot.py `generate_dot_file`: the Graphviz text for the parsed rows. Every row
 * becomes one HTML-table node named after its Task (blanks turned into '_'), followed by
 * one black edge per entry of its `next`. Text wrapping and HTML escaping of the
 * description are a parameter `wrap`.
 */
module OrigDot {
  import opened Wrappers
  import opened Text
  import opened Exceptions
  import opened OrigTypes
  import opened OrigGraph

  /** The three opening lines: the graph, left-to-right ranks, plain-text nodes. */
  const Header: string := "digraph Items {\n" + "rankdir=LR;\n" + "node [shape=plaintext];\n"
  const Footer: string := "}\n"

  /** `'<br/>'.join(textwrap.wrap(html.escape(s), width=70))`. */
  type Wrap = string -> string

  /** The text of a generated file, or the exception that stopped it. */
  datatype Dot = Dot(text: string) | DotError(error: Exc)

  /** `name.replace(' ', '_')`: same length, no blank left, every other character kept. */
  function NodeName(name: string): (r: string)
    ensures |r| == |name|
    ensures ' ' !in r
    ensures forall i :: 0 <= i < |name| && name[i] != ' ' ==> r[i] == name[i]
  {
    ReplaceChar(name, ' ', '_')
  }

  /** The description cell of a blocked row is red, of any other row lightblue. */
  function DescriptionColor(item: Row): (r: string)
    ensures r == "red" <==> "Status" in item && item["Status"] == Str("blocked")
    ensures r != "red" ==> r == "lightblue"
  {
    if "Status" in item && item["Status"] == Str("blocked") then "red" else "lightblue"
  }

  /** `item.get(key, '')` as text: a missing key gives the empty string. */
  function TextOr(item: Row, key: string): (r: string)
    ensures key !in item ==> r == ""
    ensures key in item ==> r == Show(item[key])
  {
    if key in item then Show(item[key]) else ""
  }

  /** What `for next_item in item.get('next', [])` visits. */
  function Targets(item: Row): seq<string> {
    if "next" in item then Elements(item["next"]) else []
  }

  function NodeStatement(node: string, title: string, start: string, end: string, assignee: string,
                         color: string, description: string, estimate: string, status: string): string {
    "\"" + node + "\" [label=<<table border='1' cellborder='1'><tr><td colspan='2'>" + title
    + "</td></tr><tr><td bgcolor='lightgreen'>" + start + "</td><td bgcolor='lightyellow'>" + end
    + "</td></tr><tr><td colspan='2'>" + assignee + "</td></tr><tr><td colspan='2' bgcolor='" + color + "'>"
    + description + "</td></tr><tr><td>Estimate: " + estimate + "</td><td>Status: " + status
    + "</td></tr></table>>];\n"
  }

  function EdgeStatement(from: string, to: string): string {
    "\"" + from + "\" -> \"" + to + "\" [color=black];\n"
  }

  /**
   * The node statement of one row. The description is read first (missing: KeyError; a
   * list has no `replace` for `html.escape`), then the two dates and the assignee.
   */
  function NodeOf(item: Row, wrap: Wrap): Dot
    requires "Task" in item && item["Task"].Str?
  {
    if "Description" !in item then DotError(MissingKey("Description"))
    else if item["Description"].List? then DotError(AttributeError("replace"))
    else if "StartDate" !in item then DotError(MissingKey("StartDate"))
    else if "EndDate" !in item then DotError(MissingKey("EndDate"))
    else if "Assignee" !in item then DotError(MissingKey("Assignee"))
    else Dot(NodeText(item, wrap))
  }

  /** The node statement of a row that has every cell it reads. */
  function NodeText(item: Row, wrap: Wrap): string
    requires "Task" in item && item["Task"].Str?
    requires "Description" in item && item["Description"].Str?
    requires "StartDate" in item && "EndDate" in item && "Assignee" in item
  {
    var title := item["Task"].s;
    NodeStatement(NodeName(title), title, Show(item["StartDate"]), Show(item["EndDate"]), Show(item["Assignee"]),
      DescriptionColor(item), wrap(item["Description"].s), TextOr(item, "estimate"), TextOr(item, "Status"))
  }

  /** One edge statement from `from` to each target, blanks replaced. */
  function EdgeSeq(from: string, targets: seq<string>): (r: seq<string>)
    ensures |r| == |targets|
    ensures forall j :: 0 <= j < |r| ==> r[j] == EdgeStatement(from, NodeName(targets[j]))
  {
    seq(|targets|, j requires 0 <= j < |targets| => EdgeStatement(from, NodeName(targets[j])))
  }

  /** The edge statements of one row, one per target. */
  function EdgesOf(item: Row): seq<string>
    requires "Task" in item && item["Task"].Str?
  {
    EdgeSeq(NodeName(item["Task"].s), Targets(item))
  }

  /** A row whose node statement cannot be built. */
  predicate Faulty(item: Row) {
    "Description" !in item || item["Description"].List?
    || "StartDate" !in item || "EndDate" !in item || "Assignee" !in item
  }

  /** One pass of the row loop: the node statement followed by the row's edge statements, or the node's error. */
  function BlockOf(item: Row, wrap: Wrap): Dot
    requires "Task" in item && item["Task"].Str?
  {
    var node := NodeOf(item, wrap);
    if node.DotError? then node else Dot(node.text + Concat(EdgesOf(item)))
  }

  /** A row's pass fails exactly when one of the cells its node reads is missing or unusable, with the node's error. */
  lemma BlockFails(item: Row, wrap: Wrap)
    requires "Task" in item && item["Task"].Str?
    ensures BlockOf(item, wrap).DotError? <==> Faulty(item)
    ensures BlockOf(item, wrap).DotError? ==> BlockOf(item, wrap) == NodeOf(item, wrap)
    ensures !Faulty(item) ==> BlockOf(item, wrap) == Dot(NodeText(item, wrap) + Concat(EdgesOf(item)))
  {
  }

  predicate Named(data: seq<Row>) {
    forall i :: 0 <= i < |data| ==> NameOf(data[i]).Ok?
  }

  /** The pass (or error) of every row. */
  function Blocks(data: seq<Row>, wrap: Wrap): (r: seq<Dot>)
    requires Named(data)
    ensures |r| == |data|
    ensures forall i {:trigger BlockOf(data[i], wrap)} :: 0 <= i < |data| ==> r[i] == BlockOf(data[i], wrap)
  {
    seq(|data|, i requires 0 <= i < |data| && Named(data) => BlockOf(data[i], wrap))
  }

  /** The text after the first `n` passes; the first failing pass stops it with its error. */
  function Body(blocks: seq<Dot>, n: nat): Dot
    requires n <= |blocks|
  {
    if n == 0 then Dot("")
    else
      var prev := Body(blocks, n - 1);
      if prev.DotError? then prev
      else if blocks[n - 1].DotError? then blocks[n - 1]
      else Dot(prev.text + blocks[n - 1].text)
  }

  /** The whole file: line 11 raises first for a row without a hashable Task. */
  function DotFileOf(data: seq<Row>, wrap: Wrap): Dot {
    var d := TaskDictOf(data);
    if d.Err? then DotError(d.error)
    else
      var b := Body(Blocks(data, wrap), |data|);
      if b.DotError? then b else Dot(Header + b.text + Footer)
  }

  /** Every row has a string Task and the five cells its node reads. */
  predicate Complete(data: seq<Row>) {
    Named(data) && forall i :: 0 <= i < |data| ==> !Faulty(data[i])
  }

  /** The statements of one complete row: its node, then one edge per target. */
  function RowStatements(item: Row, wrap: Wrap): (r: seq<string>)
    requires "Task" in item && item["Task"].Str? && !Faulty(item)
    ensures |r| == 1 + |Targets(item)|
  {
    [NodeText(item, wrap)] + EdgesOf(item)
  }

  /** The statements of every row of a complete list. */
  function Parts(data: seq<Row>, wrap: Wrap): (r: seq<seq<string>>)
    requires Complete(data)
    ensures |r| == |data|
    ensures forall i {:trigger RowStatements(data[i], wrap)} :: 0 <= i < |data| ==> r[i] == RowStatements(data[i], wrap)
  {
    seq(|data|, i requires 0 <= i < |data| && Complete(data) => RowStatements(data[i], wrap))
  }

  /** The statement lists of the first `n` rows, one after another. */
  function Flatten(parts: seq<seq<string>>, n: nat): seq<string>
    requires n <= |parts|
  {
    if n == 0 then [] else Flatten(parts, n - 1) + parts[n - 1]
  }

  function TargetCount(data: seq<Row>, n: nat): nat
    requires n <= |data|
  {
    if n == 0 then 0 else TargetCount(data, n - 1) + |Targets(data[n - 1])|
  }

  /** The body fails at the first failing pass, with that pass's error. */
  lemma {:induction false} BodyFails(blocks: seq<Dot>, n: nat)
    requires n <= |blocks|
    ensures Body(blocks, n).Dot? <==> forall i :: 0 <= i < n ==> blocks[i].Dot?
    ensures Body(blocks, n).DotError? ==>
      exists i :: 0 <= i < n && Body(blocks, n) == blocks[i] && forall j :: 0 <= j < i ==> blocks[j].Dot?
  {
    if n > 0 {
      BodyFails(blocks, n - 1);
    }
  }

  lemma {:induction false} BodyFailureStays(blocks: seq<Dot>, k: nat, m: nat)
    requires k <= m <= |blocks| && Body(blocks, k).DotError?
    ensures Body(blocks, m) == Body(blocks, k)
    decreases m
  {
    if m > k {
      BodyFailureStays(blocks, k, m - 1);
    }
  }

  /** A body whose every pass succeeded with the text of a statement list is the concatenation of those lists. */
  lemma {:induction false} BodyConcat(blocks: seq<Dot>, parts: seq<seq<string>>, n: nat)
    requires n <= |blocks| == |parts|
    requires forall i :: 0 <= i < n ==> blocks[i] == Dot(Concat(parts[i]))
    ensures Body(blocks, n) == Dot(Concat(Flatten(parts, n)))
  {
    if n > 0 {
      BodyConcat(blocks, parts, n - 1);
      ConcatSplit(Flatten(parts, n - 1), parts[n - 1]);
    }
  }

  lemma {:induction false} FlattenCount(data: seq<Row>, parts: seq<seq<string>>, n: nat)
    requires n <= |data| == |parts|
    requires forall i :: 0 <= i < n ==> |parts[i]| == 1 + |Targets(data[i])|
    ensures |Flatten(parts, n)| == n + TargetCount(data, n)
  {
    if n > 0 {
      FlattenCount(data, parts, n - 1);
    }
  }

  /** A row's pass is the concatenation of its statements. */
  lemma BlockIsStatements(item: Row, wrap: Wrap)
    requires "Task" in item && item["Task"].Str? && !Faulty(item)
    ensures BlockOf(item, wrap) == Dot(Concat(RowStatements(item, wrap)))
  {
    var node := NodeText(item, wrap);
    BlockFails(item, wrap);
    ConcatSplit([node], EdgesOf(item));
    assert Concat([node]) == node + Concat([node][1..]);
  }

  /**
   * A completed body is the concatenation of one node statement per row, in row order,
   * each followed by that row's edge statements: one node per row and one edge per target.
   */
  lemma BodyIsStatements(data: seq<Row>, wrap: Wrap)
    requires Complete(data)
    ensures Body(Blocks(data, wrap), |data|) == Dot(Concat(Flatten(Parts(data, wrap), |data|)))
    ensures |Flatten(Parts(data, wrap), |data|)| == |data| + TargetCount(data, |data|)
  {
    var blocks, parts := Blocks(data, wrap), Parts(data, wrap);
    forall i | 0 <= i < |data|
      ensures blocks[i] == Dot(Concat(parts[i])) && |parts[i]| == 1 + |Targets(data[i])|
    {
      assert blocks[i] == BlockOf(data[i], wrap);
      assert parts[i] == RowStatements(data[i], wrap);
      BlockIsStatements(data[i], wrap);
    }
    BodyConcat(blocks, parts, |data|);
    FlattenCount(data, parts, |data|);
  }

  /** The file is produced iff every row has a string Task and the five cells its node reads. */
  lemma DotFileSucceeds(data: seq<Row>, wrap: Wrap)
    ensures DotFileOf(data, wrap).Dot? <==> Named(data) && forall i :: 0 <= i < |data| ==> !Faulty(data[i])
    ensures DotFileOf(data, wrap).DotError? && Named(data) ==>
      exists i :: 0 <= i < |data| && Faulty(data[i]) && DotFileOf(data, wrap) == NodeOf(data[i], wrap)
  {
    if Named(data) {
      var blocks := Blocks(data, wrap);
      BodyFails(blocks, |data|);
      forall i | 0 <= i < |data|
        ensures blocks[i].DotError? <==> Faulty(data[i])
        ensures blocks[i].DotError? ==> blocks[i] == NodeOf(data[i], wrap)
      {
        assert blocks[i] == BlockOf(data[i], wrap);
        BlockFails(data[i], wrap);
      }
    }
  }

  /**
   * A produced file opens with the three header lines and closes with the brace line;
   * between them lie exactly one node statement per row and one edge per target.
   */
  lemma DotFileShape(data: seq<Row>, wrap: Wrap)
    requires DotFileOf(data, wrap).Dot?
    ensures Complete(data)
    ensures DotFileOf(data, wrap).text == Header + Concat(Flatten(Parts(data, wrap), |data|)) + Footer
    ensures |Flatten(Parts(data, wrap), |data|)| == |data| + TargetCount(data, |data|)
  {
    DotFileSucceeds(data, wrap);
    BodyIsStatements(data, wrap);
  }

  /** The inner loop of lines 34-36. */
  method AppendEdges(prefix: string, from: string, targets: seq<string>) returns (dot: string)
    ensures dot == prefix + Concat(EdgeSeq(from, targets))
  {
    dot := prefix;
    ghost var edges := EdgeSeq(from, targets);
    for j := 0 to |targets|
      invariant dot == prefix + Concat(edges[..j])
    {
      var nextNodeName := NodeName(targets[j]);
      ConcatAppend(edges[..j], EdgeStatement(from, nextNodeName));
      assert edges[..j + 1] == edges[..j] + [EdgeStatement(from, nextNodeName)];
      dot := dot + EdgeStatement(from, nextNodeName);
    }
    assert edges[..|targets|] == edges;
  }

  /** One pass of the row loop (lines 27-36): the node statement, then one edge per target. */
  method RowBlock(item: Row, wrap: Wrap) returns (r: Dot)
    requires "Task" in item && item["Task"].Str?
    ensures r == BlockOf(item, wrap)
  {
    var nodeName := NodeName(item["Task"].s);
    var title := item["Task"].s;
    var descriptionColor := DescriptionColor(item);
    if "Description" !in item {
      return DotError(MissingKey("Description"));
    }
    if item["Description"].List? {
      return DotError(AttributeError("replace"));
    }
    var wrappedDescription := wrap(item["Description"].s);
    var estimate := TextOr(item, "estimate");
    var status := TextOr(item, "Status");
    if "StartDate" !in item {
      return DotError(MissingKey("StartDate"));
    }
    if "EndDate" !in item {
      return DotError(MissingKey("EndDate"));
    }
    if "Assignee" !in item {
      return DotError(MissingKey("Assignee"));
    }
    var text := NodeStatement(nodeName, title, Show(item["StartDate"]), Show(item["EndDate"]), Show(item["Assignee"]),
      descriptionColor, wrappedDescription, estimate, status);
    text := AppendEdges(text, nodeName, Targets(item));
    return Dot(text);
  }

  /** The row loop of lines 25-36, appending each row's pass to `prefix`; `blocks` are those passes. */
  method AppendRows(prefix: string, data: seq<Row>, wrap: Wrap, ghost blocks: seq<Dot>) returns (r: Dot)
    requires Named(data) && |blocks| == |data|
    requires forall i {:trigger BlockOf(data[i], wrap)} :: 0 <= i < |data| ==> blocks[i] == BlockOf(data[i], wrap)
    ensures r.DotError? ==> r == Body(blocks, |data|)
    ensures r.Dot? ==> Body(blocks, |data|).Dot? && r.text == prefix + Body(blocks, |data|).text
  {
    var dot := prefix;
    assert dot + Body(blocks, 0).text == dot;
    for k := 0 to |data|
      invariant Body(blocks, k).Dot? && dot == prefix + Body(blocks, k).text
    {
      var next := AppendRow(prefix, data, wrap, blocks, k, dot);
      if next.DotError? {
        BodyFailureStays(blocks, k + 1, |data|);
        return next;
      }
      dot := next.text;
    }
    return Dot(dot);
  }

  /** One iteration of the row loop: row `k`'s pass appended to `dot`, or its error. */
  method AppendRow(prefix: string, data: seq<Row>, wrap: Wrap, ghost blocks: seq<Dot>, k: nat, dot: string)
    returns (r: Dot)
    requires Named(data) && |blocks| == |data| && k < |data|
    requires forall i {:trigger BlockOf(data[i], wrap)} :: 0 <= i < |data| ==> blocks[i] == BlockOf(data[i], wrap)
    requires Body(blocks, k).Dot? && dot == prefix + Body(blocks, k).text
    ensures r.DotError? ==> r == Body(blocks, k + 1)
    ensures r.Dot? ==> Body(blocks, k + 1).Dot? && r.text == prefix + Body(blocks, k + 1).text
  {
    var block := RowBlock(data[k], wrap);
    assert block == blocks[k];
    if block.DotError? {
      return block;
    }
    AppendAssoc(prefix, Body(blocks, k).text, block.text);
    return Dot(dot + block.text);
  }

  /** `generate_dot_file`: the header lines, then per row its node and edge statements, then the closing brace. */
  method GenerateDotFile(data: seq<Row>, wrap: Wrap) returns (r: Dot)
    ensures r == DotFileOf(data, wrap)
  {
    var itemDict := TaskDictOf(data);
    if itemDict.Err? {
      return DotError(itemDict.error);
    }
    var dot := Header;
    r := AppendRows(dot, data, wrap, Blocks(data, wrap));
    if r.Dot? {
      r := Dot(r.text + Footer);
    }
  }

  lemma AppendAssoc(a: string, b: string, c: string)
    ensures a + b + c == a + (b + c)
  {
  }
}
