/**
 * The handler logic of the rewritten backend's web app, without the web framework: the
 * descendant lookup and the selection it remembers, the copy-text plan export, clearing the
 * last selection, the offset-retry loop around scheduling, and the shape of the error reply.
 * One user's entries of the app's per-user dictionaries form a `Session`.
 */
module RwApp {
  import opened Wrappers
  import opened Text
  import opened Exceptions
  import opened Dates
  import opened RwTypes
  import opened RwGraph
  import opened RwScheduler
  import opened RwDot

  // ---------------------------------------------------------------------------------------
  // Descendants

  /** A chain of two or more node names, each joined to the next by an edge. */
  ghost predicate IsPath(g: Graph, p: seq<string>) {
    |p| >= 2 && forall k :: 0 <= k < |p| - 1 ==> HasEdge(g.edges, p[k], p[k + 1])
  }

  /** `v` is a descendant of `u` (as `nx.descendants` reports): reachable from `u`, not `u`. */
  ghost predicate Descendant(g: Graph, u: string, v: string) {
    u != v && exists p :: IsPath(g, p) && p[0] == u && p[|p| - 1] == v
  }

  /** `reach` lists every descendant of `u` exactly once, in some order. */
  ghost predicate ListsDescendants(g: Graph, u: string, reach: seq<string>) {
    (forall i, j :: 0 <= i < j < |reach| ==> reach[i] != reach[j]) &&
    (forall v :: v in reach <==> Descendant(g, u, v))
  }

  /** No two nodes share a dense id. */
  predicate UniqueIds(g: Graph)
    requires WellFormed(g)
  {
    forall i, j :: 0 <= i < j < |g.nodes| ==>
      g.nodes[i].schedulerFields.value.id != g.nodes[j].schedulerFields.value.id
  }

  /** Every name in `reach` is a node of `g`. */
  predicate NamesNodes(g: Graph, reach: seq<string>) {
    forall i :: 0 <= i < |reach| ==> NodeIndex(g.nodes, reach[i], 0).Some?
  }

  /** The position of the first node of `nodes[from..]` whose dense id is `id`. */
  function NodeWithId(nodes: seq<InputTask>, id: int, from: nat): (r: Option<nat>)
    requires from <= |nodes|
    requires forall i :: 0 <= i < |nodes| ==> nodes[i].schedulerFields.Some?
    ensures r.Some? ==> from <= r.value < |nodes| && nodes[r.value].schedulerFields.value.id == id
    ensures r.None? ==> forall i :: from <= i < |nodes| ==> nodes[i].schedulerFields.value.id != id
    decreases |nodes| - from
  {
    if from == |nodes| then None
    else if nodes[from].schedulerFields.value.id == id then Some(from)
    else NodeWithId(nodes, id, from + 1)
  }

  /** The scan for the target node, stopping at the first match. */
  method FindNode(nodes: seq<InputTask>, id: int) returns (k: Option<nat>)
    requires forall i :: 0 <= i < |nodes| ==> nodes[i].schedulerFields.Some?
    ensures k == NodeWithId(nodes, id, 0)
  {
    var i := 0;
    while i < |nodes|
      invariant i <= |nodes|
      invariant NodeWithId(nodes, id, i) == NodeWithId(nodes, id, 0)
    {
      if nodes[i].schedulerFields.value.id == id {
        return Some(i);
      }
      i := i + 1;
    }
    return None;
  }

  /** The dense ids of the named nodes, in the order given. */
  function IdsOf(g: Graph, reach: seq<string>): (r: seq<int>)
    requires WellFormed(g) && NamesNodes(g, reach)
    ensures |r| == |reach|
  {
    seq(|reach|, i requires 0 <= i < |reach| => IdOf(g, reach[i]))
  }

  datatype DescendantsReply = DescendantsReply(descendants: seq<int>, status: int)

  const NotFound := DescendantsReply([], 404)

  /**
   * `get_descendants` for the text `node`, given the user's stored graph and the names that
   * `nx.descendants` reports for the target: the reply, and the list to remember as the
   * user's last selection when there is one.
   */
  function DescendantsOf(g: Option<Graph>, node: string, reach: seq<string>)
    : (r: (DescendantsReply, Option<seq<int>>))
    requires g.Some? ==> WellFormed(g.value) && NamesNodes(g.value, reach)
    ensures r.0.status == 404 <==>
      !IsDigits(node) || g.None? || NodeWithId(g.value.nodes, DigitsValue(node), 0).None?
    ensures r.0.status == 404 ==> r == (NotFound, None)
    ensures r.0.status != 404 ==> (r.0.status == 200 && r.1 == Some(r.0.descendants) &&
      r.0.descendants == [DigitsValue(node)] + IdsOf(g.value, reach))
  {
    if !IsDigits(node) then (NotFound, None)
    else if g.None? then (NotFound, None)
    else if NodeWithId(g.value.nodes, DigitsValue(node), 0).None? then (NotFound, None)
    else
      var ids := [DigitsValue(node)] + IdsOf(g.value, reach);
      (DescendantsReply(ids, 200), Some(ids))
  }

  /** Different names of a graph's nodes lead to different positions. */
  lemma NodeIndexDistinct(nodes: seq<InputTask>, a: string, b: string)
    requires a != b && NodeIndex(nodes, a, 0).Some? && NodeIndex(nodes, b, 0).Some?
    ensures NodeIndex(nodes, a, 0).value != NodeIndex(nodes, b, 0).value
  {
  }

  /** The reply lists no id twice: the target is not its own descendant and names are distinct. */
  lemma DescendantsDistinct(g: Graph, node: string, reach: seq<string>)
    requires WellFormed(g) && UniqueIds(g) && IsDigits(node)
    requires NodeWithId(g.nodes, DigitsValue(node), 0).Some?
    requires ListsDescendants(g, g.nodes[NodeWithId(g.nodes, DigitsValue(node), 0).value].name, reach)
    requires NamesNodes(g, reach)
    ensures Distinct(DescendantsOf(Some(g), node, reach).0.descendants)
  {
    var t := NodeWithId(g.nodes, DigitsValue(node), 0).value;
    var ids := DescendantsOf(Some(g), node, reach).0.descendants;
    assert ids == [DigitsValue(node)] + IdsOf(g, reach);
    forall a, b | 0 <= a < b < |ids| ensures ids[a] != ids[b] {
      var pb := NodeIndex(g.nodes, reach[b - 1], 0).value;
      if a == 0 {
        assert reach[b - 1] in reach;
        assert g.nodes[pb].name != g.nodes[t].name;
      } else {
        NodeIndexDistinct(g.nodes, reach[a - 1], reach[b - 1]);
      }
    }
  }

  /**
   * On success the reply is the target's id followed by the ids of its descendants: a node's id
   * appears after the first place exactly when the node descends from the target.
   */
  lemma DescendantsListed(g: Graph, node: string, reach: seq<string>)
    requires WellFormed(g) && UniqueIds(g) && DistinctNames(g.nodes) && IsDigits(node)
    requires NodeWithId(g.nodes, DigitsValue(node), 0).Some?
    requires ListsDescendants(g, g.nodes[NodeWithId(g.nodes, DigitsValue(node), 0).value].name, reach)
    requires NamesNodes(g, reach)
    ensures DescendantsOf(Some(g), node, reach).0.status == 200
    ensures forall i :: 0 <= i < |g.nodes| ==>
      (g.nodes[i].schedulerFields.value.id in DescendantsOf(Some(g), node, reach).0.descendants[1..] <==>
       Descendant(g, g.nodes[NodeWithId(g.nodes, DigitsValue(node), 0).value].name, g.nodes[i].name))
  {
    var t := NodeWithId(g.nodes, DigitsValue(node), 0).value;
    var ids := DescendantsOf(Some(g), node, reach).0.descendants;
    assert ids[1..] == IdsOf(g, reach);
    forall i | 0 <= i < |g.nodes|
      ensures g.nodes[i].schedulerFields.value.id in ids[1..] <==> Descendant(g, g.nodes[t].name, g.nodes[i].name)
    {
      DescendantAt(g, reach, g.nodes[t].name, i);
    }
  }

  /** One node's id is among the listed ids exactly when the node is listed. */
  lemma DescendantAt(g: Graph, reach: seq<string>, u: string, i: nat)
    requires WellFormed(g) && UniqueIds(g) && DistinctNames(g.nodes) && i < |g.nodes|
    requires ListsDescendants(g, u, reach) && NamesNodes(g, reach)
    ensures g.nodes[i].schedulerFields.value.id in IdsOf(g, reach) <==> Descendant(g, u, g.nodes[i].name)
  {
    var ids := IdsOf(g, reach);
    var id := g.nodes[i].schedulerFields.value.id;
    if id in ids {
      var k :| 0 <= k < |reach| && ids[k] == id;
      assert NodeIndex(g.nodes, reach[k], 0).value == i;
      assert reach[k] in reach;
    }
    if Descendant(g, u, g.nodes[i].name) {
      var name := g.nodes[i].name;
      assert name in reach;
      var k :| 0 <= k < |reach| && reach[k] == name;
      assert NodeIndex(g.nodes, name, 0).value == i;
      assert ids[k] == id;
    }
  }

  // ---------------------------------------------------------------------------------------
  // The copy-text plan

  /** One plan line's fields: start, end and the comma-joined assignees. */
  datatype PlanRow = PlanRow(start: string, end: string, assignees: string)

  /** A task's line; absent dates print as empty text. */
  function RowOf(t: InputTask, fmt: DateFormat): PlanRow {
    PlanRow(if t.startDate.Some? then fmt(t.startDate.value) else "",
            if t.endDate.Some? then fmt(t.endDate.value) else "",
            Join(",", t.assignees))
  }

  /** The name-to-row map after the first `n` nodes: later nodes overwrite earlier ones. */
  function RowIndices(nodes: seq<InputTask>, n: nat): (r: map<string, int>)
    requires n <= |nodes|
    ensures forall i :: 0 <= i < n ==> nodes[i].name in r
  {
    if n == 0 then map[] else RowIndices(nodes, n - 1)[nodes[n - 1].name := nodes[n - 1].inputRowIdx]
  }

  /** With distinct names each node's entry is its own row index. */
  lemma {:induction false} RowIndicesOwn(nodes: seq<InputTask>, n: nat, i: nat)
    requires DistinctNames(nodes) && i < n <= |nodes|
    ensures RowIndices(nodes, n)[nodes[i].name] == nodes[i].inputRowIdx
  {
    if i < n - 1 {
      RowIndicesOwn(nodes, n - 1, i);
    }
  }

  /** `max` of the first `n` row indices. */
  function MaxRowIdx(nodes: seq<InputTask>, n: nat): (r: int)
    requires 0 < n <= |nodes|
    ensures forall i :: 0 <= i < n ==> nodes[i].inputRowIdx <= r
    ensures exists i :: 0 <= i < n && nodes[i].inputRowIdx == r
  {
    if n == 1 then nodes[0].inputRowIdx
    else
      var m := MaxRowIdx(nodes, n - 1);
      if nodes[n - 1].inputRowIdx > m then nodes[n - 1].inputRowIdx else m
  }

  /** `len([None] * k)`: a non-positive count gives the empty list. */
  function Repeated(k: int): nat {
    if k > 0 then k else 0
  }

  /** Python indexing of a list of length `len`: negative indices count from the end. */
  function PyIndex(len: nat, i: int): (r: Option<nat>)
    ensures r.Some? ==> r.value < len
    ensures 0 <= i < len ==> r == Some(i)
  {
    if 0 <= i < len then Some(i)
    else if -(len as int) <= i < 0 then Some(len + i)
    else None
  }

  /** The list after the fill loop has stored the first `n` nodes' rows. */
  function Fill(nodes: seq<InputTask>, idx: map<string, int>, fmt: DateFormat,
                base: seq<Option<PlanRow>>, n: nat): (r: Result<seq<Option<PlanRow>>, Exc>)
    requires n <= |nodes|
    requires forall i :: 0 <= i < |nodes| ==> nodes[i].name in idx
    ensures r.Ok? ==> |r.value| == |base|
  {
    if n == 0 then Ok(base)
    else
      match Fill(nodes, idx, fmt, base, n - 1)
      case Err(e) => Err(e)
      case Ok(res) =>
        match PyIndex(|res|, idx[nodes[n - 1].name])
        case None => Err(IndexError)
        case Some(p) => Ok(res[p := Some(RowOf(nodes[n - 1], fmt))])
  }

  function Blank(len: nat): (r: seq<Option<PlanRow>>)
    ensures |r| == len && forall k :: 0 <= k < len ==> r[k].None?
  {
    seq(len, _ => None)
  }

  /** `build_plan`: the line of every task at twice-spaced room, or `max`'s error on no tasks. */
  function PlanOf(nodes: seq<InputTask>, fmt: DateFormat): Result<seq<Option<PlanRow>>, Exc> {
    if |nodes| == 0 then Err(EmptyMax)
    else Fill(nodes, RowIndices(nodes, |nodes|), fmt,
              Blank(Repeated(MaxRowIdx(nodes, |nodes|) * 2 + 1)), |nodes|)
  }

  /** Once a store fails the rest of the fill fails with the same error. */
  lemma {:induction false} FillFailureStays(nodes: seq<InputTask>, idx: map<string, int>, fmt: DateFormat,
      base: seq<Option<PlanRow>>, n: nat, m: nat)
    requires n <= m <= |nodes|
    requires forall i :: 0 <= i < |nodes| ==> nodes[i].name in idx
    requires Fill(nodes, idx, fmt, base, n).Err?
    ensures Fill(nodes, idx, fmt, base, m) == Fill(nodes, idx, fmt, base, n)
    decreases m - n
  {
    if n < m {
      FillFailureStays(nodes, idx, fmt, base, n, m - 1);
    }
  }

  /** The slot `k` after `n` stores: the row of the last of them aimed at `k`, else the base. */
  function SlotAt(nodes: seq<InputTask>, fmt: DateFormat, base: seq<Option<PlanRow>>, k: nat, n: nat)
    : Option<PlanRow>
    requires n <= |nodes| && k < |base|
  {
    if n == 0 then base[k]
    else if nodes[n - 1].inputRowIdx == k then Some(RowOf(nodes[n - 1], fmt))
    else SlotAt(nodes, fmt, base, k, n - 1)
  }

  /** Every row index in range: the fill never fails and each slot is given by `SlotAt`. */
  lemma {:induction false} FillSlots(nodes: seq<InputTask>, idx: map<string, int>, fmt: DateFormat,
      base: seq<Option<PlanRow>>, n: nat)
    requires n <= |nodes|
    requires forall i :: 0 <= i < |nodes| ==> (nodes[i].name in idx &&
      idx[nodes[i].name] == nodes[i].inputRowIdx && 0 <= nodes[i].inputRowIdx < |base|)
    ensures Fill(nodes, idx, fmt, base, n).Ok?
    ensures forall k :: 0 <= k < |base| ==>
      Fill(nodes, idx, fmt, base, n).value[k] == SlotAt(nodes, fmt, base, k, n)
  {
    if n > 0 {
      FillSlots(nodes, idx, fmt, base, n - 1);
    }
  }

  /** A blank slot stays blank exactly when no task aims at it. */
  lemma {:induction false} SlotAtBlank(nodes: seq<InputTask>, fmt: DateFormat, len: nat, k: nat, n: nat)
    requires n <= |nodes| && k < len
    ensures SlotAt(nodes, fmt, Blank(len), k, n).None? <==>
      forall i :: 0 <= i < n ==> nodes[i].inputRowIdx != k
  {
    if n > 0 {
      SlotAtBlank(nodes, fmt, len, k, n - 1);
    }
  }

  /** With distinct row indices, the slot a task aims at holds that task's row. */
  lemma {:induction false} SlotAtOwn(nodes: seq<InputTask>, fmt: DateFormat, base: seq<Option<PlanRow>>,
      n: nat, i: nat)
    requires i < n <= |nodes| && 0 <= nodes[i].inputRowIdx < |base|
    requires forall a, b :: 0 <= a < b < |nodes| ==> nodes[a].inputRowIdx != nodes[b].inputRowIdx
    ensures SlotAt(nodes, fmt, base, nodes[i].inputRowIdx, n) == Some(RowOf(nodes[i], fmt))
  {
    if i < n - 1 {
      SlotAtOwn(nodes, fmt, base, n - 1, i);
    }
  }

  /**
   * For tasks with distinct names and distinct non-negative row indices, the plan has
   * `2 * max + 1` slots, each task's line sits at its row index, and every other slot is empty.
   */
  lemma PlanPlacesTasks(nodes: seq<InputTask>, fmt: DateFormat)
    requires |nodes| > 0 && DistinctNames(nodes)
    requires forall i :: 0 <= i < |nodes| ==> nodes[i].inputRowIdx >= 0
    requires forall a, b :: 0 <= a < b < |nodes| ==> nodes[a].inputRowIdx != nodes[b].inputRowIdx
    ensures PlanOf(nodes, fmt).Ok?
    ensures |PlanOf(nodes, fmt).value| == MaxRowIdx(nodes, |nodes|) * 2 + 1
    ensures forall i :: 0 <= i < |nodes| ==>
      PlanOf(nodes, fmt).value[nodes[i].inputRowIdx] == Some(RowOf(nodes[i], fmt))
    ensures forall k :: 0 <= k < |PlanOf(nodes, fmt).value| ==>
      (PlanOf(nodes, fmt).value[k].None? <==> forall i :: 0 <= i < |nodes| ==> nodes[i].inputRowIdx != k)
  {
    var idx := RowIndices(nodes, |nodes|);
    var len := Repeated(MaxRowIdx(nodes, |nodes|) * 2 + 1);
    forall i | 0 <= i < |nodes| ensures idx[nodes[i].name] == nodes[i].inputRowIdx {
      RowIndicesOwn(nodes, |nodes|, i);
    }
    FillSlots(nodes, idx, fmt, Blank(len), |nodes|);
    var plan := PlanOf(nodes, fmt).value;
    forall i | 0 <= i < |nodes| ensures plan[nodes[i].inputRowIdx] == Some(RowOf(nodes[i], fmt)) {
      SlotAtOwn(nodes, fmt, Blank(len), |nodes|, i);
    }
    forall k | 0 <= k < len
      ensures plan[k].None? <==> forall i :: 0 <= i < |nodes| ==> nodes[i].inputRowIdx != k
    {
      SlotAtBlank(nodes, fmt, len, k, |nodes|);
    }
  }

  /** The first loop of `build_plan`: the name-to-row map. */
  method CollectRowIndices(nodes: seq<InputTask>) returns (idx: map<string, int>)
    ensures idx == RowIndices(nodes, |nodes|)
  {
    idx := map[];
    for i := 0 to |nodes|
      invariant idx == RowIndices(nodes, i)
    {
      idx := idx[nodes[i].name := nodes[i].inputRowIdx];
    }
  }

  /** The second loop of `build_plan`: storing each task's line into the preallocated list. */
  method FillPlan(nodes: seq<InputTask>, idx: map<string, int>, fmt: DateFormat, result: array<Option<PlanRow>>)
    returns (ok: Outcome<Exc>)
    requires forall i :: 0 <= i < |nodes| ==> nodes[i].name in idx
    modifies result
    ensures ok.Pass? <==> Fill(nodes, idx, fmt, old(result[..]), |nodes|).Ok?
    ensures ok.Pass? ==> Fill(nodes, idx, fmt, old(result[..]), |nodes|) == Ok(result[..])
    ensures ok.Fail? ==> Fill(nodes, idx, fmt, old(result[..]), |nodes|) == Err(ok.error)
  {
    ghost var base := result[..];
    for i := 0 to |nodes|
      invariant Fill(nodes, idx, fmt, base, i) == Ok(result[..])
    {
      var p := PyIndex(result.Length, idx[nodes[i].name]);
      if p.None? {
        FillFailureStays(nodes, idx, fmt, base, i + 1, |nodes|);
        return Fail(IndexError);
      }
      result[p.value] := Some(RowOf(nodes[i], fmt));
    }
    return Pass;
  }

  /** `build_plan`. */
  method BuildPlan(nodes: seq<InputTask>, fmt: DateFormat) returns (r: Result<seq<Option<PlanRow>>, Exc>)
    ensures r == PlanOf(nodes, fmt)
  {
    var idx := CollectRowIndices(nodes);
    if |nodes| == 0 {
      return Err(EmptyMax);
    }
    var result := new Option<PlanRow>[Repeated(MaxRowIdx(nodes, |nodes|) * 2 + 1)](_ => None);
    assert result[..] == Blank(result.Length);
    var ok := FillPlan(nodes, idx, fmt, result);
    if ok.Fail? {
      return Err(ok.error);
    }
    r := Ok(result[..]);
  }

  /** A plan line of the copy text: the fields joined by tabs, or three tabs for no task. */
  function CopyLine(row: Option<PlanRow>): string {
    match row
    case None => "\t\t\t"
    case Some(p) => Join("\t", [p.start, p.end, p.assignees])
  }

  function CopyLines(plan: seq<Option<PlanRow>>): (r: seq<string>)
    ensures |r| == |plan|
  {
    seq(|plan|, i requires 0 <= i < |plan| => CopyLine(plan[i]))
  }

  /** The text `get-copy-text` returns: the plan lines joined by newlines. */
  function CopyTextOf(plan: seq<Option<PlanRow>>): string {
    Join("\n", CopyLines(plan))
  }

  /** A row whose fields hold no tab and no newline. */
  predicate PlainRow(row: Option<PlanRow>) {
    row.Some? ==>
      '\t' !in row.value.start && '\t' !in row.value.end && '\t' !in row.value.assignees &&
      '\n' !in row.value.start && '\n' !in row.value.end && '\n' !in row.value.assignees
  }

  /**
   * A task's line has two tabs but an empty slot's line has three, so an empty slot reads as
   * one more column than a task line.
   */
  lemma CopyLineTabs(row: Option<PlanRow>)
    requires PlainRow(row)
    ensures Count(CopyLine(row), '\t') == if row.Some? then 2 else 3
    ensures '\n' !in CopyLine(row)
  {
    if row.Some? {
      var p := row.value;
      assert [p.start, p.end, p.assignees][1..] == [p.end, p.assignees];
      assert [p.end, p.assignees][1..] == [p.assignees];
      assert Join("\t", [p.end, p.assignees]) == p.end + "\t" + p.assignees;
      assert CopyLine(row) == p.start + "\t" + (p.end + "\t" + p.assignees);
      CountAbsent(p.start, '\t');
      CountAbsent(p.end, '\t');
      CountAbsent(p.assignees, '\t');
      CountOne('\t');
      CountConcat(p.start + "\t", p.end + "\t" + p.assignees, '\t');
      CountConcat(p.start, "\t", '\t');
      CountConcat(p.end + "\t", p.assignees, '\t');
      CountConcat(p.end, "\t", '\t');
    } else {
      assert "\t\t\t" == "\t" + ("\t" + "\t");
      CountOne('\t');
      CountConcat("\t", "\t" + "\t", '\t');
      CountConcat("\t", "\t", '\t');
    }
  }

  /** Splitting the copy text at newlines gives back one line per plan slot. */
  lemma CopyTextLines(plan: seq<Option<PlanRow>>)
    requires |plan| > 0 && forall i :: 0 <= i < |plan| ==> PlainRow(plan[i])
    ensures Split(CopyTextOf(plan), '\n') == CopyLines(plan)
  {
    forall k | 0 <= k < |plan| ensures '\n' !in CopyLines(plan)[k] {
      CopyLineTabs(plan[k]);
    }
    SplitJoin(CopyLines(plan), '\n');
  }

  // ---------------------------------------------------------------------------------------
  // Clearing the last selection

  /** A task with its dates and assignees reset when its id was in the last selection. */
  function ClearedTask(t: InputTask, selected: set<int>): InputTask
    requires t.schedulerFields.Some?
  {
    if t.schedulerFields.value.id in selected then t.(startDate := None, endDate := None, assignees := [])
    else t
  }

  function ClearedNodes(nodes: seq<InputTask>, selected: set<int>): (r: seq<InputTask>)
    requires forall i :: 0 <= i < |nodes| ==> nodes[i].schedulerFields.Some?
    ensures |r| == |nodes|
  {
    seq(|nodes|, i requires 0 <= i < |nodes| => ClearedTask(nodes[i], selected))
  }

  /**
   * Clearing resets exactly the selected tasks' start, end and assignees; every other field and
   * every unselected task stays as it was.
   */
  lemma ClearResetsSelected(nodes: seq<InputTask>, selected: set<int>, i: nat)
    requires forall k :: 0 <= k < |nodes| ==> nodes[k].schedulerFields.Some?
    requires i < |nodes|
    ensures var c := ClearedNodes(nodes, selected)[i];
      c.name == nodes[i].name && c.schedulerFields == nodes[i].schedulerFields &&
      c.next == nodes[i].next && c.estimate == nodes[i].estimate && c.status == nodes[i].status
    ensures nodes[i].schedulerFields.value.id in selected ==>
      ClearedNodes(nodes, selected)[i].startDate.None? &&
      ClearedNodes(nodes, selected)[i].endDate.None? &&
      ClearedNodes(nodes, selected)[i].assignees == []
    ensures nodes[i].schedulerFields.value.id !in selected ==> ClearedNodes(nodes, selected)[i] == nodes[i]
  {
  }

  /** Clearing the same selection twice changes nothing more. */
  lemma ClearIdempotent(nodes: seq<InputTask>, selected: set<int>)
    requires forall k :: 0 <= k < |nodes| ==> nodes[k].schedulerFields.Some?
    ensures ClearedNodes(ClearedNodes(nodes, selected), selected) == ClearedNodes(nodes, selected)
  {
  }

  /** Clearing keeps the node names, so lookups by name find the same positions. */
  lemma {:induction false} ClearKeepsIndex(nodes: seq<InputTask>, selected: set<int>, name: string, from: nat)
    requires forall k :: 0 <= k < |nodes| ==> nodes[k].schedulerFields.Some?
    requires from <= |nodes|
    ensures NodeIndex(ClearedNodes(nodes, selected), name, from) == NodeIndex(nodes, name, from)
    decreases |nodes| - from
  {
    if from < |nodes| {
      ClearKeepsIndex(nodes, selected, name, from + 1);
    }
  }

  /** The clearing loop, resetting one task at a time in graph order. */
  method ClearNodes(nodes: seq<InputTask>, selected: set<int>) returns (r: seq<InputTask>)
    requires forall i :: 0 <= i < |nodes| ==> nodes[i].schedulerFields.Some?
    ensures r == ClearedNodes(nodes, selected)
  {
    r := nodes;
    for i := 0 to |nodes|
      invariant |r| == |nodes|
      invariant forall k :: 0 <= k < i ==> r[k] == ClearedTask(nodes[k], selected)
      invariant forall k :: i <= k < |nodes| ==> r[k] == nodes[k]
    {
      if r[i].schedulerFields.value.id in selected {
        r := r[i := r[i].(startDate := None, endDate := None, assignees := [])];
      }
    }
  }

  /** The stored graph after clearing: the same edges over the cleared tasks. */
  function Cleared(g: Graph, selected: set<int>): Graph
    requires WellFormed(g)
  {
    Graph(ClearedNodes(g.nodes, selected), g.edges)
  }

  /** Clearing keeps names and ids, so the cleared graph is as well formed as the stored one. */
  lemma ClearedWellFormed(g: Graph, selected: set<int>)
    requires WellFormed(g)
    ensures WellFormed(Cleared(g, selected))
  {
    var nodes := ClearedNodes(g.nodes, selected);
    forall j | 0 <= j < |g.edges|
      ensures NodeIndex(nodes, g.edges[j].source, 0).Some? && NodeIndex(nodes, g.edges[j].target, 0).Some?
    {
      ClearKeepsIndex(g.nodes, selected, g.edges[j].source, 0);
      ClearKeepsIndex(g.nodes, selected, g.edges[j].target, 0);
    }
  }

  /**
   * Rendering after a clear fails when a selected task had a date or an assignee: its cleared
   * copy no longer equals the stored decoration key of that name, and no other key has its name.
   */
  lemma ClearingScheduledFails(g: Graph, decorations: map<InputTask, Decoration>, selected: set<int>, k: nat,
                               today: Date, fmt: DateFormat, wrap: string -> string)
    requires WellFormed(g) && DistinctNames(g.nodes)
    requires forall t :: t in decorations ==> t in g.nodes
    requires k < |g.nodes| && g.nodes[k].schedulerFields.value.id in selected
    requires g.nodes[k].startDate.Some? || g.nodes[k].endDate.Some? || g.nodes[k].assignees != []
    ensures WellFormed(Cleared(g, selected)) && DotFileOf(Cleared(g, selected), decorations, today, fmt, wrap).Err?
  {
    ClearedWellFormed(g, selected);
    var c := Cleared(g, selected);
    assert c.nodes[k] != g.nodes[k];
    if c.nodes[k] in decorations {
      assert false;
    }
    assert FirstUndecorated(c.nodes, decorations, 0).Some?;
  }

  // ---------------------------------------------------------------------------------------
  // One user's stored plan

  /**
   * `last_graph` and `last_decorations` of one user: separate deep copies, so the decoration
   * keys are copies of the tasks as they were when the plan was stored.
   */
  datatype StoredPlan = StoredPlan(graph: Graph, decorations: map<InputTask, Decoration>)

  /** The entries of `last_graph`, `last_decorations` and `last_descendants` for one user. */
  class Session {
    const user: string
    var plan: Option<StoredPlan>
    var selection: Option<seq<int>>

    /** A stored graph is a scheduled one: its nodes carry ids and its edges join its nodes. */
    predicate Valid()
      reads this
    {
      plan.Some? ==> WellFormed(plan.value.graph)
    }

    function LastGraph(): Option<Graph>
      reads this
    {
      if plan.Some? then Some(plan.value.graph) else None
    }

    constructor(user: string)
      ensures this.user == user && plan == None && selection == None && Valid()
    {
      this.user := user;
      plan := None;
      selection := None;
    }

    /** Storing a rendered plan after scheduling. */
    method Remember(g: Graph, decorations: map<InputTask, Decoration>)
      requires WellFormed(g)
      modifies this
      ensures plan == Some(StoredPlan(g, decorations)) && selection == old(selection) && Valid()
    {
      plan := Some(StoredPlan(g, decorations));
    }

    /** `get_descendants`; `reach` is what `nx.descendants` reports for the target. */
    method GetDescendants(node: string, reach: seq<string>) returns (reply: DescendantsReply)
      requires Valid()
      requires plan.Some? ==> NamesNodes(plan.value.graph, reach)
      modifies this
      ensures Valid() && plan == old(plan)
      ensures reply == DescendantsOf(old(LastGraph()), node, reach).0
      ensures selection ==
        (if reply.status == 200 then DescendantsOf(old(LastGraph()), node, reach).1 else old(selection))
    {
      if !IsDigits(node) {
        return NotFound;
      }
      var target := DigitsValue(node);
      if plan.None? {
        return NotFound;
      }
      var g := plan.value.graph;
      var k := FindNode(g.nodes, target);
      if k.None? {
        return NotFound;
      }
      var ids := [target];
      for i := 0 to |reach|
        invariant ids == [target] + IdsOf(g, reach)[..i]
      {
        assert IdsOf(g, reach)[..i + 1] == IdsOf(g, reach)[..i] + [IdOf(g, reach[i])];
        ids := ids + [IdOf(g, reach[i])];
      }
      assert IdsOf(g, reach)[..|reach|] == IdsOf(g, reach);
      selection := Some(ids);
      reply := DescendantsReply(ids, 200);
    }

    /** `get_copy_text`: the plan of the stored graph as tab-separated lines. */
    method CopyText(fmt: DateFormat) returns (r: Result<string, Exc>)
      requires Valid()
      ensures plan.None? ==> r == Err(MissingKey(user))
      ensures plan.Some? ==> r == (match PlanOf(plan.value.graph.nodes, fmt)
                                   case Err(e) => Err(e)
                                   case Ok(lines) => Ok(CopyTextOf(lines)))
    {
      if plan.None? {
        return Err(MissingKey(user));
      }
      var lines := BuildPlan(plan.value.graph.nodes, fmt);
      if lines.Err? {
        return Err(lines.error);
      }
      r := Ok(CopyTextOf(lines.value));
    }

    /**
     * `clear_last_selectetd`: without a remembered selection, or without a stored graph, the
     * lookup fails; otherwise the selected tasks of the stored graph are cleared in place and
     * the graph is rendered again with the stored decorations, which may fail.
     */
    method ClearLastSelected(today: Date, fmt: DateFormat, wrap: string -> string) returns (r: Result<string, Exc>)
      requires Valid()
      modifies this
      ensures Valid() && selection == old(selection)
      ensures old(selection).None? || old(plan).None? ==> r == Err(MissingKey(user)) && plan == old(plan)
      ensures old(selection).Some? && old(plan).Some? ==>
        plan == Some(StoredPlan(Cleared(old(plan).value.graph, set x | x in old(selection).value),
                                old(plan).value.decorations)) &&
        r == DotFileOf(plan.value.graph, plan.value.decorations, today, fmt, wrap)
    {
      if selection.None? || plan.None? {
        return Err(MissingKey(user));
      }
      var selected := set x | x in selection.value;
      var g := plan.value.graph;
      var nodes := ClearNodes(g.nodes, selected);
      ClearedWellFormed(g, selected);
      plan := Some(StoredPlan(Graph(nodes, g.edges), plan.value.decorations));
      r := GenerateDotFile(plan.value.graph, plan.value.decorations, today, fmt, wrap);
    }
  }

  // ---------------------------------------------------------------------------------------
  // The offset-retry loop

  datatype Severity = Info | Warn

  datatype Notification = Notification(severity: Severity, message: string)

  /**
   * What one attempt at an offset produces: the upper graph, the solver's makespan and the
   * notifications the attempt appended.
   */
  datatype Attempt = Attempt(graph: Graph, makespan: Option<int>, notes: seq<Notification>)

  /** The returned graph, makespan and the offset of the last attempt. */
  datatype Scheduled = Scheduled(graph: Graph, makespan: Option<int>, offset: int)

  /** `if makespan:` — an absent makespan and a zero makespan both fail. */
  predicate Truthy(m: Option<int>) {
    m.Some? && m.value != 0
  }

  /** `range(from, 80, step)` for a positive step. */
  function Offsets(step: int, from: int): (r: seq<int>)
    requires step > 0
    ensures from < 80 ==> |r| > 0 && r[0] == from && r[|r| - 1] < 80 <= r[|r| - 1] + step
    ensures from >= 80 ==> r == []
    ensures forall i :: 0 <= i < |r| ==> from <= r[i] < 80
    ensures forall i :: 0 <= i < |r| - 1 ==> r[i + 1] == r[i] + step
    decreases 80 - from
  {
    if from >= 80 then [] else [from] + Offsets(step, from + step)
  }

  /** `range(0, 80, step)` for a non-zero step; a negative step gives no offsets. */
  function Range(step: int): seq<int>
    requires step != 0
  {
    if step > 0 then Offsets(step, 0) else []
  }

  /**
   * The attempts from position `k` of `offs` on, after a last graph `g` at offset `o`, with
   * the notifications `acc` appended so far.
   */
  function RetryFrom(attempt: int -> Result<Attempt, Exc>, offs: seq<int>, k: nat, g: Graph, o: int,
                     acc: seq<Notification>): Result<(Scheduled, seq<Notification>), Exc>
    requires k <= |offs|
    decreases |offs| - k
  {
    if k == |offs| then Ok((Scheduled(g, None, o), acc))
    else
      match attempt(offs[k])
      case Err(e) => Err(e)
      case Ok(a) =>
        if Truthy(a.makespan) then Ok((Scheduled(a.graph, a.makespan, offs[k]), acc + a.notes))
        else RetryFrom(attempt, offs, k + 1, a.graph, offs[k], acc + a.notes)
  }

  function WarnMessage(offset: int): string {
    "Unable to find a schedule after rolling back " + IntToString(offset) + "d"
  }

  /** `build_graph_and_schedule`: the outcome and the notifications after it. */
  function BuildAndScheduleOf(attempt: int -> Result<Attempt, Exc>, step: int, notes: seq<Notification>)
    : Result<(Scheduled, seq<Notification>), Exc>
  {
    if step == 0 then Err(ValueError("range"))
    else
      match RetryFrom(attempt, Range(step), 0, Graph([], []), 0, notes)
      case Err(e) => Err(e)
      case Ok((s, n)) =>
        if s.makespan.None? then Ok((s, n + [Notification(Warn, WarnMessage(s.offset))]))
        else Ok((s, n))
  }

  /** The notifications appended by the attempts at `offs[k..i]`, in order. */
  function Appended(attempt: int -> Result<Attempt, Exc>, offs: seq<int>, k: nat, i: nat): seq<Notification>
    requires k <= i <= |offs|
    decreases i - k
  {
    if k == i then []
    else (if attempt(offs[k]).Ok? then attempt(offs[k]).value.notes else []) + Appended(attempt, offs, k + 1, i)
  }

  /** Every attempt at `offs[k..i]` completed without a truthy makespan. */
  predicate AllFailed(attempt: int -> Result<Attempt, Exc>, offs: seq<int>, k: nat, i: nat)
    requires k <= i <= |offs|
  {
    forall j :: k <= j < i ==> attempt(offs[j]).Ok? && !Truthy(attempt(offs[j]).value.makespan)
  }

  /**
   * `r` is the first truthy attempt at or after `k`, all before it having failed, and `n` is
   * `acc` followed by the notifications of the attempts up to and including it.
   */
  predicate FirstSuccess(attempt: int -> Result<Attempt, Exc>, offs: seq<int>, k: nat,
                         acc: seq<Notification>, r: Scheduled, n: seq<Notification>) {
    exists i :: k <= i < |offs| && r.offset == offs[i] && Truthy(r.makespan) &&
      attempt(offs[i]).Ok? && attempt(offs[i]).value.graph == r.graph &&
      attempt(offs[i]).value.makespan == r.makespan && AllFailed(attempt, offs, k, i) &&
      n == acc + Appended(attempt, offs, k, i + 1)
  }

  /** `e` is raised by the first attempt that raises, all before it having failed. */
  predicate FirstRaise(attempt: int -> Result<Attempt, Exc>, offs: seq<int>, k: nat, e: Exc) {
    exists i :: k <= i < |offs| && attempt(offs[i]) == Err(e) && AllFailed(attempt, offs, k, i)
  }

  /** A failed attempt at `k` followed by a first success after it is a first success from `k`. */
  lemma SuccessAfterFailure(attempt: int -> Result<Attempt, Exc>, offs: seq<int>, k: nat,
                            acc: seq<Notification>, r: Scheduled, n: seq<Notification>)
    requires k < |offs| && attempt(offs[k]).Ok? && !Truthy(attempt(offs[k]).value.makespan)
    requires FirstSuccess(attempt, offs, k + 1, acc + attempt(offs[k]).value.notes, r, n)
    ensures FirstSuccess(attempt, offs, k, acc, r, n)
  {
    var a := attempt(offs[k]).value;
    var i :| k + 1 <= i < |offs| && r.offset == offs[i] && Truthy(r.makespan) &&
      attempt(offs[i]).Ok? && attempt(offs[i]).value.graph == r.graph &&
      attempt(offs[i]).value.makespan == r.makespan && AllFailed(attempt, offs, k + 1, i) &&
      n == acc + a.notes + Appended(attempt, offs, k + 1, i + 1);
    assert AllFailed(attempt, offs, k, i);
    assert n == acc + Appended(attempt, offs, k, i + 1);
  }

  /** A failed attempt at `k` followed by a first raise after it is a first raise from `k`. */
  lemma RaiseAfterFailure(attempt: int -> Result<Attempt, Exc>, offs: seq<int>, k: nat, e: Exc)
    requires k < |offs| && attempt(offs[k]).Ok? && !Truthy(attempt(offs[k]).value.makespan)
    requires FirstRaise(attempt, offs, k + 1, e)
    ensures FirstRaise(attempt, offs, k, e)
  {
    var i :| k + 1 <= i < |offs| && attempt(offs[i]) == Err(e) && AllFailed(attempt, offs, k + 1, i);
    assert AllFailed(attempt, offs, k, i);
  }

  /**
   * The loop stops at the first attempt with a truthy makespan or the first that raises; when
   * every attempt fails it reports no makespan, the last offset and the last attempt's graph.
   * The notifications of every attempt that ran are kept, in order.
   */
  lemma {:induction false} RetryOutcome(attempt: int -> Result<Attempt, Exc>, offs: seq<int>, k: nat, g: Graph,
                                        o: int, acc: seq<Notification>)
    requires k <= |offs|
    ensures RetryFrom(attempt, offs, k, g, o, acc).Ok? && RetryFrom(attempt, offs, k, g, o, acc).value.0.makespan.Some? ==>
      FirstSuccess(attempt, offs, k, acc, RetryFrom(attempt, offs, k, g, o, acc).value.0,
                   RetryFrom(attempt, offs, k, g, o, acc).value.1)
    ensures RetryFrom(attempt, offs, k, g, o, acc).Err? ==>
      FirstRaise(attempt, offs, k, RetryFrom(attempt, offs, k, g, o, acc).error)
    ensures RetryFrom(attempt, offs, k, g, o, acc).Ok? && RetryFrom(attempt, offs, k, g, o, acc).value.0.makespan.None? ==>
      AllFailed(attempt, offs, k, |offs|) &&
      RetryFrom(attempt, offs, k, g, o, acc).value.1 == acc + Appended(attempt, offs, k, |offs|) &&
      RetryFrom(attempt, offs, k, g, o, acc).value.0 ==
        (if k == |offs| then Scheduled(g, None, o)
         else Scheduled(attempt(offs[|offs| - 1]).value.graph, None, offs[|offs| - 1]))
    decreases |offs| - k
  {
    if k < |offs| && attempt(offs[k]).Ok? {
      var a := attempt(offs[k]).value;
      if !Truthy(a.makespan) {
        RetryOutcome(attempt, offs, k + 1, a.graph, offs[k], acc + a.notes);
        var r := RetryFrom(attempt, offs, k + 1, a.graph, offs[k], acc + a.notes);
        if r.Ok? && r.value.0.makespan.Some? {
          SuccessAfterFailure(attempt, offs, k, acc, r.value.0, r.value.1);
        } else if r.Err? {
          RaiseAfterFailure(attempt, offs, k, r.error);
        } else if r.Ok? {
          assert r.value.1 == acc + Appended(attempt, offs, k, |offs|);
        }
      } else {
        assert Appended(attempt, offs, k, k + 1) == a.notes;
        assert AllFailed(attempt, offs, k, k);
      }
    }
  }

  /**
   * When the first attempt raises, so does the whole call, with the same exception: nothing
   * after it runs.
   */
  lemma FirstAttemptRaises(attempt: int -> Result<Attempt, Exc>, step: int, notes: seq<Notification>)
    requires step > 0 && attempt(0).Err?
    ensures BuildAndScheduleOf(attempt, step, notes).Err?
    ensures BuildAndScheduleOf(attempt, step, notes).error == attempt(0).error
  {
    var offs := Range(step);
    assert offs[0] == 0;
  }

  /**
   * One attempt as written, given how it ends up to the call at line 107 (deep copy, offset
   * date, the upper graph and its verification, and the expansion of specific tasks): an
   * exception there propagates, and otherwise the call of the one-parameter
   * `expand_parallelizable_tasks` with two arguments raises a type error.
   */
  function AttemptAsWritten(upToExpansion: int -> Result<Graph, Exc>): (r: int -> Result<Attempt, Exc>)
    ensures forall o :: r(o).Err?
  {
    o => match upToExpansion(o)
         case Err(e) => Err(e)
         case Ok(_) => Err(TypeError("expand_parallelizable_tasks"))
  }

  /**
   * As written, every call with a positive step raises: the first attempt either fails in
   * its own steps or at the call at line 107, and no schedule is ever returned.
   */
  lemma BuildAndScheduleAlwaysRaises(upToExpansion: int -> Result<Graph, Exc>, step: int, notes: seq<Notification>)
    requires step > 0
    ensures BuildAndScheduleOf(AttemptAsWritten(upToExpansion), step, notes).Err?
    ensures BuildAndScheduleOf(AttemptAsWritten(upToExpansion), step, notes).error ==
      (if upToExpansion(0).Err? then upToExpansion(0).error else TypeError("expand_parallelizable_tasks"))
  {
    FirstAttemptRaises(AttemptAsWritten(upToExpansion), step, notes);
  }

  /**
   * A makespan of zero is a failure: if every attempt reports zero, none is accepted, and the
   * warning naming the last offset follows every attempt's notifications.
   */
  lemma ZeroMakespanRetries(attempt: int -> Result<Attempt, Exc>, step: int, notes: seq<Notification>)
    requires step > 0
    requires forall o :: attempt(o).Ok? && attempt(o).value.makespan == Some(0)
    ensures BuildAndScheduleOf(attempt, step, notes).Ok?
    ensures BuildAndScheduleOf(attempt, step, notes).value.0.makespan.None?
    ensures BuildAndScheduleOf(attempt, step, notes).value.1 ==
      notes + Appended(attempt, Range(step), 0, |Range(step)|) +
      [Notification(Warn, WarnMessage(BuildAndScheduleOf(attempt, step, notes).value.0.offset))]
  {
    var offs := Range(step);
    RetryOutcome(attempt, offs, 0, Graph([], []), 0, notes);
    var r := RetryFrom(attempt, offs, 0, Graph([], []), 0, notes);
    if r.Err? {
      assert false;
    } else if r.value.0.makespan.Some? {
      assert false;
    }
  }

  /** The retry loop over `range(0, 80, step)`. */
  method BuildGraphAndSchedule(attempt: int -> Result<Attempt, Exc>, step: int, notes: seq<Notification>)
    returns (r: Result<(Scheduled, seq<Notification>), Exc>)
    ensures r == BuildAndScheduleOf(attempt, step, notes)
  {
    if step == 0 {
      return Err(ValueError("range"));
    }
    var offs := Range(step);
    var offset := 0;
    var g := Graph([], []);
    var added := notes;
    for k := 0 to |offs|
      invariant RetryFrom(attempt, offs, k, g, offset, added) == RetryFrom(attempt, offs, 0, Graph([], []), 0, notes)
    {
      offset := offs[k];
      var outcome := attempt(offset);
      if outcome.Err? {
        return Err(outcome.error);
      }
      g := outcome.value.graph;
      added := added + outcome.value.notes;
      if Truthy(outcome.value.makespan) {
        return Ok((Scheduled(g, outcome.value.makespan, offset), added));
      }
    }
    r := Ok((Scheduled(g, None, offset), added + [Notification(Warn, WarnMessage(offset))]));
  }

  // ---------------------------------------------------------------------------------------
  // The error reply of `process`

  datatype ErrorReply = ErrorReply(message: Exc, status: int)

  /**
   * `process` as written, given how metadata extraction ended: an exception there, or else the
   * type error of calling the two-parameter task-list parser with three arguments, is turned
   * into a message with status 500 and no notifications.
   */
  function Process(metadata: Outcome<Exc>): (r: ErrorReply)
    ensures r.status == 500
    ensures metadata.Fail? ==> r.message == metadata.error
    ensures metadata.Pass? ==> r.message == TypeError("csv_string_to_task_list")
  {
    match metadata
    case Fail(e) => ErrorReply(e, 500)
    case Pass => ErrorReply(TypeError("csv_string_to_task_list"), 500)
  }
}
