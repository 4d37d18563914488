/**
 * backend/scheduler.py `schedule_graph`: three passes over the task graph. The first hands
 * every fully dated task to the scheduler; the second walks the tasks in reverse
 * topological order, filling missing end dates from the project end date and start dates
 * from the estimate, and pulls predecessors' end dates in front of each start; the third
 * walks forwards, filling what is still missing from today's date and pushing successors'
 * start dates after each end.
 *
 * The graph is the node sequence (in `G.nodes` order) with successor and predecessor
 * index lists, and `topo` is the order `nx.topological_sort` produces, given as an input
 * through its position table `pos`. Tasks are values in a sequence that the passes
 * rewrite. Today's date is a parameter.
 */
module OrigScheduleGraph {
  import opened Wrappers
  import opened Exceptions
  import opened Dates
  import opened OrigTypes
  import opened OrigSchedulers

  /** The edges of the graph and a topological order of its nodes. */
  datatype Graph = Graph(succs: seq<seq<nat>>, preds: seq<seq<nat>>, topo: seq<nat>)

  /** What `schedule_graph` reads from the metadata. */
  datatype SchedMeta = SchedMeta(reg: Registry, endDate: Option<Date>, minSlack: int)

  /**
   * `topo` lists the `n` nodes once each, `pos` gives each node's place in it, and every
   * edge runs from an earlier place to a later one.
   */
  ghost predicate Topo(g: Graph, n: nat, pos: seq<nat>) {
    && |g.succs| == n && |g.preds| == n && |g.topo| == n && |pos| == n
    && (forall p :: 0 <= p < n ==> g.topo[p] < n && pos[g.topo[p]] == p)
    && (forall i :: 0 <= i < n ==> pos[i] < n && g.topo[pos[i]] == i)
    && (forall x, m :: 0 <= x < n && 0 <= m < |g.succs[x]| ==> g.succs[x][m] < n && pos[x] < pos[g.succs[x][m]])
    && (forall y, m :: 0 <= y < n && 0 <= m < |g.preds[y]| ==> g.preds[y][m] < n && pos[g.preds[y][m]] < pos[y])
  }

  /** Lines 250-253 for one successor: an unset or generated-and-earlier start moves to `min`. */
  function PushStart(t: SchedTask, min: Date): (r: SchedTask)
    ensures r.start.Some? && (r.genStart ==> r.start.value >= min)
    ensures t.start.Some? ==> r.start.value >= t.start.value && r.genStart == t.genStart
    ensures r.(start := t.start, genStart := t.genStart) == t
  {
    if t.start.None? || (t.genStart && t.start.value < min) then t.(start := Some(min), genStart := true) else t
  }

  /** Lines 226-229 for one predecessor: an unset or generated-and-later end moves to `max`. */
  function PushEnd(t: SchedTask, max: Date): (r: SchedTask)
    ensures r.end.Some? && (r.genEnd ==> r.end.value <= max)
    ensures t.end.Some? ==> r.end.value <= t.end.value && r.genEnd == t.genEnd
    ensures r.(end := t.end, genEnd := t.genEnd) == t
  {
    if t.end.None? || (t.genEnd && t.end.value > max) then t.(end := Some(max), genEnd := true) else t
  }

  /** Pushing the same bound twice changes nothing more. */
  lemma PushStartTwice(t: SchedTask, min: Date)
    ensures PushStart(PushStart(t, min), min) == PushStart(t, min)
  {
  }

  lemma PushEndTwice(t: SchedTask, max: Date)
    ensures PushEnd(PushEnd(t, max), max) == PushEnd(t, max)
  {
  }

  /** `for succ in G.successors(task)`: every listed successor's start is pushed to `min`. */
  method PushSuccs(ts: seq<SchedTask>, succ: seq<nat>, min: Date) returns (ts': seq<SchedTask>)
    requires forall m :: 0 <= m < |succ| ==> succ[m] < |ts|
    ensures |ts'| == |ts|
    ensures forall i :: 0 <= i < |ts| ==> ts'[i] == if i in succ then PushStart(ts[i], min) else ts[i]
  {
    ts' := ts;
    for m := 0 to |succ|
      invariant |ts'| == |ts|
      invariant forall i :: 0 <= i < |ts| ==> ts'[i] == if i in succ[..m] then PushStart(ts[i], min) else ts[i]
    {
      PushStartTwice(ts[succ[m]], min);
      ts' := ts'[succ[m] := PushStart(ts'[succ[m]], min)];
      assert succ[..m + 1] == succ[..m] + [succ[m]];
    }
    assert succ[..|succ|] == succ;
  }

  /** `for pred in G.predecessors(task)`: every listed predecessor's end is pushed to `max`. */
  method PushPreds(ts: seq<SchedTask>, pred: seq<nat>, max: Date) returns (ts': seq<SchedTask>)
    requires forall m :: 0 <= m < |pred| ==> pred[m] < |ts|
    ensures |ts'| == |ts|
    ensures forall i :: 0 <= i < |ts| ==> ts'[i] == if i in pred then PushEnd(ts[i], max) else ts[i]
  {
    ts' := ts;
    for m := 0 to |pred|
      invariant |ts'| == |ts|
      invariant forall i :: 0 <= i < |ts| ==> ts'[i] == if i in pred[..m] then PushEnd(ts[i], max) else ts[i]
    {
      PushEndTwice(ts[pred[m]], max);
      ts' := ts'[pred[m] := PushEnd(ts'[pred[m]], max)];
      assert pred[..m + 1] == pred[..m] + [pred[m]];
    }
    assert pred[..|pred|] == pred;
  }

  /** The passes keep every task's name and estimate. */
  predicate Same(cur: seq<SchedTask>, ts: seq<SchedTask>) {
    |cur| == |ts| && forall i :: 0 <= i < |ts| ==> cur[i].name == ts[i].name && cur[i].estimate == ts[i].estimate
  }

  // ------------------------------------------------------------ the first pass

  /** Lines 192-194: every task with both dates goes through the scheduler, backwards. */
  method FirstPass(s: Scheduler, ts: seq<SchedTask>, meta: SchedMeta, passes: nat) returns (r: Result<seq<SchedTask>, Exc>)
    requires s.Valid()
    modifies s, s.backwardsCal, s.forwardsCal
    ensures r.Ok? ==> |r.value| == |ts|
    ensures r.Ok? ==> forall i :: 0 <= i < |ts| ==>
      if Dated(ts[i]) then Slid(ts[i], r.value[i], true) else r.value[i] == ts[i]
    ensures r.Ok? ==> Same(r.value, ts)
  {
    var cur := ts;
    for i := 0 to |ts|
      invariant |cur| == |ts|
      invariant forall j :: 0 <= j < i ==> if Dated(ts[j]) then Slid(ts[j], cur[j], true) else cur[j] == ts[j]
      invariant forall j :: i <= j < |ts| ==> cur[j] == ts[j]
    {
      if Dated(cur[i]) {
        var sr := s.Call(cur[i], true, meta.reg, passes);
        if sr.Err? {
          return Err(sr.error);
        }
        cur := cur[i := sr.value];
      }
    }
    return Ok(cur);
  }

  // ------------------------------------------------------------ the backward pass

  /**
   * Lines 205-217, for a task that has an end date or can take the project's: a missing end
   * becomes the project end date, then a missing start the end less the estimate.
   */
  function FillBackward(t: SchedTask, endDate: Option<Date>): (r: SchedTask)
    requires t.end.Some? || endDate.Some?
    ensures Dated(r) && r.name == t.name && r.estimate == t.estimate
    ensures t.end.Some? ==> r.end == t.end && r.genEnd == t.genEnd
    ensures r.start.value == if t.start.Some? then t.start.value else r.end.value - r.estimate
  {
    var t1 := if t.end.None? then t.(end := endDate, genEnd := true) else t;
    if t1.start.None? then t1.(start := Some(BusdaysOffset(t1.end.value, -t1.estimate)), genStart := true) else t1
  }

  /** The edge x -> y is dated and a generated end of x keeps `slack` days before y starts. */
  predicate EdgeOkBack(cur: seq<SchedTask>, x: nat, y: nat, slack: int)
    requires x < |cur| && y < |cur|
  {
    Dated(cur[y]) && cur[x].end.Some? && (cur[x].genEnd ==> cur[x].end.value <= cur[y].start.value - slack)
  }

  /** Dates once set stay set. */
  predicate KeepsDates(ts: seq<SchedTask>, cur: seq<SchedTask>)
    requires |cur| == |ts|
  {
    forall i :: 0 <= i < |ts| && Dated(ts[i]) ==> Dated(cur[i])
  }

  /** What holds after the first `k` turns of the backward pass, entered with `ts`. */
  ghost predicate BackwardDone(cur: seq<SchedTask>, ts: seq<SchedTask>, g: Graph, pos: seq<nat>, k: nat, meta: SchedMeta)
    requires Topo(g, |ts|, pos) && k <= |ts|
  {
    && Same(cur, ts)
    && KeepsDates(ts, cur)
    && (meta.endDate.Some? ==> forall i :: 0 <= i < |ts| && pos[i] >= |ts| - k ==> Dated(cur[i]))
    && (forall y, m :: 0 <= y < |ts| && pos[y] >= |ts| - k && cur[y].end.Some? && 0 <= m < |g.preds[y]| ==>
          EdgeOkBack(cur, g.preds[y][m], y, meta.minSlack))
  }

  /** A skipped turn (no end date anywhere) keeps what the earlier turns established. */
  lemma BackwardSkip(cur: seq<SchedTask>, ts: seq<SchedTask>, g: Graph, pos: seq<nat>, k: nat, meta: SchedMeta)
    requires Topo(g, |ts|, pos) && k < |ts| && BackwardDone(cur, ts, g, pos, k, meta)
    requires cur[g.topo[|ts| - 1 - k]].end.None? && meta.endDate.None?
    ensures BackwardDone(cur, ts, g, pos, k + 1, meta)
  {
  }

  /** One scheduled turn of the backward pass keeps what the earlier turns established. */
  lemma BackwardStep(cur: seq<SchedTask>, t': SchedTask, mid: seq<SchedTask>, max: Date, next: seq<SchedTask>,
                     ts: seq<SchedTask>, g: Graph, pos: seq<nat>, k: nat, meta: SchedMeta)
    requires Topo(g, |ts|, pos) && k < |ts| && BackwardDone(cur, ts, g, pos, k, meta)
    requires cur[g.topo[|ts| - 1 - k]].end.Some? || meta.endDate.Some?
    requires Slid(FillBackward(cur[g.topo[|ts| - 1 - k]], meta.endDate), t', true)
    requires mid == cur[g.topo[|ts| - 1 - k] := t'] && max == BusdaysOffset(t'.start.value, -meta.minSlack)
    requires |next| == |ts|
    requires forall i :: 0 <= i < |ts| ==> next[i] == if i in g.preds[g.topo[|ts| - 1 - k]] then PushEnd(mid[i], max) else mid[i]
    ensures BackwardDone(next, ts, g, pos, k + 1, meta)
  {
    var n := |ts|;
    var a := g.topo[n - 1 - k];
    assert pos[a] == n - 1 - k;
    assert forall m :: 0 <= m < |g.preds[a]| ==> pos[g.preds[a][m]] < n - 1 - k;
    forall i | 0 <= i < n && pos[i] >= n - k
      ensures next[i] == cur[i]
    {
      assert i != a;
      if i in g.preds[a] {
        assert false;
      }
    }
    assert a !in g.preds[a] by {
      if a in g.preds[a] {
        assert false;
      }
    }
    assert next[a] == t';
    forall y, m | 0 <= y < n && pos[y] >= n - (k + 1) && next[y].end.Some? && 0 <= m < |g.preds[y]|
      ensures EdgeOkBack(next, g.preds[y][m], y, meta.minSlack)
    {
      var x := g.preds[y][m];
      if y == a {
        assert x in g.preds[a];
      } else {
        assert pos[y] >= n - k && EdgeOkBack(cur, x, y, meta.minSlack);
        if x != a && x in g.preds[a] {
          assert next[x] == PushEnd(cur[x], max);
        }
      }
    }
  }

  /**
   * Lines 200-229. On success dates once set stay set; with a project end date every task
   * is dated; and along every edge into a task with an end date, a generated end of the
   * predecessor lies at least `min_slack` business days before the task starts.
   */
  method BackwardPass(s: Scheduler, ts: seq<SchedTask>, g: Graph, meta: SchedMeta, passes: nat, ghost pos: seq<nat>)
    returns (r: Result<seq<SchedTask>, Exc>)
    requires s.Valid() && Topo(g, |ts|, pos)
    modifies s, s.backwardsCal, s.forwardsCal
    ensures r.Ok? ==> Same(r.value, ts) && KeepsDates(ts, r.value)
    ensures r.Ok? && meta.endDate.Some? ==> forall i :: 0 <= i < |ts| ==> Dated(r.value[i])
    ensures r.Ok? ==> forall y, m :: 0 <= y < |ts| && r.value[y].end.Some? && 0 <= m < |g.preds[y]| ==>
      EdgeOkBack(r.value, g.preds[y][m], y, meta.minSlack)
  {
    var cur := ts;
    var n := |ts|;
    for k := 0 to n
      invariant BackwardDone(cur, ts, g, pos, k, meta)
    {
      var a := g.topo[n - 1 - k];
      if cur[a].end.None? && meta.endDate.None? {
        BackwardSkip(cur, ts, g, pos, k, meta);
        continue;
      }
      var t := FillBackward(cur[a], meta.endDate);
      var sr := s.Call(t, true, meta.reg, passes);
      if sr.Err? {
        return Err(sr.error);
      }
      var mid := cur[a := sr.value];
      var max := BusdaysOffset(sr.value.start.value, -meta.minSlack);
      var next := PushPreds(mid, g.preds[a], max);
      BackwardStep(cur, sr.value, mid, max, next, ts, g, pos, k, meta);
      cur := next;
    }
    BackwardFinal(cur, ts, g, pos, meta);
    return Ok(cur);
  }

  lemma BackwardFinal(cur: seq<SchedTask>, ts: seq<SchedTask>, g: Graph, pos: seq<nat>, meta: SchedMeta)
    requires Topo(g, |ts|, pos) && BackwardDone(cur, ts, g, pos, |ts|, meta)
    ensures Same(cur, ts) && KeepsDates(ts, cur)
    ensures meta.endDate.Some? ==> forall i :: 0 <= i < |ts| ==> Dated(cur[i])
    ensures forall y, m :: 0 <= y < |ts| && cur[y].end.Some? && 0 <= m < |g.preds[y]| ==>
      EdgeOkBack(cur, g.preds[y][m], y, meta.minSlack)
  {
  }

  // ------------------------------------------------------------ the forward pass

  /** Lines 239-244: a missing start becomes today, then a missing end start + estimate. */
  function FillForward(t: SchedTask, today: Date): (r: SchedTask)
    ensures Dated(r) && r.name == t.name && r.estimate == t.estimate
    ensures t.start.Some? ==> r.start == t.start && r.genStart == t.genStart
    ensures t.end.None? ==> r.end.value == r.start.value + r.estimate
  {
    var t1 := if t.start.None? then t.(start := Some(today), genStart := true) else t;
    if t1.end.None? then t1.(end := Some(BusdaysOffset(t1.start.value, t1.estimate)), genEnd := true) else t1
  }

  /** The edge x -> y is dated and a generated start of y keeps `slack` days after x ends. */
  predicate EdgeOk(cur: seq<SchedTask>, x: nat, y: nat, slack: int)
    requires x < |cur| && y < |cur|
  {
    Dated(cur[x]) && cur[y].start.Some? && (cur[y].genStart ==> cur[y].start.value >= cur[x].end.value + slack)
  }

  /** What holds after the first `k` turns of the forward pass, entered with `ts`. */
  ghost predicate ForwardDone(cur: seq<SchedTask>, ts: seq<SchedTask>, g: Graph, pos: seq<nat>, k: nat, slack: int)
    requires Topo(g, |ts|, pos)
  {
    && Same(cur, ts)
    && (forall i :: 0 <= i < |ts| && pos[i] < k ==> Dated(cur[i]))
    && (forall i :: 0 <= i < |ts| && pos[i] >= k ==> cur[i].end == ts[i].end)
    && (forall i :: 0 <= i < |ts| && pos[i] < k && ts[i].end.None? ==>
          Dated(cur[i]) && cur[i].end.value == cur[i].start.value + cur[i].estimate)
    && (forall x, m :: 0 <= x < |ts| && pos[x] < k && 0 <= m < |g.succs[x]| ==> EdgeOk(cur, x, g.succs[x][m], slack))
  }

  /** One turn of the forward pass keeps what the earlier turns established. */
  lemma ForwardStep(cur: seq<SchedTask>, t': SchedTask, mid: seq<SchedTask>, min: Date, next: seq<SchedTask>,
                    ts: seq<SchedTask>, g: Graph, pos: seq<nat>, k: nat, slack: int, today: Date)
    requires Topo(g, |ts|, pos) && k < |ts| && ForwardDone(cur, ts, g, pos, k, slack)
    requires Slid(FillForward(cur[g.topo[k]], today), t', false)
    requires mid == cur[g.topo[k] := t'] && min == BusdaysOffset(t'.end.value, slack)
    requires |next| == |ts|
    requires forall i :: 0 <= i < |ts| ==> next[i] == if i in g.succs[g.topo[k]] then PushStart(mid[i], min) else mid[i]
    ensures ForwardDone(next, ts, g, pos, k + 1, slack)
  {
    var a := g.topo[k];
    var n := |ts|;
    assert forall m :: 0 <= m < |g.succs[a]| ==> pos[g.succs[a][m]] > k;
    forall i | 0 <= i < n && pos[i] < k
      ensures next[i] == cur[i]
    {
      assert i != a;
      if i in g.succs[a] {
        assert false;
      }
    }
    assert a !in g.succs[a] by {
      if a in g.succs[a] {
        assert false;
      }
    }
    assert next[a] == t';
    forall x, m | 0 <= x < n && pos[x] < k + 1 && 0 <= m < |g.succs[x]|
      ensures EdgeOk(next, x, g.succs[x][m], slack)
    {
      var y := g.succs[x][m];
      if x == a {
        assert y in g.succs[a];
      } else {
        assert pos[x] < k && EdgeOk(cur, x, y, slack);
        if y != a && y in g.succs[a] {
          assert next[y] == PushStart(cur[y], t'.end.value + slack);
        }
      }
    }
  }

  /** After the last turn, every task has had its turn. */
  lemma ForwardFinal(cur: seq<SchedTask>, ts: seq<SchedTask>, g: Graph, pos: seq<nat>, slack: int)
    requires Topo(g, |ts|, pos) && ForwardDone(cur, ts, g, pos, |ts|, slack)
    ensures Same(cur, ts)
    ensures forall i :: 0 <= i < |ts| ==> Dated(cur[i])
    ensures forall i :: 0 <= i < |ts| && ts[i].end.None? ==>
      Dated(cur[i]) && cur[i].end.value == cur[i].start.value + cur[i].estimate
    ensures forall x, m :: 0 <= x < |ts| && 0 <= m < |g.succs[x]| ==> EdgeOk(cur, x, g.succs[x][m], slack)
  {
  }

  /**
   * Lines 235-253. On success every task is dated; a task that entered the pass without
   * an end ends `estimate` business days after its start; and along every edge a generated
   * successor start lies at least `min_slack` business days after its predecessor's end.
   */
  method ForwardPass(s: Scheduler, ts: seq<SchedTask>, g: Graph, meta: SchedMeta, today: Date, passes: nat, ghost pos: seq<nat>)
    returns (r: Result<seq<SchedTask>, Exc>)
    requires s.Valid() && Topo(g, |ts|, pos)
    modifies s, s.backwardsCal, s.forwardsCal
    ensures r.Ok? ==> Same(r.value, ts)
    ensures r.Ok? ==> forall i :: 0 <= i < |ts| ==> Dated(r.value[i])
    ensures r.Ok? ==> forall i :: 0 <= i < |ts| && ts[i].end.None? ==>
      Dated(r.value[i]) && r.value[i].end.value == r.value[i].start.value + r.value[i].estimate
    ensures r.Ok? ==> forall x, m :: 0 <= x < |ts| && 0 <= m < |g.succs[x]| ==> EdgeOk(r.value, x, g.succs[x][m], meta.minSlack)
  {
    var cur := ts;
    for k := 0 to |ts|
      invariant ForwardDone(cur, ts, g, pos, k, meta.minSlack)
    {
      var a := g.topo[k];
      var t := FillForward(cur[a], today);
      var sr := s.Call(t, false, meta.reg, passes);
      if sr.Err? {
        return Err(sr.error);
      }
      var mid := cur[a := sr.value];
      var min := BusdaysOffset(sr.value.end.value, meta.minSlack);
      var next := PushSuccs(mid, g.succs[a], min);
      ForwardStep(cur, sr.value, mid, min, next, ts, g, pos, k, meta.minSlack, today);
      cur := next;
    }
    ForwardFinal(cur, ts, g, pos, meta.minSlack);
    return Ok(cur);
  }

  // ------------------------------------------------------------ the three passes

  /**
   * `schedule_graph`. On success every task is dated, keeps its name and estimate, and
   * along every edge a generated successor start lies at least `min_slack` business days
   * after its predecessor's end.
   */
  method ScheduleGraph(s: Scheduler, ts: seq<SchedTask>, g: Graph, meta: SchedMeta, today: Date, passes: nat, ghost pos: seq<nat>)
    returns (r: Result<seq<SchedTask>, Exc>)
    requires s.Valid() && Topo(g, |ts|, pos)
    modifies s, s.backwardsCal, s.forwardsCal
    ensures r.Ok? ==> Same(r.value, ts)
    ensures r.Ok? ==> forall i :: 0 <= i < |ts| ==> Dated(r.value[i])
    ensures r.Ok? ==> forall x, m :: 0 <= x < |ts| && 0 <= m < |g.succs[x]| ==> EdgeOk(r.value, x, g.succs[x][m], meta.minSlack)
  {
    var first := FirstPass(s, ts, meta, passes);
    if first.Err? {
      return first;
    }
    var back := BackwardPass(s, first.value, g, meta, passes, pos);
    if back.Err? {
      return back;
    }
    r := ForwardPass(s, back.value, g, meta, today, passes, pos);
  }
}
