/**
 * The task graph: one node per distinct task name, the last task of that name winning,
 * and one edge for each `next` reference between defined names.
 */
module RwGraph {
  import opened Wrappers
  import opened RwTypes

  /** An edge `source -> target` with the data the rest of the pipeline attaches to it. */
  datatype Edge = Edge(source: string, target: string, weight: Option<int>, slack: int, critical: bool)

  /**
   * A directed graph whose nodes are tasks, identified by name, and whose edges are listed in
   * the order they were first added.
   */
  datatype Graph = Graph(nodes: seq<InputTask>, edges: seq<Edge>)

  /** The `tasks` dictionary after the first `n` tasks: each name maps to its latest task. */
  function Latest(ts: seq<InputTask>, n: nat): map<string, InputTask>
    requires n <= |ts|
  {
    if n == 0 then map[] else Latest(ts, n - 1)[ts[n - 1].name := ts[n - 1]]
  }

  /** The key order of that dictionary: a name enters when first assigned. */
  function Names(ts: seq<InputTask>, n: nat): seq<string>
    requires n <= |ts|
  {
    if n == 0 then []
    else if ts[n - 1].name in Latest(ts, n - 1) then Names(ts, n - 1)
    else Names(ts, n - 1) + [ts[n - 1].name]
  }

  /** The pairs `(name, next[j])` for the first `k` successors of one task. */
  function NextPairs(name: string, next: seq<string>, k: nat): seq<(string, string)>
    requires k <= |next|
  {
    if k == 0 then [] else NextPairs(name, next, k - 1) + [(name, next[k - 1])]
  }

  /** The `edges` list after the first `n` tasks. */
  function Pairs(ts: seq<InputTask>, n: nat): seq<(string, string)>
    requires n <= |ts|
  {
    if n == 0 then [] else Pairs(ts, n - 1) + NextPairs(ts[n - 1].name, ts[n - 1].next, |ts[n - 1].next|)
  }

  predicate HasEdge(es: seq<Edge>, u: string, v: string) {
    exists i :: 0 <= i < |es| && es[i].source == u && es[i].target == v
  }

  /**
   * The edges after adding the first `n` pairs: a pair between two defined names is added
   * unless it is already there; the rest are dropped.
   */
  function Linked(pairs: seq<(string, string)>, tasks: map<string, InputTask>, n: nat): seq<Edge>
    requires n <= |pairs|
  {
    if n == 0 then []
    else
      var es := Linked(pairs, tasks, n - 1);
      var (u, v) := pairs[n - 1];
      if u in tasks && v in tasks && !HasEdge(es, u, v) then es + [Edge(u, v, tasks[u].estimate, 0, false)]
      else es
  }

  /** The nodes for the first `j` names. */
  function NodesFor(names: seq<string>, tasks: map<string, InputTask>, j: nat): seq<InputTask>
    requires j <= |names|
    requires forall k :: 0 <= k < |names| ==> names[k] in tasks
  {
    if j == 0 then [] else NodesFor(names, tasks, j - 1) + [tasks[names[j - 1]]]
  }

  /** The graph `build_graph` returns for a task list. */
  function GraphOf(ts: seq<InputTask>): Graph {
    var tasks := Latest(ts, |ts|);
    var names := Names(ts, |ts|);
    NamesAreKeys(ts, |ts|);
    Graph(NodesFor(names, tasks, |names|), Linked(Pairs(ts, |ts|), tasks, |Pairs(ts, |ts|)|))
  }

  /** The name order lists each dictionary key exactly once. */
  lemma {:induction false} NamesAreKeys(ts: seq<InputTask>, n: nat)
    requires n <= |ts|
    ensures forall k :: 0 <= k < |Names(ts, n)| ==> Names(ts, n)[k] in Latest(ts, n)
    ensures forall name :: name in Latest(ts, n) ==> name in Names(ts, n)
    ensures forall k, l :: 0 <= k < l < |Names(ts, n)| ==> Names(ts, n)[k] != Names(ts, n)[l]
  {
    if n > 0 {
      NamesAreKeys(ts, n - 1);
    }
  }

  /** A name is a key exactly when some task carries it. */
  lemma {:induction false} KeysAreTaskNames(ts: seq<InputTask>, n: nat, name: string)
    requires n <= |ts|
    ensures name in Latest(ts, n) <==> exists j :: 0 <= j < n && ts[j].name == name
  {
    if n > 0 {
      KeysAreTaskNames(ts, n - 1, name);
    }
  }

  /** The task stored for a name is the last task with that name. */
  lemma {:induction false} LatestIsLast(ts: seq<InputTask>, n: nat, j: nat)
    requires j < n <= |ts|
    requires forall l :: j < l < n ==> ts[l].name != ts[j].name
    ensures ts[j].name in Latest(ts, n) && Latest(ts, n)[ts[j].name] == ts[j]
  {
    if n - 1 > j {
      LatestIsLast(ts, n - 1, j);
    }
  }

  lemma {:induction false} NextPairsMembers(name: string, next: seq<string>, k: nat, p: (string, string))
    requires k <= |next|
    ensures p in NextPairs(name, next, k) <==> p.0 == name && exists j :: 0 <= j < k && next[j] == p.1
  {
    if k > 0 {
      NextPairsMembers(name, next, k - 1, p);
    }
  }

  /** The pairs collected are exactly `(t.name, s)` for each task `t` and each `s` in its `next`. */
  lemma {:induction false} PairsMembers(ts: seq<InputTask>, n: nat, u: string, v: string)
    requires n <= |ts|
    ensures (u, v) in Pairs(ts, n) <==> exists j :: 0 <= j < n && ts[j].name == u && v in ts[j].next
  {
    if n > 0 {
      PairsMembers(ts, n - 1, u, v);
      var t := ts[n - 1];
      NextPairsMembers(t.name, t.next, |t.next|, (u, v));
    }
  }

  /**
   * An edge is present exactly when some pair links two defined names; each carries the
   * source's estimate, slack 0 and no critical mark; no two edges join the same names.
   */
  lemma {:induction false} LinkedEdges(pairs: seq<(string, string)>, tasks: map<string, InputTask>, n: nat, u: string, v: string)
    requires n <= |pairs|
    ensures HasEdge(Linked(pairs, tasks, n), u, v) <==> (u, v) in pairs[..n] && u in tasks && v in tasks
    ensures forall e :: e in Linked(pairs, tasks, n) ==>
      e.source in tasks && e.weight == tasks[e.source].estimate && e.slack == 0 && !e.critical
    ensures var es := Linked(pairs, tasks, n);
      forall i, k :: 0 <= i < k < |es| ==> (es[i].source, es[i].target) != (es[k].source, es[k].target)
  {
    if n > 0 {
      LinkedEdges(pairs, tasks, n - 1, u, v);
      var es := Linked(pairs, tasks, n - 1);
      assert pairs[..n] == pairs[..n - 1] + [pairs[n - 1]];
      var (a, b) := pairs[n - 1];
      if a in tasks && b in tasks && !HasEdge(es, a, b) {
        var es' := es + [Edge(a, b, tasks[a].estimate, 0, false)];
        if HasEdge(es', u, v) && !HasEdge(es, u, v) {
          var i :| 0 <= i < |es'| && es'[i].source == u && es'[i].target == v;
          assert i == |es|;
        }
        assert HasEdge(es, u, v) ==> HasEdge(es', u, v) by {
          if HasEdge(es, u, v) {
            var i :| 0 <= i < |es| && es[i].source == u && es[i].target == v;
            assert es'[i] == es[i];
          }
        }
        if (u, v) == (a, b) {
          assert HasEdge(es', u, v) by {
            assert es'[|es|].source == u && es'[|es|].target == v;
          }
        }
      }
    }
  }

  /**
   * One node per distinct task name, and the node of a name is the last task listed under
   * that name.
   */
  lemma GraphNodes(ts: seq<InputTask>, name: string)
    ensures (exists k :: 0 <= k < |GraphOf(ts).nodes| && GraphOf(ts).nodes[k].name == name) <==>
      exists j :: 0 <= j < |ts| && ts[j].name == name
    ensures forall j :: 0 <= j < |ts| && ts[j].name == name && (forall l :: j < l < |ts| ==> ts[l].name != name) ==>
      exists k :: 0 <= k < |GraphOf(ts).nodes| && GraphOf(ts).nodes[k] == ts[j]
    ensures var nodes := GraphOf(ts).nodes;
      forall k, l :: 0 <= k < l < |nodes| ==> nodes[k].name != nodes[l].name
  {
    var tasks := Latest(ts, |ts|);
    var names := Names(ts, |ts|);
    NamesAreKeys(ts, |ts|);
    LatestNamed(ts, |ts|);
    KeysAreTaskNames(ts, |ts|, name);
    NodesForNames(names, tasks, |names|);
    if exists j :: 0 <= j < |ts| && ts[j].name == name {
      var k :| 0 <= k < |names| && names[k] == name;
      assert GraphOf(ts).nodes[k].name == name;
    }
    forall j | 0 <= j < |ts| && ts[j].name == name && (forall l :: j < l < |ts| ==> ts[l].name != name)
      ensures exists k :: 0 <= k < |GraphOf(ts).nodes| && GraphOf(ts).nodes[k] == ts[j]
    {
      LatestIsLast(ts, |ts|, j);
      var k :| 0 <= k < |names| && names[k] == name;
      assert GraphOf(ts).nodes[k] == ts[j];
    }
  }

  /** The nodes are the dictionary's values in key order, each stored under its own name. */
  lemma {:induction false} NodesForNames(names: seq<string>, tasks: map<string, InputTask>, j: nat)
    requires j <= |names|
    requires forall k :: 0 <= k < |names| ==> names[k] in tasks
    requires forall name :: name in tasks ==> tasks[name].name == name
    ensures |NodesFor(names, tasks, j)| == j
    ensures forall k :: 0 <= k < j ==> NodesFor(names, tasks, j)[k] == tasks[names[k]]
    ensures forall k :: 0 <= k < j ==> NodesFor(names, tasks, j)[k].name == names[k]
  {
    if j > 0 {
      NodesForNames(names, tasks, j - 1);
    }
  }

  /** Every stored task is stored under its own name. */
  lemma {:induction false} LatestNamed(ts: seq<InputTask>, n: nat)
    requires n <= |ts|
    ensures forall name :: name in Latest(ts, n) ==> Latest(ts, n)[name].name == name
  {
    if n > 0 {
      LatestNamed(ts, n - 1);
    }
  }

  /**
   * `u -> v` is an edge exactly when some task named `u` lists `v` in `next` and both names
   * are defined; dangling references are dropped.
   */
  lemma GraphEdges(ts: seq<InputTask>, u: string, v: string)
    ensures HasEdge(GraphOf(ts).edges, u, v) <==>
      (exists j :: 0 <= j < |ts| && ts[j].name == u && v in ts[j].next) &&
      (exists j :: 0 <= j < |ts| && ts[j].name == u) && (exists j :: 0 <= j < |ts| && ts[j].name == v)
  {
    var tasks := Latest(ts, |ts|);
    var pairs := Pairs(ts, |ts|);
    LinkedEdges(pairs, tasks, |pairs|, u, v);
    assert pairs[..|pairs|] == pairs;
    PairsMembers(ts, |ts|, u, v);
    KeysAreTaskNames(ts, |ts|, u);
    KeysAreTaskNames(ts, |ts|, v);
  }

  /** The first loop of `build_graph`: the `tasks` dictionary, its key order and the `edges` list. */
  method CollectTasks(taskList: seq<InputTask>) returns (tasks: map<string, InputTask>, order: seq<string>, edges: seq<(string, string)>)
    ensures tasks == Latest(taskList, |taskList|)
    ensures order == Names(taskList, |taskList|)
    ensures edges == Pairs(taskList, |taskList|)
  {
    tasks, order, edges := map[], [], [];
    for i := 0 to |taskList|
      invariant tasks == Latest(taskList, i)
      invariant order == Names(taskList, i)
      invariant edges == Pairs(taskList, i)
    {
      var task := taskList[i];
      if task.name !in tasks {
        order := order + [task.name];
      }
      tasks := tasks[task.name := task];
      ghost var before := edges;
      for k := 0 to |task.next|
        invariant edges == before + NextPairs(task.name, task.next, k)
      {
        edges := edges + [(task.name, task.next[k])];
      }
    }
  }

  /** Adds the dictionary's values as nodes, in key order. */
  method AddNodes(order: seq<string>, tasks: map<string, InputTask>) returns (nodes: seq<InputTask>)
    requires forall k :: 0 <= k < |order| ==> order[k] in tasks
    ensures nodes == NodesFor(order, tasks, |order|)
  {
    nodes := [];
    for j := 0 to |order|
      invariant nodes == NodesFor(order, tasks, j)
    {
      nodes := nodes + [tasks[order[j]]];
    }
  }

  /** Adds an edge for each collected pair between defined names; an existing edge is kept once. */
  method AddEdges(edges: seq<(string, string)>, tasks: map<string, InputTask>) returns (linked: seq<Edge>)
    ensures linked == Linked(edges, tasks, |edges|)
  {
    linked := [];
    for n := 0 to |edges|
      invariant linked == Linked(edges, tasks, n)
    {
      var (u, v) := edges[n];
      if u in tasks && v in tasks && !HasEdge(linked, u, v) {
        linked := linked + [Edge(u, v, tasks[u].estimate, 0, false)];
      }
    }
  }

  /** `build_graph`: nodes first, then edges. */
  method BuildGraph(taskList: seq<InputTask>) returns (g: Graph)
    ensures g == GraphOf(taskList)
  {
    var tasks, order, edges := CollectTasks(taskList);
    NamesAreKeys(taskList, |taskList|);
    var nodes := AddNodes(order, tasks);
    var linked := AddEdges(edges, tasks);
    g := Graph(nodes, linked);
  }

  predicate DistinctNames(nodes: seq<InputTask>) {
    forall i, j :: 0 <= i < j < |nodes| ==> nodes[i].name != nodes[j].name
  }

  /** The edges of `es` leaving `name`, in the order they were added. */
  function EdgesFrom(es: seq<Edge>, name: string): (r: seq<Edge>)
    ensures forall e :: e in r <==> e in es && e.source == name
  {
    if es == [] then []
    else (if es[0].source == name then [es[0]] else []) + EdgesFrom(es[1..], name)
  }

  /**
   * `G.edges` over the first `n` nodes: networkx reports edges node by node in node order,
   * and the edges of one node in the order they were added.
   */
  function EdgeView(nodes: seq<InputTask>, es: seq<Edge>, n: nat): (r: seq<Edge>)
    requires n <= |nodes|
    ensures forall e :: e in r ==> e in es
  {
    if n == 0 then [] else EdgeView(nodes, es, n - 1) + EdgesFrom(es, nodes[n - 1].name)
  }

  /** The view lists exactly the edges whose source is one of the first `n` nodes. */
  lemma {:induction false} EdgeViewMembers(nodes: seq<InputTask>, es: seq<Edge>, n: nat, e: Edge)
    requires n <= |nodes|
    ensures e in EdgeView(nodes, es, n) <==> e in es && exists i :: 0 <= i < n && nodes[i].name == e.source
  {
    if n > 0 {
      EdgeViewMembers(nodes, es, n - 1, e);
      if e in es && e.source == nodes[n - 1].name {
        assert e in EdgesFrom(es, nodes[n - 1].name);
      }
    }
  }

  /**
   * With distinct node names, no edge of a later node is listed before an edge of an earlier
   * node: the view is grouped by source, in node order.
   */
  lemma {:induction false} EdgeViewGrouped(nodes: seq<InputTask>, es: seq<Edge>, n: nat, i: nat, j: nat, a: nat, b: nat)
    requires DistinctNames(nodes) && n <= |nodes| && i < j < n
    requires a < b < |EdgeView(nodes, es, n)|
    ensures !(EdgeView(nodes, es, n)[a].source == nodes[j].name && EdgeView(nodes, es, n)[b].source == nodes[i].name)
  {
    var prev := EdgeView(nodes, es, n - 1);
    var view := EdgeView(nodes, es, n);
    var last := EdgesFrom(es, nodes[n - 1].name);
    assert view == prev + last;
    if view[a].source == nodes[j].name && view[b].source == nodes[i].name {
      if b >= |prev| {
        assert false;
      } else if j == n - 1 {
        assert view[a] == prev[a] && prev[a] in prev;
        EdgeViewMembers(nodes, es, n - 1, prev[a]);
        assert false;
      } else {
        assert view[a] == prev[a] && view[b] == prev[b];
        EdgeViewGrouped(nodes, es, n - 1, i, j, a, b);
        assert false;
      }
    }
  }
}
