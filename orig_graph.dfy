/**
 * backend/graph.py `compute_dag_metrics`: the total work of a plan and the length of its
 * longest chain of estimates. The recursion's cache is read but never written, so it is
 * always empty and left out. Python's recursion limit is the `depth` budget: a call chain
 * deeper than it raises RecursionError, which is what a cycle of successors runs into.
 */
module OrigGraph {
  import opened Wrappers
  import opened Exceptions
  import opened OrigTypes

  type TaskDict = map<string, Row>

  /** `task['Task']` as a dictionary key: missing raises KeyError, a list cannot be hashed. */
  function NameOf(t: Row): (r: Result<string, Exc>)
    ensures r.Ok? <==> "Task" in t && t["Task"].Str?
    ensures r.Ok? ==> r.value == t["Task"].s
  {
    if "Task" !in t then Err(MissingKey("Task"))
    else if t["Task"].List? then Err(TypeError("unhashable"))
    else Ok(t["Task"].s)
  }

  /** `{task['Task']: task for task in tasks}`: a later task of the same name wins. */
  function TaskDictOf(tasks: seq<Row>): (r: Result<TaskDict, Exc>)
    ensures r.Ok? <==> forall i :: 0 <= i < |tasks| ==> NameOf(tasks[i]).Ok?
  {
    if |tasks| == 0 then Ok(map[])
    else
      var before := TaskDictOf(tasks[..|tasks| - 1]);
      var name := NameOf(tasks[|tasks| - 1]);
      if before.Err? then before
      else if name.Err? then Err(name.error)
      else Ok(before.value[name.value := tasks[|tasks| - 1]])
  }

  /** The dictionary maps each task's name to the last task carrying it, and holds nothing else. */
  lemma {:induction false} TaskDictLastWins(tasks: seq<Row>, i: nat)
    requires TaskDictOf(tasks).Ok? && i < |tasks|
    requires forall j :: i < j < |tasks| ==> NameOf(tasks[j]) != NameOf(tasks[i])
    ensures NameOf(tasks[i]).value in TaskDictOf(tasks).value
    ensures TaskDictOf(tasks).value[NameOf(tasks[i]).value] == tasks[i]
    decreases |tasks|
  {
    if i < |tasks| - 1 {
      var prefix := tasks[..|tasks| - 1];
      assert prefix[i] == tasks[i];
      forall j | i < j < |prefix|
        ensures NameOf(prefix[j]) != NameOf(prefix[i])
      {
        assert prefix[j] == tasks[j];
      }
      TaskDictLastWins(prefix, i);
    }
  }

  /** `int(task['Estimate'])`. */
  function EstimateOf(t: Row): (r: Result<int, Exc>)
    ensures "Estimate" !in t ==> r == Err(MissingKey("Estimate"))
  {
    if "Estimate" in t then IntOf(t["Estimate"]) else Err(MissingKey("Estimate"))
  }

  /** `sum(int(task['Estimate']) for task in tasks)`, failing at the first bad estimate. */
  function TotalWorkOf(tasks: seq<Row>): Result<int, Exc> {
    if |tasks| == 0 then Ok(0)
    else
      var first := EstimateOf(tasks[0]);
      if first.Err? then Err(first.error)
      else
        var rest := TotalWorkOf(tasks[1..]);
        if rest.Err? then rest else Ok(first.value + rest.value)
  }

  lemma TotalWorkFront(tasks: seq<Row>)
    requires |tasks| > 0 && EstimateOf(tasks[0]).Ok? && TotalWorkOf(tasks[1..]).Ok?
    ensures TotalWorkOf(tasks).Ok? && TotalWorkOf(tasks).value == EstimateOf(tasks[0]).value + TotalWorkOf(tasks[1..]).value
  {
  }

  /** Total work adds up over any split of the task list. */
  lemma {:induction false} TotalWorkSplit(a: seq<Row>, b: seq<Row>)
    requires TotalWorkOf(a).Ok? && TotalWorkOf(b).Ok?
    ensures TotalWorkOf(a + b).Ok? && TotalWorkOf(a + b).value == TotalWorkOf(a).value + TotalWorkOf(b).value
  {
    if |a| == 0 {
      assert a + b == b;
    } else {
      var ab := a + b;
      assert ab[0] == a[0];
      assert ab[1..] == a[1..] + b;
      TotalWorkSplit(a[1..], b);
      TotalWorkFront(ab);
    }
  }

  /**
   * `longest_path_to_end(task)` with `depth` nested calls left: 0 for a task without
   * successors, whose own estimate is not counted; otherwise its estimate plus the longest
   * path of its successors, which must all be in the dictionary.
   */
  function LongestPath(d: TaskDict, task: Row, depth: nat): Result<int, Exc>
    decreases depth, 0
  {
    if depth == 0 then Err(RecursionError)
    else if "Task" !in task then Err(MissingKey("Task"))
    else if "next" !in task then Err(MissingKey("next"))
    else if !Truthy(task["next"]) then Ok(0)
    else
      var estimate := EstimateOf(task);
      if estimate.Err? then Err(estimate.error)
      else
        Combine(estimate.value, MaxPath(d, Elements(task["next"]), depth - 1))
  }

  /** A task's estimate added to its successors' longest path. */
  function Combine(estimate: int, longest: Result<int, Exc>): Result<int, Exc> {
    if longest.Err? then longest else Ok(estimate + longest.value)
  }

  /** `max(longest_path_to_end(task_dict[n]) for n in names)`, evaluated left to right. */
  function MaxPath(d: TaskDict, names: seq<string>, depth: nat): Result<int, Exc>
    decreases depth, |names| + 1
  {
    if |names| == 0 then Err(EmptyMax)
    else if names[0] !in d then Err(MissingKey(names[0]))
    else
      var first := LongestPath(d, d[names[0]], depth);
      if first.Err? then first
      else if |names| == 1 then first
      else
        var rest := MaxPath(d, names[1..], depth);
        if rest.Err? then rest
        else Ok(if first.value >= rest.value then first.value else rest.value)
  }

  /** The maximum is the path of some successor and at least that of every successor. */
  lemma {:induction false} MaxPathIsMax(d: TaskDict, names: seq<string>, depth: nat)
    requires MaxPath(d, names, depth).Ok?
    ensures forall i :: 0 <= i < |names| ==>
      names[i] in d && LongestPath(d, d[names[i]], depth).Ok? && LongestPath(d, d[names[i]], depth).value <= MaxPath(d, names, depth).value
    ensures exists i :: 0 <= i < |names| && names[i] in d && LongestPath(d, d[names[i]], depth) == MaxPath(d, names, depth)
  {
    if |names| > 1 {
      MaxPathIsMax(d, names[1..], depth);
      forall i | 1 <= i < |names|
        ensures names[i] in d && LongestPath(d, d[names[i]], depth).Ok?
          && LongestPath(d, d[names[i]], depth).value <= MaxPath(d, names, depth).value
      {
        assert names[i] == names[1..][i - 1];
      }
      var k :| 0 <= k < |names[1..]| && names[1..][k] in d && LongestPath(d, d[names[1..][k]], depth) == MaxPath(d, names[1..], depth);
      if LongestPath(d, d[names[0]], depth).value < MaxPath(d, names[1..], depth).value {
        assert names[k + 1] == names[1..][k];
      }
    }
  }

  /**
   * A result that is not RecursionError does not depend on the budget: more depth gives the
   * same answer.
   */
  lemma {:induction false} LongestPathDepth(d: TaskDict, task: Row, depth: nat, more: nat)
    requires depth <= more && LongestPath(d, task, depth) != Err(RecursionError)
    ensures LongestPath(d, task, more) == LongestPath(d, task, depth)
    decreases depth, 0
  {
    if depth > 0 && "Task" in task && "next" in task && Truthy(task["next"]) && EstimateOf(task).Ok? {
      var names := Elements(task["next"]);
      MaxPathDepth(d, names, depth - 1, more - 1);
      assert LongestPath(d, task, depth) == Combine(EstimateOf(task).value, MaxPath(d, names, depth - 1));
      assert LongestPath(d, task, more) == Combine(EstimateOf(task).value, MaxPath(d, names, more - 1));
    }
  }

  lemma {:induction false} MaxPathDepth(d: TaskDict, names: seq<string>, depth: nat, more: nat)
    requires depth <= more && MaxPath(d, names, depth) != Err(RecursionError)
    ensures MaxPath(d, names, more) == MaxPath(d, names, depth)
    decreases depth, |names| + 1
  {
    if |names| > 0 && names[0] in d {
      LongestPathDepth(d, d[names[0]], depth, more);
      if LongestPath(d, d[names[0]], depth).Ok? && |names| > 1 {
        MaxPathDepth(d, names[1..], depth, more);
      }
    }
  }

  /** A task that is its own successor recurses until the budget runs out, whatever it is. */
  lemma {:induction false} SelfLoopExhausts(d: TaskDict, name: string, depth: nat)
    requires name in d && "Task" in d[name] && "next" in d[name] && d[name]["next"] == List([name])
    requires EstimateOf(d[name]).Ok?
    ensures LongestPath(d, d[name], depth) == Err(RecursionError)
  {
    if depth > 0 {
      SelfLoopExhausts(d, name, depth - 1);
      assert Elements(d[name]["next"]) == [name];
      assert MaxPath(d, [name], depth - 1) == Err(RecursionError);
    }
  }

  /** A task without successors ends a path: its length is 0 once a call is left. */
  lemma SinkIsZero(d: TaskDict, task: Row, depth: nat)
    requires depth > 0 && "Task" in task && "next" in task && Elements(task["next"]) == []
    ensures LongestPath(d, task, depth).Ok? && LongestPath(d, task, depth).value == 0
  {
    ElementsTruthy(task["next"]);
  }

  /** `max(longest_path_to_end(task) for task in tasks)`; no tasks at all raises. */
  function LongestOf(d: TaskDict, tasks: seq<Row>, depth: nat): (r: Result<int, Exc>)
    ensures |tasks| == 0 ==> r == Err(EmptyMax)
  {
    if |tasks| == 0 then Err(EmptyMax)
    else
      var first := LongestPath(d, tasks[0], depth);
      if first.Err? then first
      else if |tasks| == 1 then first
      else
        var rest := LongestOf(d, tasks[1..], depth);
        if rest.Err? then rest
        else Ok(if first.value >= rest.value then first.value else rest.value)
  }

  lemma {:induction false} LongestOfIsMax(d: TaskDict, tasks: seq<Row>, depth: nat)
    requires LongestOf(d, tasks, depth).Ok?
    ensures forall i :: 0 <= i < |tasks| ==>
      LongestPath(d, tasks[i], depth).Ok? && LongestPath(d, tasks[i], depth).value <= LongestOf(d, tasks, depth).value
    ensures exists i :: 0 <= i < |tasks| && LongestPath(d, tasks[i], depth) == LongestOf(d, tasks, depth)
  {
    if |tasks| > 1 {
      LongestOfIsMax(d, tasks[1..], depth);
      forall i | 1 <= i < |tasks|
        ensures LongestPath(d, tasks[i], depth).Ok? && LongestPath(d, tasks[i], depth).value <= LongestOf(d, tasks, depth).value
      {
        assert tasks[i] == tasks[1..][i - 1];
      }
      var k :| 0 <= k < |tasks[1..]| && LongestPath(d, tasks[1..][k], depth) == LongestOf(d, tasks[1..], depth);
      assert tasks[k + 1] == tasks[1..][k];
    }
  }

  /**
   * `compute_dag_metrics(tasks)`: the dictionary is built first, then the total work, then
   * the longest path; the first exception wins.
   */
  function DagMetricsOf(tasks: seq<Row>, depth: nat): (r: Result<(int, int), Exc>)
    ensures r.Ok? ==> TotalWorkOf(tasks).Ok? && r.value.0 == TotalWorkOf(tasks).value
    ensures r.Ok? ==> TaskDictOf(tasks).Ok? && LongestOf(TaskDictOf(tasks).value, tasks, depth) == Ok(r.value.1)
    ensures |tasks| == 0 ==> r == Err(EmptyMax)
  {
    var d := TaskDictOf(tasks);
    if d.Err? then Err(d.error)
    else
      var total := TotalWorkOf(tasks);
      if total.Err? then Err(total.error)
      else
        var longest := LongestOf(d.value, tasks, depth);
        if longest.Err? then Err(longest.error) else Ok((total.value, longest.value))
  }
}
