/**
 * Subtask expansion: a parallelizable task becomes a chain of one-day links, and a task with
 * specific assignments becomes one task per assignee.
 */
module RwExpand {
  import opened Wrappers
  import opened Text
  import opened Exceptions
  import opened RwTypes

  /** `original_to_subtasks`: each expanded task (as it ends up) with its copies, in insertion order. */
  type Subtasks = seq<(InputTask, seq<InputTask>)>

  // ---------------------------------------------------------------- parallelizable chains

  function ChainName(name: string, id: nat): string {
    name + "_chain_" + NatToString(id)
  }

  /** `assert t.estimate and t.estimate >= 2`. */
  predicate Splittable(t: InputTask) {
    t.estimate.Some? && t.estimate.value >= 2
  }

  /** The task once its end is cleared and its estimate set to 1, before any rewiring. */
  function Shortened(t: InputTask): InputTask {
    t.(endDate := None, estimate := Some(1))
  }

  /**
   * Copy `id` as `deepcopy(t)` creates it: the task under its chain name, with estimate 1 and
   * no dates; its `next` is whatever the task's was at that moment.
   */
  function Fresh(t: InputTask, id: nat): InputTask {
    var now := if id == 1 then Shortened(t) else Shortened(t).(next := [ChainName(t.name, 1)]);
    now.(name := ChainName(t.name, id), estimate := Some(1), startDate := None, endDate := None)
  }

  /**
   * Link `i` of the finished chain of `e` links; link 0 is the task itself. Every link points
   * at the following one, and the last takes back the task's end date and `next`.
   */
  function Link(t: InputTask, i: nat, e: nat): InputTask
    requires 0 < i < e
  {
    if i == e - 1 then Fresh(t, i).(endDate := t.endDate, next := t.next)
    else Fresh(t, i).(next := [ChainName(t.name, i + 1)])
  }

  /** The task itself as the first link. */
  function Head(t: InputTask): InputTask {
    Shortened(t).(next := [ChainName(t.name, 1)])
  }

  /** The copies appended for a task of estimate `e`, in creation order. */
  function Copies(t: InputTask, e: nat): (r: seq<InputTask>)
    requires e >= 2
    ensures |r| == e - 1 && forall i :: 0 <= i < e - 1 ==> r[i] == Link(t, i + 1, e)
  {
    seq(e - 1, i requires 0 <= i < e - 1 => Link(t, i + 1, e))
  }

  /** The whole chain: the task followed by its copies. */
  function Chain(t: InputTask): seq<InputTask>
    requires Splittable(t)
  {
    [Head(t)] + Copies(t, t.estimate.value)
  }

  /** Sum of the known estimates. */
  function EstimateSum(ts: seq<InputTask>): int {
    if |ts| == 0 then 0 else EstimateSum(ts[..|ts| - 1]) + ts[|ts| - 1].estimate.GetOr(0)
  }

  lemma {:induction false} UnitEstimates(ts: seq<InputTask>)
    requires forall i :: 0 <= i < |ts| ==> ts[i].estimate == Some(1)
    ensures EstimateSum(ts) == |ts|
  {
    if |ts| > 0 {
      UnitEstimates(ts[..|ts| - 1]);
    }
  }

  /** What each link of a chain holds. */
  lemma LinkFields(t: InputTask, i: nat, e: nat)
    requires 0 < i < e
    ensures Link(t, i, e).estimate == Some(1)
    ensures Link(t, i, e).name == ChainName(t.name, i)
    ensures Link(t, i, e).startDate == None
    ensures Link(t, i, e).next == if i == e - 1 then t.next else [ChainName(t.name, i + 1)]
    ensures Link(t, i, e).endDate == if i == e - 1 then t.endDate else None
  {
  }

  /** The links of a chain, position by position. */
  lemma ChainLinks(t: InputTask)
    requires Splittable(t)
    ensures |Chain(t)| == t.estimate.value
    ensures Chain(t)[0] == Head(t)
    ensures forall i :: 0 < i < |Chain(t)| ==> Chain(t)[i] == Link(t, i, t.estimate.value)
  {
  }

  /** A chain has `estimate` links of estimate 1, which add up to the original estimate. */
  lemma ChainEstimates(t: InputTask)
    requires Splittable(t)
    ensures |Chain(t)| == t.estimate.value
    ensures forall i :: 0 <= i < |Chain(t)| ==> Chain(t)[i].estimate == Some(1)
    ensures EstimateSum(Chain(t)) == t.estimate.value
  {
    var c := Chain(t);
    ChainLinks(t);
    forall i | 0 < i < |c|
      ensures c[i].estimate == Some(1)
    {
      LinkFields(t, i, |c|);
    }
    UnitEstimates(c);
  }

  /**
   * Each link's `next` is the name of the following link, and only the last link has an end
   * date: the original one, with the original `next`.
   */
  lemma ChainWiring(t: InputTask)
    requires Splittable(t)
    ensures var c := Chain(t);
      (forall i :: 0 <= i < |c| - 1 ==> c[i].next == [c[i + 1].name] && c[i].endDate == None) &&
      c[|c| - 1].next == t.next && c[|c| - 1].endDate == t.endDate
  {
    var c := Chain(t);
    var e := t.estimate.value;
    ChainLinks(t);
    forall i | 0 < i < e
      ensures c[i].name == ChainName(t.name, i)
      ensures c[i].next == (if i == e - 1 then t.next else [ChainName(t.name, i + 1)])
      ensures c[i].endDate == (if i == e - 1 then t.endDate else None)
    {
      LinkFields(t, i, e);
    }
  }

  /** The first link is the task under its own name and start; the copies are numbered and never start. */
  lemma ChainNaming(t: InputTask)
    requires Splittable(t)
    ensures var c := Chain(t);
      c[0].name == t.name && c[0].startDate == t.startDate &&
      forall i :: 0 < i < |c| ==> c[i].name == ChainName(t.name, i) && c[i].startDate == None
  {
    var c := Chain(t);
    ChainLinks(t);
    forall i | 0 < i < |c|
      ensures c[i].name == ChainName(t.name, i) && c[i].startDate == None
    {
      LinkFields(t, i, |c|);
    }
  }

  /** Links are told apart by their numbers. */
  lemma ChainNamesDistinct(name: string, i: nat, j: nat)
    requires i != j
    ensures ChainName(name, i) != ChainName(name, j)
    ensures ChainName(name, i) != name
  {
    var p := name + "_chain_";
    assert ChainName(name, i) == p + NatToString(i);
    if ChainName(name, i) == ChainName(name, j) {
      assert NatToString(i) == (p + NatToString(i))[|p|..];
      assert NatToString(j) == (p + NatToString(j))[|p|..];
      NatToStringRoundTrip(i);
      NatToStringRoundTrip(j);
    }
    assert |ChainName(name, i)| > |name|;
  }

  /** One task of the outer loop: its new value and the copies it adds. */
  function ParallelStep(t: InputTask): Result<(InputTask, seq<InputTask>), Exc> {
    if !t.parallelizable then Ok((t, []))
    else if !Splittable(t) then Err(AssertionFailed)
    else Ok((Head(t), Copies(t, t.estimate.value)))
  }

  /** The first `n` tasks processed: the tasks as changed in place, the copies and the map. */
  function ParallelFold(tasks: seq<InputTask>, n: nat): Result<(seq<InputTask>, seq<InputTask>, Subtasks), Exc>
    requires n <= |tasks|
  {
    if n == 0 then Ok(([], [], []))
    else match ParallelFold(tasks, n - 1)
      case Err(e) => Err(e)
      case Ok(acc) =>
        match ParallelStep(tasks[n - 1])
        case Err(e) => Err(e)
        case Ok(step) =>
          Ok((acc.0 + [step.0], acc.1 + step.1,
            if tasks[n - 1].parallelizable then acc.2 + [(step.0, step.1)] else acc.2))
  }

  /** `expand_parallelizable_tasks`: the tasks in order, then every copy in creation order. */
  function ExpandParallelizable(tasks: seq<InputTask>): Result<(seq<InputTask>, Subtasks), Exc> {
    match ParallelFold(tasks, |tasks|)
    case Err(e) => Err(e)
    case Ok(acc) => Ok((acc.0 + acc.1, acc.2))
  }

  /**
   * The fold keeps one entry per task, each task's new value in place; it fails exactly when
   * some parallelizable task cannot be split.
   */
  lemma {:induction false} ParallelFoldShape(tasks: seq<InputTask>, n: nat)
    requires n <= |tasks|
    ensures ParallelFold(tasks, n).Err? <==> exists i :: 0 <= i < n && tasks[i].parallelizable && !Splittable(tasks[i])
    ensures ParallelFold(tasks, n).Ok? ==> var acc := ParallelFold(tasks, n).value;
      |acc.0| == n &&
      (forall i :: 0 <= i < n ==> acc.0[i] == (if tasks[i].parallelizable then Head(tasks[i]) else tasks[i])) &&
      |acc.1| == EstimateSumOfSplit(tasks, n)
  {
    if n > 0 {
      ParallelFoldShape(tasks, n - 1);
    }
  }

  /** How many copies the first `n` tasks add: one fewer than each parallel estimate. */
  function EstimateSumOfSplit(tasks: seq<InputTask>, n: nat): nat
    requires n <= |tasks|
  {
    if n == 0 then 0
    else
      var own := if tasks[n - 1].parallelizable && Splittable(tasks[n - 1]) then tasks[n - 1].estimate.value - 1 else 0;
      EstimateSumOfSplit(tasks, n - 1) + own
  }

  /**
   * Non-parallelizable tasks come back unchanged and in place, the copies follow the inputs,
   * and a parallelizable task without an estimate of at least 2 fails the assertion.
   */
  lemma ExpandParallelizableShape(tasks: seq<InputTask>)
    ensures ExpandParallelizable(tasks).Err? <==>
      exists i :: 0 <= i < |tasks| && tasks[i].parallelizable && !Splittable(tasks[i])
    ensures ExpandParallelizable(tasks).Ok? ==> var ret := ExpandParallelizable(tasks).value.0;
      |ret| == |tasks| + EstimateSumOfSplit(tasks, |tasks|) &&
      forall i :: 0 <= i < |tasks| ==> ret[i] == (if tasks[i].parallelizable then Head(tasks[i]) else tasks[i])
  {
    ParallelFoldShape(tasks, |tasks|);
  }

  /** Builds the chain of one parallelizable task, rewiring the previous link at each step. */
  method SplitTask(t: InputTask) returns (head: InputTask, copies: seq<InputTask>)
    requires Splittable(t)
    ensures head == Head(t) && copies == Copies(t, t.estimate.value)
  {
    var e := t.estimate.value;
    var originalEnd := t.endDate;
    var originalNext := t.next;
    head := t.(endDate := None, estimate := Some(1));
    copies := [];
    for id := 1 to e
      invariant |copies| == id - 1
      invariant head == if id == 1 then Shortened(t) else Head(t)
      invariant forall i :: 0 <= i < id - 2 ==> copies[i] == Link(t, i + 1, e)
      invariant id >= 2 ==> copies[id - 2] == Fresh(t, id - 1)
    {
      var c := head.(name := head.name + "_chain_" + NatToString(id), estimate := Some(1),
        startDate := None, endDate := None);
      assert c == Fresh(t, id);
      if id == 1 {
        head := head.(next := [c.name]);
      } else {
        copies := copies[..id - 2] + [copies[id - 2].(next := [c.name])];
      }
      copies := copies + [c];
    }
    copies := copies[..e - 2] + [copies[e - 2].(endDate := originalEnd, next := originalNext)];
  }

  /** `expand_parallelizable_tasks`. */
  method ExpandParallelizableTasks(tasks: seq<InputTask>) returns (r: Result<(seq<InputTask>, Subtasks), Exc>)
    ensures r == ExpandParallelizable(tasks)
  {
    var ret: seq<InputTask> := [];
    var toAdd: seq<InputTask> := [];
    var subtasks: Subtasks := [];
    for i := 0 to |tasks|
      invariant ParallelFold(tasks, i) == Ok((ret, toAdd, subtasks))
    {
      var t := tasks[i];
      if t.parallelizable {
        if !(t.estimate.Some? && t.estimate.value >= 2) {
          ParallelFailureStays(tasks, i + 1, |tasks|);
          return Err(AssertionFailed);
        }
        var head, copies := SplitTask(t);
        assert ParallelStep(t) == Ok((head, copies));
        ret := ret + [head];
        toAdd := toAdd + copies;
        subtasks := subtasks + [(head, copies)];
      } else {
        assert ParallelStep(t) == Ok((t, []));
        ret := ret + [t];
        assert toAdd + [] == toAdd;
      }
    }
    return Ok((ret + toAdd, subtasks));
  }

  lemma {:induction false} ParallelFailureStays(tasks: seq<InputTask>, n: nat, k: nat)
    requires n <= k <= |tasks| && ParallelFold(tasks, n).Err?
    ensures ParallelFold(tasks, k) == ParallelFold(tasks, n)
    decreases k
  {
    if k > n {
      ParallelFailureStays(tasks, n, k - 1);
    }
  }

  // ---------------------------------------------------------------- specific assignments

  function SpecificName(name: string, id: nat): string {
    name + "_specific_" + NatToString(id)
  }

  predicate Splits(t: InputTask) {
    t.specificAssignments && |t.assignees| > 1
  }

  /** The task keeping only its first assignee. */
  function KeepFirst(t: InputTask): InputTask
    requires Splits(t)
  {
    t.(assignees := [t.assignees[0]])
  }

  /** The copies, one per remaining assignee in order. */
  function SpecificCopies(t: InputTask): (r: seq<InputTask>)
    requires Splits(t)
    ensures |r| == |t.assignees| - 1
    ensures forall i :: 0 <= i < |r| ==> r[i] == KeepFirst(t).(name := SpecificName(t.name, i + 1), assignees := [t.assignees[i + 1]])
  {
    seq(|t.assignees| - 1, i requires 0 <= i < |t.assignees| - 1 =>
      KeepFirst(t).(name := SpecificName(t.name, i + 1), assignees := [t.assignees[i + 1]]))
  }

  function SpecificFold(tasks: seq<InputTask>, n: nat): (seq<InputTask>, seq<InputTask>, Subtasks)
    requires n <= |tasks|
  {
    if n == 0 then ([], [], [])
    else
      var acc := SpecificFold(tasks, n - 1);
      var t := tasks[n - 1];
      if Splits(t) then (acc.0 + [KeepFirst(t)], acc.1 + SpecificCopies(t), acc.2 + [(KeepFirst(t), SpecificCopies(t))])
      else (acc.0 + [t], acc.1, acc.2)
  }

  /** `expand_specific_tasks`: the tasks in order, then the copies. */
  function ExpandSpecific(tasks: seq<InputTask>): (seq<InputTask>, Subtasks) {
    var acc := SpecificFold(tasks, |tasks|);
    (acc.0 + acc.1, acc.2)
  }

  /**
   * Python compares the `next` name against the map's task keys: a `str` never equals an
   * `InputTask`, so no key matches.
   */
  predicate KeyMatches(key: InputTask, probe: string) {
    false
  }

  /** `original_to_subtasks.get(n, [])`. */
  function Get(subtasks: Subtasks, probe: string, from: nat): seq<InputTask>
    requires from <= |subtasks|
    decreases |subtasks| - from
  {
    if from == |subtasks| then []
    else if KeyMatches(subtasks[from].0, probe) then subtasks[from].1
    else Get(subtasks, probe, from + 1)
  }

  /** The lookup by a task's name never finds anything. */
  lemma {:induction false} NameLookupMisses(subtasks: Subtasks, probe: string, from: nat)
    requires from <= |subtasks|
    ensures Get(subtasks, probe, from) == []
    decreases |subtasks| - from
  {
    if from < |subtasks| {
      NameLookupMisses(subtasks, probe, from + 1);
    }
  }

  /**
   * The specific expansion keeps tasks in place, a split task keeping only its first
   * assignee; the copies come after, one per remaining assignee, and the map lists each
   * split task with its copies.
   */
  lemma {:induction false} SpecificFoldShape(tasks: seq<InputTask>, n: nat)
    requires n <= |tasks|
    ensures var acc := SpecificFold(tasks, n);
      |acc.0| == n &&
      (forall i :: 0 <= i < n ==> acc.0[i] == if Splits(tasks[i]) then KeepFirst(tasks[i]) else tasks[i]) &&
      (forall i :: 0 <= i < |acc.2| ==> exists j :: (0 <= j < n && Splits(tasks[j]) &&
        acc.2[i] == (KeepFirst(tasks[j]), SpecificCopies(tasks[j])))) &&
      (forall j :: 0 <= j < n && Splits(tasks[j]) ==> (KeepFirst(tasks[j]), SpecificCopies(tasks[j])) in acc.2)
  {
    if n > 0 {
      SpecificFoldShape(tasks, n - 1);
    }
  }

  /** The rewiring loop: every task's `next` gains the names of its successors' copies. */
  method Rewire(ret: seq<InputTask>, subtasks: Subtasks) returns (out: seq<InputTask>)
    ensures out == ret
  {
    out := ret;
    for i := 0 to |out|
      invariant out == ret
    {
      var j := 0;
      while j < |out[i].next|
        invariant out == ret && j <= |out[i].next|
        decreases |out[i].next| - j
      {
        var found := Get(subtasks, out[i].next[j], 0);
        NameLookupMisses(subtasks, out[i].next[j], 0);
        var added := seq(|found|, k requires 0 <= k < |found| => found[k].name);
        assert added == [];
        assert out[i].next + added == out[i].next;
        out := out[i := out[i].(next := out[i].next + added)];
        j := j + 1;
      }
    }
  }

  /** `expand_specific_tasks`. */
  method ExpandSpecificTasks(tasks: seq<InputTask>) returns (ret: seq<InputTask>, subtasks: Subtasks)
    ensures (ret, subtasks) == ExpandSpecific(tasks)
  {
    var kept: seq<InputTask> := [];
    var toAdd: seq<InputTask> := [];
    subtasks := [];
    for i := 0 to |tasks|
      invariant SpecificFold(tasks, i) == (kept, toAdd, subtasks)
    {
      var t := tasks[i];
      var original := t.assignees;
      if t.specificAssignments && |original| > 1 {
        t := t.(assignees := [original[0]]);
        var added: seq<InputTask> := [];
        for id := 1 to |original|
          invariant |added| == id - 1
          invariant forall k :: 0 <= k < id - 1 ==> added[k] == SpecificCopies(tasks[i])[k]
        {
          added := added + [t.(name := t.name + "_specific_" + NatToString(id), assignees := [original[id]])];
        }
        assert added == SpecificCopies(tasks[i]);
        kept := kept + [t];
        toAdd := toAdd + added;
        subtasks := subtasks + [(t, added)];
      } else {
        kept := kept + [t];
      }
    }
    ret := Rewire(kept + toAdd, subtasks);
  }
}
