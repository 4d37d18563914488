/**
 * Scheduler preprocessing and result application: dense person and task ids, assignee
 * pools, date windows relative to today, and writing a solver's answer back onto the tasks.
 * The constraint solver itself is not modelled: its answer is an input.
 */
module RwScheduler {
  import opened Wrappers
  import opened Exceptions
  import opened Dates
  import opened RwTypes
  import opened RwGraph

  /**
   * The registry as the scheduler reads it: the people in `people_allocations` key order
   * and the teams by name, each with its members' names.
   */
  datatype SchedMetadata = SchedMetadata(people: seq<string>, teams: map<string, seq<string>>)

  /** The people are dictionary keys, so no name is listed twice. */
  predicate DistinctPeople(m: SchedMetadata) {
    forall i, j :: 0 <= i < j < |m.people| ==> m.people[i] != m.people[j]
  }

  /** What the solver reports for one task: its id, start and end offsets and person id. */
  datatype SchedulerAssignment = SchedulerAssignment(id: int, start: int, end: int, assignee: int)

  // ---------------------------------------------------------------- ValidTasks

  /** The tasks the solver sees: those whose scheduler fields are not marked excluded. */
  predicate Included(t: InputTask)
    requires t.schedulerFields.Some?
  {
    !t.schedulerFields.value.exclude
  }

  /** Where the iterator stops from `from` on: a task that is not excluded, or one without fields. */
  function NextStop(tasks: seq<InputTask>, from: nat): (k: nat)
    requires from <= |tasks|
    ensures from <= k <= |tasks|
    ensures forall i :: from <= i < k ==> tasks[i].schedulerFields.Some? && tasks[i].schedulerFields.value.exclude
    ensures k < |tasks| ==> tasks[k].schedulerFields.None? || !tasks[k].schedulerFields.value.exclude
    decreases |tasks| - from
  {
    if from == |tasks| then from
    else if tasks[from].schedulerFields.Some? && tasks[from].schedulerFields.value.exclude then NextStop(tasks, from + 1)
    else from
  }

  /**
   * `ValidTasks`: an iterator over a task list that skips excluded tasks. `__iter__` must be
   * called before `__next__`; a task without scheduler fields fails at the `exclude` read.
   */
  class ValidTasks {
    const tasks: seq<InputTask>
    /** The position of the underlying list iterator; None before `__iter__`. */
    var cursor: Option<nat>

    constructor (tasks: seq<InputTask>)
      ensures this.tasks == tasks && cursor == None
    {
      this.tasks := tasks;
      cursor := None;
    }

    /** `__iter__`: restarts the underlying iterator. */
    method Iter()
      modifies this
      ensures cursor == Some(0)
    {
      cursor := Some(0);
    }

    /** `__next__`: the next task not excluded, or None for `StopIteration`. */
    method Next() returns (r: Result<Option<InputTask>, Exc>)
      requires cursor.Some? ==> cursor.value <= |tasks|
      modifies this
      ensures old(cursor).None? ==> r == Err(AssertionFailed) && cursor == old(cursor)
      ensures old(cursor).Some? ==> var k := NextStop(tasks, old(cursor).value);
        (if k == |tasks| then r == Ok(None) && cursor == Some(k)
         else (cursor == Some(k + 1) &&
           r == if tasks[k].schedulerFields.None? then Err(AttributeError("exclude")) else Ok(Some(tasks[k]))))
    {
      if cursor.None? {
        return Err(AssertionFailed);
      }
      var i := cursor.value;
      while i < |tasks|
        invariant cursor.value <= i <= |tasks| && NextStop(tasks, cursor.value) == NextStop(tasks, i)
        decreases |tasks| - i
      {
        var task := tasks[i];
        i := i + 1;
        match task.schedulerFields {
          case None =>
            cursor := Some(i);
            return Err(AttributeError("exclude"));
          case Some(f) =>
            if !f.exclude {
              cursor := Some(i);
              return Ok(Some(task));
            }
        }
      }
      cursor := Some(i);
      return Ok(None);
    }
  }

  /** The tasks a `for` loop over `ValidTasks(tasks)` visits from position `from` on. */
  function ValidFrom(tasks: seq<InputTask>, from: nat): Result<seq<InputTask>, Exc>
    requires from <= |tasks|
    decreases |tasks| - from
  {
    var k := NextStop(tasks, from);
    if k == |tasks| then Ok([])
    else if tasks[k].schedulerFields.None? then Err(AttributeError("exclude"))
    else match ValidFrom(tasks, k + 1)
      case Err(e) => Err(e)
      case Ok(rest) => Ok([tasks[k]] + rest)
  }

  /** Runs a `for` loop over `ValidTasks(tasks)`, collecting what it visits. */
  method CollectValid(tasks: seq<InputTask>) returns (r: Result<seq<InputTask>, Exc>)
    ensures r == ValidFrom(tasks, 0)
  {
    var it := new ValidTasks(tasks);
    it.Iter();
    var seen: seq<InputTask> := [];
    match ValidFrom(tasks, 0) {
      case Err(_) =>
      case Ok(rest) => assert seen + rest == rest;
    }
    while true
      invariant it.tasks == tasks && it.cursor.Some? && it.cursor.value <= |tasks|
      invariant ValidFrom(tasks, 0) == match ValidFrom(tasks, it.cursor.value)
        case Err(e) => Err(e)
        case Ok(rest) => Ok(seen + rest)
      decreases |tasks| - it.cursor.value
    {
      ghost var at := it.cursor.value;
      var n := it.Next();
      match n {
        case Err(e) => return Err(e);
        case Ok(None) =>
          assert seen + [] == seen;
          return Ok(seen);
        case Ok(Some(t)) =>
          match ValidFrom(tasks, it.cursor.value) {
            case Err(_) =>
            case Ok(rest) => assert seen + ([t] + rest) == (seen + [t]) + rest;
          }
          seen := seen + [t];
      }
    }
  }

  /** The positions the iterator yields from `from` on, when no task lacks its fields. */
  function ValidPositions(tasks: seq<InputTask>, from: nat): (r: seq<nat>)
    requires from <= |tasks|
    ensures forall k :: 0 <= k < |r| ==> from <= r[k] < |tasks|
    ensures forall k, l :: 0 <= k < l < |r| ==> r[k] < r[l]
    decreases |tasks| - from
  {
    var k := NextStop(tasks, from);
    if k == |tasks| then [] else [k] + ValidPositions(tasks, k + 1)
  }

  /** When every task has scheduler fields, the iterator yields the tasks at those positions, in order. */
  lemma {:induction false} ValidTasksYield(tasks: seq<InputTask>, from: nat)
    requires from <= |tasks|
    requires forall i :: 0 <= i < |tasks| ==> tasks[i].schedulerFields.Some?
    ensures ValidFrom(tasks, from).Ok?
    ensures |ValidFrom(tasks, from).value| == |ValidPositions(tasks, from)|
    ensures forall k :: 0 <= k < |ValidPositions(tasks, from)| ==>
      ValidFrom(tasks, from).value[k] == tasks[ValidPositions(tasks, from)[k]]
    decreases |tasks| - from
  {
    var k := NextStop(tasks, from);
    if k < |tasks| {
      ValidTasksYield(tasks, k + 1);
    }
  }

  /** The positions visited are exactly those of the tasks not marked excluded. */
  lemma {:induction false} ValidPositionsIncluded(tasks: seq<InputTask>, from: nat)
    requires from <= |tasks|
    requires forall i :: 0 <= i < |tasks| ==> tasks[i].schedulerFields.Some?
    ensures forall i :: from <= i < |tasks| ==> (Included(tasks[i]) <==> i in ValidPositions(tasks, from))
    decreases |tasks| - from
  {
    var k := NextStop(tasks, from);
    if k < |tasks| {
      ValidPositionsIncluded(tasks, k + 1);
    }
  }

  // ---------------------------------------------------------------- get_assignees

  /** `person_to_person_id[p]`: the position of `p` in key order. */
  function PersonId(people: seq<string>, p: string, from: nat): (r: Option<nat>)
    requires from <= |people|
    ensures r.Some? ==> from <= r.value < |people| && people[r.value] == p
    ensures r.None? ==> forall i :: from <= i < |people| ==> people[i] != p
    decreases |people| - from
  {
    if from == |people| then None
    else if people[from] == p then Some(from)
    else PersonId(people, p, from + 1)
  }

  /** `id` is the id of the person named `p`. */
  predicate Names(people: seq<string>, p: string, id: int) {
    PersonId(people, p, 0).Some? && PersonId(people, p, 0).value == id
  }

  /** With distinct keys, a person's id is their position. */
  lemma PersonIdIsPosition(m: SchedMetadata, i: nat)
    requires DistinctPeople(m) && i < |m.people|
    ensures PersonId(m.people, m.people[i], 0) == Some(i)
  {
  }

  /** The ids of the named people, in order; an unknown name is a missing key. */
  function SpecificIds(people: seq<string>, names: seq<string>, n: nat): (r: Result<seq<int>, Exc>)
    requires n <= |names|
    ensures r.Ok? ==> |r.value| == n && forall k :: 0 <= k < n ==>
      PersonId(people, names[k], 0).Some? && PersonId(people, names[k], 0).value == r.value[k]
    ensures r.Err? ==> exists k :: 0 <= k < n && PersonId(people, names[k], 0).None? && r.error == MissingKey(names[k])
  {
    if n == 0 then Ok([])
    else match SpecificIds(people, names, n - 1)
      case Err(e) => Err(e)
      case Ok(ids) =>
        match PersonId(people, names[n - 1], 0)
        case None => Err(MissingKey(names[n - 1]))
        case Some(id) => Ok(ids + [id])
  }

  /** Adds the ids of one team's members to the pool, each id once. */
  function AddMembers(people: seq<string>, members: seq<string>, pool: seq<int>, n: nat): Result<seq<int>, Exc>
    requires n <= |members|
  {
    if n == 0 then Ok(pool)
    else match AddMembers(people, members, pool, n - 1)
      case Err(e) => Err(e)
      case Ok(p) =>
        match PersonId(people, members[n - 1], 0)
        case None => Err(MissingKey(members[n - 1]))
        case Some(id) => Ok(if id in p then p else p + [id])
  }

  /** The pool of the first `n` team names: the union of their members' ids. */
  function TeamPool(m: SchedMetadata, teams: seq<string>, n: nat): Result<seq<int>, Exc>
    requires n <= |teams|
  {
    if n == 0 then Ok([])
    else match TeamPool(m, teams, n - 1)
      case Err(e) => Err(e)
      case Ok(pool) =>
        if teams[n - 1] !in m.teams then Err(MissingKey(teams[n - 1]))
        else AddMembers(m.people, m.teams[teams[n - 1]], pool, |m.teams[teams[n - 1]]|)
  }

  /** `id` belongs to one of the first `n` members. */
  predicate AmongMembers(people: seq<string>, members: seq<string>, n: nat, id: int)
    requires n <= |members|
  {
    exists k :: 0 <= k < n && Names(people, members[k], id)
  }

  /** `id` belongs to a member of one of the first `n` teams named. */
  predicate AmongTeams(m: SchedMetadata, teams: seq<string>, n: nat, id: int)
    requires n <= |teams|
  {
    exists k, q :: 0 <= k < n && teams[k] in m.teams && 0 <= q < |m.teams[teams[k]]| && Names(m.people, m.teams[teams[k]][q], id)
  }

  predicate Distinct(ids: seq<int>) {
    forall a, b :: 0 <= a < b < |ids| ==> ids[a] != ids[b]
  }

  /** No id enters the pool twice. */
  lemma {:induction false} AddMembersDistinct(people: seq<string>, members: seq<string>, pool: seq<int>, n: nat)
    requires n <= |members|
    requires Distinct(pool)
    ensures AddMembers(people, members, pool, n).Ok? ==> Distinct(AddMembers(people, members, pool, n).value)
  {
    if n > 0 {
      AddMembersDistinct(people, members, pool, n - 1);
    }
  }

  /** The pool grows by the ids of the first `n` members and by nothing else. */
  lemma {:induction false} AddMembersIds(people: seq<string>, members: seq<string>, pool: seq<int>, n: nat)
    requires n <= |members|
    ensures AddMembers(people, members, pool, n).Ok? ==>
      forall id :: id in AddMembers(people, members, pool, n).value <==> (id in pool || AmongMembers(people, members, n, id))
  {
    if n > 0 {
      AddMembersIds(people, members, pool, n - 1);
      match AddMembers(people, members, pool, n - 1)
      case Err(_) =>
      case Ok(p0) =>
        match PersonId(people, members[n - 1], 0)
        case None =>
        case Some(new_id) =>
          var p := AddMembers(people, members, pool, n).value;
          forall id
            ensures id in p <==> (id in pool || AmongMembers(people, members, n, id))
          {
            if id in p && id !in p0 {
              assert Names(people, members[n - 1], id);
            }
            if AmongMembers(people, members, n, id) {
              var k :| 0 <= k < n && Names(people, members[k], id);
              if k == n - 1 {
                assert id == new_id;
              }
            }
          }
    }
  }

  /** The union of team pools holds each id once. */
  lemma {:induction false} TeamPoolDistinct(m: SchedMetadata, teams: seq<string>, n: nat)
    requires n <= |teams|
    ensures TeamPool(m, teams, n).Ok? ==> Distinct(TeamPool(m, teams, n).value)
  {
    if n > 0 {
      TeamPoolDistinct(m, teams, n - 1);
      if TeamPool(m, teams, n - 1).Ok? && teams[n - 1] in m.teams {
        var members := m.teams[teams[n - 1]];
        AddMembersDistinct(m.people, members, TeamPool(m, teams, n - 1).value, |members|);
      }
    }
  }

  /** The pool is exactly the ids of the named teams' members. */
  lemma {:induction false} TeamPoolMembers(m: SchedMetadata, teams: seq<string>, n: nat)
    requires n <= |teams|
    ensures TeamPool(m, teams, n).Ok? ==> forall id :: id in TeamPool(m, teams, n).value <==> AmongTeams(m, teams, n, id)
  {
    if n > 0 {
      TeamPoolMembers(m, teams, n - 1);
      if TeamPool(m, teams, n - 1).Ok? && teams[n - 1] in m.teams {
        var pool := TeamPool(m, teams, n - 1).value;
        var members := m.teams[teams[n - 1]];
        AddMembersIds(m.people, members, pool, |members|);
        if TeamPool(m, teams, n).Ok? {
          var p := TeamPool(m, teams, n).value;
          forall id
            ensures id in p <==> AmongTeams(m, teams, n, id)
          {
            if id in p && id !in pool {
              var q :| 0 <= q < |members| && Names(m.people, members[q], id);
              assert 0 <= n - 1 < n && teams[n - 1] in m.teams && Names(m.people, m.teams[teams[n - 1]][q], id);
            }
            if AmongTeams(m, teams, n, id) {
              var k, q :| 0 <= k < n && teams[k] in m.teams && 0 <= q < |m.teams[teams[k]]| &&
                Names(m.people, m.teams[teams[k]][q], id);
              if k == n - 1 {
                assert Names(m.people, members[q], id);
              }
            }
          }
        }
      }
    }
  }

  /** `get_assignees`: the specific ids and the eligible pool of a task. */
  function GetAssignees(task: InputTask, m: SchedMetadata): (r: Result<(seq<int>, seq<int>), Exc>)
    ensures task.assignees == [] ==> r == Ok(([], seq(|m.people|, i requires 0 <= i < |m.people| => i)))
    ensures task.assignees != [] && task.specificAssignments ==>
      r.Ok? == SpecificIds(m.people, task.assignees, |task.assignees|).Ok? &&
      (r.Ok? ==> r.value.1 == [] && |r.value.0| == |task.assignees|)
    ensures task.assignees != [] && !task.specificAssignments ==>
      r.Ok? == TeamPool(m, task.assignees, |task.assignees|).Ok? && (r.Ok? ==> r.value.0 == [])
  {
    if task.assignees == [] then Ok(([], seq(|m.people|, i requires 0 <= i < |m.people| => i)))
    else if task.specificAssignments then
      match SpecificIds(m.people, task.assignees, |task.assignees|)
      case Err(e) => Err(e)
      case Ok(ids) => Ok((ids, []))
    else
      match TeamPool(m, task.assignees, |task.assignees|)
      case Err(e) => Err(e)
      case Ok(pool) => Ok(([], pool))
  }

  // ---------------------------------------------------------------- densify_dates

  datatype DateResult = DateResult(startOffset: int, endOffset: int, remainingEstimate: int)

  /** `densify_dates`: the task's window and remaining work in business days from today. */
  function DensifyDates(task: InputTask, today: Date, horizon: int): Result<Option<DateResult>, Exc> {
    if task.endDate.Some? && today > task.endDate.value then Ok(None)
    else if task.startDate.Some? && task.endDate.Some? && task.estimate.None? then
      var effectiveStart := if today >= task.startDate.value then today else task.startDate.value;
      Ok(Some(DateResult(BusdaysBetween(today, effectiveStart), BusdaysBetween(today, task.endDate.value),
        BusdaysBetween(effectiveStart, task.endDate.value))))
    else if task.startDate.None? && task.endDate.None? && task.estimate.None? then
      Err(NoWayToInferEstimate(task.name))
    else if task.estimate.Some? then
      var end := if task.endDate.Some? then BusdaysBetween(today, task.endDate.value) else horizon;
      var start := if task.startDate.Some? then BusdaysBetween(today, task.startDate.value) else 0;
      var alreadyComplete := if task.startDate.Some? then BusdaysBetween(task.startDate.value, today) else 0;
      Ok(Some(DateResult(start, end, task.estimate.value - alreadyComplete)))
    else Err(UnexpectedDateLayout(task.name))
  }

  /** A task that ended before today is dropped, whatever else it has. */
  lemma EndedTasksDropped(task: InputTask, today: Date, horizon: int)
    requires task.endDate.Some? && task.endDate.value < today
    ensures DensifyDates(task, today, horizon) == Ok(None)
  {
  }

  /**
   * With both dates and no estimate the window runs from the later of today and the start
   * to the end, and the work left fills it exactly.
   */
  lemma DerivedEstimate(task: InputTask, today: Date, horizon: int)
    requires task.startDate.Some? && task.endDate.Some? && task.estimate.None? && today <= task.endDate.value
    ensures DensifyDates(task, today, horizon).Ok? && DensifyDates(task, today, horizon).value.Some?
    ensures var d := DensifyDates(task, today, horizon).value.value;
      d.startOffset >= 0 && d.startOffset + d.remainingEstimate == d.endOffset &&
      d.endOffset == task.endDate.value - today &&
      (task.startDate.value >= today ==> d.startOffset == task.startDate.value - today)
  {
  }

  /** Without an estimate, the two dates are needed: none or only one of them is an error. */
  lemma MissingEstimateNeedsBothDates(task: InputTask, today: Date, horizon: int)
    requires task.estimate.None? && !(task.startDate.Some? && task.endDate.Some?)
    requires task.endDate.None? || today <= task.endDate.value
    ensures DensifyDates(task, today, horizon).Err?
    ensures task.startDate.None? && task.endDate.None? ==>
      DensifyDates(task, today, horizon) == Err(NoWayToInferEstimate(task.name))
    ensures task.startDate.Some? != task.endDate.Some? ==>
      DensifyDates(task, today, horizon) == Err(UnexpectedDateLayout(task.name))
  {
  }

  /**
   * With an estimate, a missing end means the horizon and a missing start means today; the
   * work left is the estimate less the days since the start, so a future start adds to it.
   */
  lemma EstimatedWindow(task: InputTask, today: Date, horizon: int)
    requires task.estimate.Some? && (task.endDate.None? || today <= task.endDate.value)
    ensures DensifyDates(task, today, horizon).Ok? && DensifyDates(task, today, horizon).value.Some?
    ensures var d := DensifyDates(task, today, horizon).value.value;
      d.endOffset == (if task.endDate.Some? then task.endDate.value - today else horizon) &&
      d.startOffset == (if task.startDate.Some? then task.startDate.value - today else 0) &&
      d.remainingEstimate == task.estimate.value + d.startOffset &&
      (task.startDate.Some? && task.startDate.value > today ==> d.remainingEstimate > task.estimate.value)
  {
  }

  // ---------------------------------------------------------------- find_solution

  /** `sum([task.estimate for task in G])`: a task without an estimate makes `sum` raise. */
  function Horizon(tasks: seq<InputTask>, n: nat): (r: Result<int, Exc>)
    requires n <= |tasks|
    ensures r.Err? <==> exists i :: 0 <= i < n && tasks[i].estimate.None?
  {
    if n == 0 then Ok(0)
    else match Horizon(tasks, n - 1)
      case Err(e) => Err(e)
      case Ok(h) =>
        match tasks[n - 1].estimate
        case None => Err(TypeError("sum"))
        case Some(e) => Ok(h + e)
  }

  /** One task of the first loop: its scheduler fields under id `id`. */
  function Prepare(task: InputTask, id: int, m: SchedMetadata, today: Date, horizon: int): Result<InputTask, Exc> {
    match GetAssignees(task, m)
    case Err(e) => Err(e)
    case Ok(assignees) =>
      match DensifyDates(task, today, horizon)
      case Err(e) => Err(e)
      case Ok(None) =>
        Ok(task.(schedulerFields := Some(SchedulerFields(id, assignees.1, assignees.0, 0, horizon, 0, true))))
      case Ok(Some(d)) =>
        Ok(task.(schedulerFields := Some(SchedulerFields(id, assignees.1, assignees.0,
          d.startOffset, d.endOffset, d.remainingEstimate, false))))
  }

  /** The values of the first `n` results, or the first failure among them. */
  function AllOk(rs: seq<Result<InputTask, Exc>>, n: nat): Result<seq<InputTask>, Exc>
    requires n <= |rs|
  {
    if n == 0 then Ok([])
    else match AllOk(rs, n - 1)
      case Err(e) => Err(e)
      case Ok(ts) =>
        match rs[n - 1]
        case Err(e) => Err(e)
        case Ok(t) => Ok(ts + [t])
  }

  /** All results are values exactly when the fold succeeds; a failure is the first one met. */
  lemma {:induction false} AllOkValues(rs: seq<Result<InputTask, Exc>>, n: nat)
    requires n <= |rs|
    ensures AllOk(rs, n).Ok? <==> forall i :: 0 <= i < n ==> rs[i].Ok?
    ensures AllOk(rs, n).Ok? ==> |AllOk(rs, n).value| == n && forall i :: 0 <= i < n ==> AllOk(rs, n).value[i] == rs[i].value
    ensures AllOk(rs, n).Err? ==> exists i :: (0 <= i < n && rs[i] == Err(AllOk(rs, n).error) &&
      forall j :: 0 <= j < i ==> rs[j].Ok?)
  {
    if n > 0 {
      AllOkValues(rs, n - 1);
    }
  }

  lemma {:induction false} AllOkFailureStays(rs: seq<Result<InputTask, Exc>>, n: nat, k: nat)
    requires n <= k <= |rs| && AllOk(rs, n).Err?
    ensures AllOk(rs, k) == AllOk(rs, n)
    decreases k
  {
    if k > n {
      AllOkFailureStays(rs, n, k - 1);
    }
  }

  lemma AllOkStep(rs: seq<Result<InputTask, Exc>>, n: nat, done: seq<InputTask>, t: InputTask)
    requires n < |rs| && AllOk(rs, n) == Ok(done) && rs[n] == Ok(t)
    ensures AllOk(rs, n + 1) == Ok(done + [t])
  {
  }

  lemma AllOkStops(rs: seq<Result<InputTask, Exc>>, n: nat, e: Exc)
    requires n < |rs| && AllOk(rs, n).Ok? && rs[n] == Err(e)
    ensures AllOk(rs, |rs|) == Err(e)
  {
    AllOkFailureStays(rs, n + 1, |rs|);
  }

  function Prepared(tasks: seq<InputTask>, m: SchedMetadata, today: Date, horizon: int): (r: seq<Result<InputTask, Exc>>)
    ensures |r| == |tasks| && forall i :: 0 <= i < |tasks| ==> r[i] == Prepare(tasks[i], i, m, today, horizon)
  {
    seq(|tasks|, i requires 0 <= i < |tasks| => Prepare(tasks[i], i, m, today, horizon))
  }

  /** After the first loop every task carries scheduler fields, its position being its id. */
  lemma PreparedHaveFields(tasks: seq<InputTask>, m: SchedMetadata, today: Date, horizon: int)
    requires AllOk(Prepared(tasks, m, today, horizon), |tasks|).Ok?
    ensures |AllOk(Prepared(tasks, m, today, horizon), |tasks|).value| == |tasks|
    ensures forall i :: 0 <= i < |tasks| ==>
      AllOk(Prepared(tasks, m, today, horizon), |tasks|).value[i].schedulerFields.Some? &&
      AllOk(Prepared(tasks, m, today, horizon), |tasks|).value[i].schedulerFields.value.id == i &&
      AllOk(Prepared(tasks, m, today, horizon), |tasks|).value[i].name == tasks[i].name
  {
    AllOkValues(Prepared(tasks, m, today, horizon), |tasks|);
  }

  /**
   * A task is excluded exactly when `densify_dates` drops it, and then its window is the whole
   * horizon with no work; otherwise its window and work are those `densify_dates` gives. Its
   * assignee lists are those of `get_assignees`, and nothing else of the task changes.
   */
  lemma PrepareFields(task: InputTask, id: int, m: SchedMetadata, today: Date, horizon: int)
    requires Prepare(task, id, m, today, horizon).Ok?
    ensures var p := Prepare(task, id, m, today, horizon).value;
      p.schedulerFields.Some? && p == task.(schedulerFields := p.schedulerFields) &&
      p.schedulerFields.value.id == id &&
      GetAssignees(task, m) == Ok((p.schedulerFields.value.specific, p.schedulerFields.value.pool)) &&
      (p.schedulerFields.value.exclude <==> DensifyDates(task, today, horizon) == Ok(None))
    ensures var f := Prepare(task, id, m, today, horizon).value.schedulerFields.value;
      (f.exclude ==> f.earliestStart == 0 && f.latestEnd == horizon && f.estimate == 0) &&
      (!f.exclude ==> DensifyDates(task, today, horizon) == Ok(Some(DateResult(f.earliestStart, f.latestEnd, f.estimate))))
  {
  }

  /** The `i`-th task after the first loop is the `i`-th task prepared under id `i`. */
  lemma PreparedAt(tasks: seq<InputTask>, m: SchedMetadata, today: Date, horizon: int, i: nat)
    requires AllOk(Prepared(tasks, m, today, horizon), |tasks|).Ok? && i < |tasks|
    ensures Prepare(tasks[i], i, m, today, horizon).Ok?
    ensures |AllOk(Prepared(tasks, m, today, horizon), |tasks|).value| == |tasks|
    ensures AllOk(Prepared(tasks, m, today, horizon), |tasks|).value[i] == Prepare(tasks[i], i, m, today, horizon).value
  {
    var rs := Prepared(tasks, m, today, horizon);
    AllOkValues(rs, |tasks|);
    assert rs[i] == Prepare(tasks[i], i, m, today, horizon);
  }

  /** The horizon is the sum of all estimates. */
  function EstimateTotal(tasks: seq<InputTask>, n: nat): int
    requires n <= |tasks|
  {
    if n == 0 then 0 else EstimateTotal(tasks, n - 1) + tasks[n - 1].estimate.GetOr(0)
  }

  lemma {:induction false} HorizonIsTotal(tasks: seq<InputTask>, n: nat)
    requires n <= |tasks| && Horizon(tasks, n).Ok?
    ensures Horizon(tasks, n).value == EstimateTotal(tasks, n)
  {
    if n > 0 {
      HorizonIsTotal(tasks, n - 1);
    }
  }

  // ---------------------------------------------------------------- schedule: dependency check

  /** The position of the node named `name`. */
  function NodeIndex(nodes: seq<InputTask>, name: string, from: nat): (r: Option<nat>)
    requires from <= |nodes|
    ensures r.Some? ==> from <= r.value < |nodes| && nodes[r.value].name == name
    ensures r.None? ==> forall i :: from <= i < |nodes| ==> nodes[i].name != name
    decreases |nodes| - from
  {
    if from == |nodes| then None
    else if nodes[from].name == name then Some(from)
    else NodeIndex(nodes, name, from + 1)
  }

  /** The edge leads to a task that is excluded, that is, already done. */
  predicate TargetExcluded(nodes: seq<InputTask>, e: Edge) {
    match NodeIndex(nodes, e.target, 0)
    case None => false
    case Some(j) => nodes[j].schedulerFields.Some? && nodes[j].schedulerFields.value.exclude
  }

  /** The check of the successors of task `name`, over the edges from `j` on in order. */
  function SuccessorCheck(nodes: seq<InputTask>, edges: seq<Edge>, name: string, j: nat): (r: Outcome<Exc>)
    requires j <= |edges|
    ensures r.Pass? <==> forall l :: j <= l < |edges| && edges[l].source == name ==> !TargetExcluded(nodes, edges[l])
    ensures r.Fail? ==> exists l :: (j <= l < |edges| && edges[l].source == name && TargetExcluded(nodes, edges[l]) &&
      r == Fail(DependsOnDone(name, edges[l].target)))
    decreases |edges| - j
  {
    if j == |edges| then Pass
    else if edges[j].source == name && TargetExcluded(nodes, edges[j]) then Fail(DependsOnDone(name, edges[j].target))
    else SuccessorCheck(nodes, edges, name, j + 1)
  }

  /** A valid task may not depend on an excluded one: what `schedule` checks, over nodes from `i` on. */
  function DependencyCheck(nodes: seq<InputTask>, edges: seq<Edge>, i: nat): (r: Outcome<Exc>)
    requires i <= |nodes|
    requires forall k :: 0 <= k < |nodes| ==> nodes[k].schedulerFields.Some?
    ensures r.Pass? <==> forall k, l :: (i <= k < |nodes| && Included(nodes[k]) && 0 <= l < |edges| &&
      edges[l].source == nodes[k].name) ==> !TargetExcluded(nodes, edges[l])
    ensures r.Fail? ==> exists k, l :: (i <= k < |nodes| && Included(nodes[k]) && 0 <= l < |edges| &&
      edges[l].source == nodes[k].name && TargetExcluded(nodes, edges[l]) &&
      r == Fail(DependsOnDone(nodes[k].name, edges[l].target)))
    decreases |nodes| - i
  {
    if i == |nodes| then Pass
    else if !Included(nodes[i]) then DependencyCheck(nodes, edges, i + 1)
    else match SuccessorCheck(nodes, edges, nodes[i].name, 0)
      case Fail(e) => Fail(e)
      case Pass => DependencyCheck(nodes, edges, i + 1)
  }

  /** The inner loop of the dependency check: the successors of task `name`. */
  method CheckSuccessors(nodes: seq<InputTask>, edges: seq<Edge>, name: string) returns (r: Outcome<Exc>)
    requires forall k :: 0 <= k < |nodes| ==> nodes[k].schedulerFields.Some?
    ensures r == SuccessorCheck(nodes, edges, name, 0)
  {
    for j := 0 to |edges|
      invariant SuccessorCheck(nodes, edges, name, 0) == SuccessorCheck(nodes, edges, name, j)
    {
      if edges[j].source == name {
        var s := NodeIndex(nodes, edges[j].target, 0);
        if s.Some? && nodes[s.value].schedulerFields.value.exclude {
          return Fail(DependsOnDone(name, edges[j].target));
        }
      }
    }
    return Pass;
  }

  /** The outer loop of the dependency check, over the tasks `ValidTasks` yields. */
  method CheckDependencies(nodes: seq<InputTask>, edges: seq<Edge>) returns (r: Outcome<Exc>)
    requires forall k :: 0 <= k < |nodes| ==> nodes[k].schedulerFields.Some?
    ensures r == DependencyCheck(nodes, edges, 0)
  {
    for i := 0 to |nodes|
      invariant DependencyCheck(nodes, edges, 0) == DependencyCheck(nodes, edges, i)
    {
      if !nodes[i].schedulerFields.value.exclude {
        var check := CheckSuccessors(nodes, edges, nodes[i].name);
        if check.Fail? {
          return check;
        }
      }
    }
    return Pass;
  }

  // ---------------------------------------------------------------- applying the answer

  /** One valid task once the solver's answer is applied. */
  function Apply(task: InputTask, assignments: map<string, SchedulerAssignment>, people: seq<string>, today: Date): Result<InputTask, Exc> {
    if task.name !in assignments then Err(MissingKey(task.name))
    else
      var a := assignments[task.name];
      if !(0 <= a.assignee < |people|) then Err(UnknownPersonId(a.assignee))
      else
        var start := if !task.parallelizable || task.startDate.None? then Some(BusdaysOffset(today, a.start)) else task.startDate;
        Ok(task.(startDate := start, endDate := Some(BusdaysOffset(today, a.end)), assignees := [people[a.assignee]]))
  }

  /** The second loop: valid tasks get the answer, excluded ones stay as they are. */
  function Applied(tasks: seq<InputTask>, assignments: map<string, SchedulerAssignment>, people: seq<string>, today: Date): (r: seq<Result<InputTask, Exc>>)
    requires forall i :: 0 <= i < |tasks| ==> tasks[i].schedulerFields.Some?
    ensures |r| == |tasks| && forall i :: 0 <= i < |tasks| ==>
      r[i] == if Included(tasks[i]) then Apply(tasks[i], assignments, people, today) else Ok(tasks[i])
  {
    seq(|tasks|, i requires 0 <= i < |tasks| =>
      if Included(tasks[i]) then Apply(tasks[i], assignments, people, today) else Ok(tasks[i]))
  }

  /**
   * With an answer, a valid task ends where the solver put it, starts there unless it is
   * parallelizable with a start of its own, and is assigned the one chosen person.
   */
  lemma ApplyFields(task: InputTask, assignments: map<string, SchedulerAssignment>, people: seq<string>, today: Date)
    requires Apply(task, assignments, people, today).Ok?
    ensures task.name in assignments && 0 <= assignments[task.name].assignee < |people|
    ensures var a := assignments[task.name];
      Apply(task, assignments, people, today).value == task.(endDate := Some(today + a.end), assignees := [people[a.assignee]],
        startDate := if task.parallelizable && task.startDate.Some? then task.startDate else Some(today + a.start))
  {
  }

  /** The `i`-th task after the second loop: the answer applied if it is valid, else unchanged. */
  lemma AppliedAt(tasks: seq<InputTask>, assignments: map<string, SchedulerAssignment>, people: seq<string>, today: Date, i: nat)
    requires forall k :: 0 <= k < |tasks| ==> tasks[k].schedulerFields.Some?
    requires AllOk(Applied(tasks, assignments, people, today), |tasks|).Ok? && i < |tasks|
    ensures |AllOk(Applied(tasks, assignments, people, today), |tasks|).value| == |tasks|
    ensures !Included(tasks[i]) ==> AllOk(Applied(tasks, assignments, people, today), |tasks|).value[i] == tasks[i]
    ensures Included(tasks[i]) ==> (Apply(tasks[i], assignments, people, today).Ok? &&
      AllOk(Applied(tasks, assignments, people, today), |tasks|).value[i] == Apply(tasks[i], assignments, people, today).value)
  {
    var rs := Applied(tasks, assignments, people, today);
    AllOkValues(rs, |tasks|);
    assert rs[i] == if Included(tasks[i]) then Apply(tasks[i], assignments, people, today) else Ok(tasks[i]);
  }

  /** A valid task the solver gave no answer for makes the lookup fail. */
  lemma {:induction false} MissingAnswerFails(tasks: seq<InputTask>, assignments: map<string, SchedulerAssignment>, people: seq<string>, today: Date, i: nat)
    requires forall k :: 0 <= k < |tasks| ==> tasks[k].schedulerFields.Some?
    requires i < |tasks| && Included(tasks[i]) && tasks[i].name !in assignments
    ensures AllOk(Applied(tasks, assignments, people, today), |tasks|).Err?
  {
    var rs := Applied(tasks, assignments, people, today);
    assert rs[i] == Err(MissingKey(tasks[i].name));
    AllOkValues(rs, |tasks|);
  }

  // ---------------------------------------------------------------- find_solution

  /**
   * `find_solution` for a solver answering `assignments` and `makespan`: the graph with its
   * tasks updated, and the makespan, or None when the solver found nothing.
   */
  function FindSolutionOf(g: Graph, m: SchedMetadata, today: Date,
                          assignments: map<string, SchedulerAssignment>, makespan: int): Result<(Graph, Option<int>), Exc> {
    match Horizon(g.nodes, |g.nodes|)
    case Err(e) => Err(e)
    case Ok(horizon) =>
      match AllOk(Prepared(g.nodes, m, today, horizon), |g.nodes|)
      case Err(e) => Err(e)
      case Ok(prepared) =>
        PreparedHaveFields(g.nodes, m, today, horizon);
        match DependencyCheck(prepared, g.edges, 0)
        case Fail(e) => Err(e)
        case Pass =>
          if |assignments| == 0 then Ok((g.(nodes := prepared), None))
          else match AllOk(Applied(prepared, assignments, m.people, today), |prepared|)
            case Err(e) => Err(e)
            case Ok(applied) => Ok((g.(nodes := applied), Some(makespan)))
  }

  /** An empty answer from the solver means no solution, though every task got its fields. */
  lemma NoAnswerNoSolution(g: Graph, m: SchedMetadata, today: Date, makespan: int)
    requires FindSolutionOf(g, m, today, map[], makespan).Ok?
    ensures FindSolutionOf(g, m, today, map[], makespan).value.1 == None
    ensures FindSolutionOf(g, m, today, map[], makespan).value.0.edges == g.edges
    ensures |FindSolutionOf(g, m, today, map[], makespan).value.0.nodes| == |g.nodes|
    ensures forall i :: 0 <= i < |g.nodes| ==>
      FindSolutionOf(g, m, today, map[], makespan).value.0.nodes[i].schedulerFields.Some?
  {
    var horizon := Horizon(g.nodes, |g.nodes|).value;
    PreparedHaveFields(g.nodes, m, today, horizon);
  }

  /** A valid task that depends on an excluded one stops `find_solution` whatever the solver says. */
  lemma DependencyOnDoneFails(g: Graph, m: SchedMetadata, today: Date,
                              assignments: map<string, SchedulerAssignment>, makespan: int, k: nat, l: nat)
    requires Horizon(g.nodes, |g.nodes|).Ok?
    requires AllOk(Prepared(g.nodes, m, today, Horizon(g.nodes, |g.nodes|).value), |g.nodes|).Ok?
    requires var p := AllOk(Prepared(g.nodes, m, today, Horizon(g.nodes, |g.nodes|).value), |g.nodes|).value;
      k < |p| && l < |g.edges| && g.edges[l].source == p[k].name && p[k].schedulerFields.Some? &&
      Included(p[k]) && TargetExcluded(p, g.edges[l])
    ensures FindSolutionOf(g, m, today, assignments, makespan).Err?
  {
    var horizon := Horizon(g.nodes, |g.nodes|).value;
    PreparedHaveFields(g.nodes, m, today, horizon);
  }

  /** The first loop of `find_solution`: ids in graph order and the scheduler fields of each task. */
  method PrepareTasks(tasks: seq<InputTask>, m: SchedMetadata, today: Date, horizon: int) returns (r: Result<seq<InputTask>, Exc>)
    ensures r == AllOk(Prepared(tasks, m, today, horizon), |tasks|)
  {
    ghost var rs := Prepared(tasks, m, today, horizon);
    var out: seq<InputTask> := [];
    for id := 0 to |tasks|
      invariant AllOk(rs, id) == Ok(out)
    {
      var task := tasks[id];
      var assignees := GetAssignees(task, m);
      if assignees.Err? {
        AllOkStops(rs, id, assignees.error);
        return Err(assignees.error);
      }
      var specific, pool := assignees.value.0, assignees.value.1;
      var res := DensifyDates(task, today, horizon);
      if res.Err? {
        AllOkStops(rs, id, res.error);
        return Err(res.error);
      }
      if res.value.None? {
        task := task.(schedulerFields := Some(SchedulerFields(id, pool, specific, 0, horizon, 0, true)));
      } else {
        var d := res.value.value;
        task := task.(schedulerFields := Some(SchedulerFields(id, pool, specific, d.startOffset, d.endOffset, d.remainingEstimate, false)));
      }
      AllOkStep(rs, id, out, task);
      out := out + [task];
    }
    return Ok(out);
  }

  /** The second loop of `find_solution`, over the tasks `ValidTasks` yields. */
  method ApplyAnswer(tasks: seq<InputTask>, assignments: map<string, SchedulerAssignment>, people: seq<string>, today: Date)
    returns (r: Result<seq<InputTask>, Exc>)
    requires forall i :: 0 <= i < |tasks| ==> tasks[i].schedulerFields.Some?
    ensures r == AllOk(Applied(tasks, assignments, people, today), |tasks|)
  {
    ghost var rs := Applied(tasks, assignments, people, today);
    var out: seq<InputTask> := [];
    for i := 0 to |tasks|
      invariant AllOk(rs, i) == Ok(out)
    {
      var task := tasks[i];
      if !task.schedulerFields.value.exclude {
        if task.name !in assignments {
          AllOkStops(rs, i, MissingKey(task.name));
          return Err(MissingKey(task.name));
        }
        var assignment := assignments[task.name];
        if !task.parallelizable || task.startDate.None? {
          task := task.(startDate := Some(BusdaysOffset(today, assignment.start)));
        }
        task := task.(endDate := Some(BusdaysOffset(today, assignment.end)));
        if !(0 <= assignment.assignee < |people|) {
          AllOkStops(rs, i, UnknownPersonId(assignment.assignee));
          return Err(UnknownPersonId(assignment.assignee));
        }
        task := task.(assignees := [people[assignment.assignee]]);
      }
      AllOkStep(rs, i, out, task);
      out := out + [task];
    }
    return Ok(out);
  }

  /** `find_solution`, the solver's answer given as `assignments` and `makespan`. */
  method FindSolution(g: Graph, m: SchedMetadata, today: Date,
                      assignments: map<string, SchedulerAssignment>, makespan: int)
    returns (r: Result<(Graph, Option<int>), Exc>)
    ensures r == FindSolutionOf(g, m, today, assignments, makespan)
  {
    var horizon := Horizon(g.nodes, |g.nodes|);
    if horizon.Err? {
      return Err(horizon.error);
    }
    var prepared := PrepareTasks(g.nodes, m, today, horizon.value);
    if prepared.Err? {
      return Err(prepared.error);
    }
    var tasks := prepared.value;
    PreparedHaveFields(g.nodes, m, today, horizon.value);
    var check := CheckDependencies(tasks, g.edges);
    if check.Fail? {
      return Err(check.error);
    }
    if |assignments| == 0 {
      return Ok((g.(nodes := tasks), None));
    }
    var applied := ApplyAnswer(tasks, assignments, m.people, today);
    if applied.Err? {
      return Err(applied.error);
    }
    return Ok((g.(nodes := applied.value), Some(makespan)));
  }
}
