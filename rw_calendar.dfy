/**
 * The per-day assignment calendar: which tasks each person works on, day by day. The nested
 * `{date: {person: [task]}}` dictionary is flattened to one map keyed by (date, person); a
 * key that was never assigned reads as the empty list, as a `defaultdict` does.
 */
module RwCalendar {
  import opened Wrappers
  import opened Exceptions
  import opened Dates
  import opened RwTypes

  type Cal = map<(Date, string), seq<InputTask>>

  /** `cal[date][person]`. */
  function Get(c: Cal, d: Date, p: string): seq<InputTask> {
    if (d, p) in c then c[(d, p)] else []
  }

  /** `cal[date][person].append(task)`. */
  function Put(c: Cal, d: Date, p: string, t: InputTask): Cal {
    c[(d, p) := Get(c, d, p) + [t]]
  }

  /** Everything a calendar holds. */
  datatype CalState = CalState(minDate: Option<Date>, maxDate: Option<Date>, cal: Cal)

  class TaskCalendar {
    var minDate: Option<Date>
    var maxDate: Option<Date>
    var cal: Cal

    function State(): CalState
      reads this
    {
      CalState(minDate, maxDate, cal)
    }

    /** An empty calendar with no date range. */
    constructor ()
      ensures State() == CalState(None, None, map[])
    {
      minDate, maxDate, cal := None, None, map[];
    }

    /** `assign`: appends `task` to the person's list for that date, keeping what was there. */
    method Assign(person: string, date: Date, task: InputTask)
      modifies this
      ensures cal == Put(old(cal), date, person, task)
      ensures minDate == old(minDate) && maxDate == old(maxDate)
    {
      cal := cal[(date, person) := Get(cal, date, person) + [task]];
    }

    /**
     * `add`: every entry of `other` is appended to this calendar's list for the same date and
     * person, after what was there, duplicates kept. Adding a calendar to itself would append
     * to the lists being read and never finish, so `other` is another calendar.
     */
    method Add(other: TaskCalendar)
      requires other != this
      modifies this
      ensures forall d, p :: Get(cal, d, p) == Get(old(cal), d, p) + Get(other.cal, d, p)
      ensures minDate == old(minDate) && maxDate == old(maxDate)
    {
      var todo := other.cal.Keys;
      ghost var done: set<(Date, string)> := {};
      while todo != {}
        invariant todo + done == other.cal.Keys && todo !! done
        invariant forall d, p :: (d, p) in done ==> Get(cal, d, p) == Get(old(cal), d, p) + Get(other.cal, d, p)
        invariant forall d, p :: (d, p) !in done ==> Get(cal, d, p) == Get(old(cal), d, p)
        invariant minDate == old(minDate) && maxDate == old(maxDate)
        decreases |todo|
      {
        var key :| key in todo;
        ghost var before := cal;
        AssignAll(key.1, key.0, other.cal[key]);
        AddedKey(before, cal, key, other.cal[key]);
        todo := todo - {key};
        done := done + {key};
      }
    }

    static lemma AddedKey(before: Cal, after: Cal, key: (Date, string), tasks: seq<InputTask>)
      requires after == if tasks == [] then before else before[key := Get(before, key.0, key.1) + tasks]
      ensures Get(after, key.0, key.1) == Get(before, key.0, key.1) + tasks
      ensures forall d, p :: (d, p) != key ==> Get(after, d, p) == Get(before, d, p)
    {
    }

    /** The innermost loop of `add`: the tasks of one date and person, appended in order. */
    method AssignAll(person: string, date: Date, tasks: seq<InputTask>)
      modifies this
      ensures cal == if tasks == [] then old(cal) else old(cal)[(date, person) := Get(old(cal), date, person) + tasks]
      ensures minDate == old(minDate) && maxDate == old(maxDate)
    {
      ghost var prev := Get(cal, date, person);
      for i := 0 to |tasks|
        invariant cal == if i == 0 then old(cal) else old(cal)[(date, person) := prev + tasks[..i]]
        invariant minDate == old(minDate) && maxDate == old(maxDate)
      {
        ghost var mid := cal;
        Assign(person, date, tasks[i]);
        assert tasks[..i + 1] == tasks[..i] + [tasks[i]];
        assert Get(mid, date, person) == prev + tasks[..i];
        assert (prev + tasks[..i]) + [tasks[i]] == prev + tasks[..i + 1];
        assert cal == old(cal)[(date, person) := prev + tasks[..i + 1]];
      }
      assert tasks[..|tasks|] == tasks;
    }

    /**
     * `from_graph`: a calendar holding every task's days, in graph order. The source never
     * returns for a task whose walk starts but that names nobody, so no such task is given.
     */
    static method FromGraph(tasks: seq<InputTask>) returns (r: Result<TaskCalendar, Exc>)
      requires forall i :: 0 <= i < |tasks| ==> Terminates(tasks[i])
      ensures FromGraphOf(tasks, |tasks|).Ok? <==> r.Ok?
      ensures r.Ok? ==> fresh(r.value) && r.value.State() == FromGraphOf(tasks, |tasks|).value
    {
      var c := new TaskCalendar();
      for n := 0 to |tasks|
        invariant FromGraphOf(tasks, n).Ok? && c.State() == FromGraphOf(tasks, n).value
        invariant fresh(c)
      {
        var outcome := c.PlaceTaskAt(tasks[n]);
        if outcome.Fail? {
          PlaceFailureStays(tasks, n + 1, |tasks|);
          return Err(outcome.error);
        }
      }
      return Ok(c);
    }

    /** The body of `from_graph`'s loop for one task. */
    method PlaceTaskAt(task: InputTask) returns (outcome: Outcome<Exc>)
      requires Terminates(task)
      modifies this
      ensures PlaceTask(old(State()), task).Err? <==> outcome.Fail?
      ensures outcome.Fail? ==> outcome.error == PlaceTask(old(State()), task).error
      ensures outcome.Pass? ==> State() == PlaceTask(old(State()), task).value
    {
      if task.startDate.None? {
        return Fail(if minDate.Some? then TypeError("min") else TypeError("<"));
      }
      var date := task.startDate.value;
      minDate := Some(if minDate.Some? then Min(minDate.value, date) else date);
      if task.endDate.None? {
        return Fail(TypeError("<"));
      }
      var end := task.endDate.value;
      if date < end && task.estimate.None? {
        return Fail(TypeError(">"));
      }
      date := WalkTask(task, end, date, task.estimate.GetOr(0));
      maxDate := Some(if maxDate.Some? then Max(maxDate.value, date) else date);
      return Pass;
    }

    /** The `while` loop of `from_graph`: whole rounds over the assignees while the task has days left. */
    method WalkTask(task: InputTask, end: Date, start: Date, estimate: int) returns (date: Date)
      requires task.assignees != [] || !(start < end && estimate > 0)
      modifies this
      ensures (cal, date) == Walk(old(cal), task, end, start, estimate)
      ensures minDate == old(minDate) && maxDate == old(maxDate)
    {
      date := start;
      var est := estimate;
      while date < end && est > 0
        invariant task.assignees != [] || !(date < end && est > 0)
        invariant Walk(old(cal), task, end, start, estimate) == Walk(cal, task, end, date, est)
        invariant minDate == old(minDate) && maxDate == old(maxDate)
        decreases end - date
      {
        AssignRound(task, date);
        date := BusdaysOffset(date, |task.assignees|);
        est := est - |task.assignees|;
      }
    }

    /** The inner `for` loop: each assignee in turn gets the next day. */
    method AssignRound(task: InputTask, start: Date)
      modifies this
      ensures cal == AddRound(old(cal), task, start, |task.assignees|)
      ensures minDate == old(minDate) && maxDate == old(maxDate)
    {
      var date := start;
      for j := 0 to |task.assignees|
        invariant cal == AddRound(old(cal), task, start, j) && date == start + j
        invariant minDate == old(minDate) && maxDate == old(maxDate)
      {
        Assign(task.assignees[j], date, task);
        date := BusdaysOffset(date, 1);
      }
    }
  }

  function Min(a: int, b: int): int { if a <= b then a else b }
  function Max(a: int, b: int): int { if a >= b then a else b }

  /** The walk of a task whose dates and estimate let it start must have someone to give days to. */
  predicate Terminates(task: InputTask) {
    (task.startDate.Some? && task.endDate.Some? && task.estimate.Some? &&
     task.startDate.value < task.endDate.value && task.estimate.value > 0)
    ==> task.assignees != []
  }

  /** One pass of the inner `for` loop from date `d`: the first `j` assignees get one day each. */
  function AddRound(c: Cal, task: InputTask, d: Date, j: nat): Cal
    requires j <= |task.assignees|
  {
    if j == 0 then c else Put(AddRound(c, task, d, j - 1), d + j - 1, task.assignees[j - 1], task)
  }

  /** The `while` loop of `from_graph` from date `d` with `est` days left: the calendar and the final date. */
  function Walk(c: Cal, task: InputTask, end: Date, d: Date, est: int): (Cal, Date)
    requires task.assignees != [] || !(d < end && est > 0)
    decreases if d < end then end - d else 0
  {
    if d < end && est > 0 then
      Walk(AddRound(c, task, d, |task.assignees|), task, end, d + |task.assignees|, est - |task.assignees|)
    else (c, d)
  }

  /** One task placed on the calendar: the range widened and its days assigned. */
  function PlaceTask(s: CalState, task: InputTask): Result<CalState, Exc>
    requires Terminates(task)
  {
    match task.startDate
    case None => Err(if s.minDate.Some? then TypeError("min") else TypeError("<"))
    case Some(start) =>
      var minDate := Some(if s.minDate.Some? then Min(s.minDate.value, start) else start);
      match task.endDate
      case None => Err(TypeError("<"))
      case Some(end) =>
        if start < end && task.estimate.None? then Err(TypeError(">"))
        else
          var w := Walk(s.cal, task, end, start, task.estimate.GetOr(0));
          Ok(CalState(minDate, Some(if s.maxDate.Some? then Max(s.maxDate.value, w.1) else w.1), w.0))
  }

  /** The calendar of the first `n` tasks. */
  function FromGraphOf(tasks: seq<InputTask>, n: nat): Result<CalState, Exc>
    requires n <= |tasks| && forall i :: 0 <= i < |tasks| ==> Terminates(tasks[i])
  {
    if n == 0 then Ok(CalState(None, None, map[]))
    else match FromGraphOf(tasks, n - 1)
      case Err(e) => Err(e)
      case Ok(s) => PlaceTask(s, tasks[n - 1])
  }

  lemma {:induction false} PlaceFailureStays(tasks: seq<InputTask>, n: nat, k: nat)
    requires n <= k <= |tasks| && forall i :: 0 <= i < |tasks| ==> Terminates(tasks[i])
    requires FromGraphOf(tasks, n).Err?
    ensures FromGraphOf(tasks, k) == FromGraphOf(tasks, n)
    decreases k
  {
    if k > n {
      PlaceFailureStays(tasks, n, k - 1);
    }
  }

  // ---------------------------------------------------------------- properties of `from_graph`

  /** The final date of a walk, which does not depend on the calendar. */
  function WalkEnd(task: InputTask, end: Date, d: Date, est: int): Date
    requires task.assignees != [] || !(d < end && est > 0)
    decreases if d < end then end - d else 0
  {
    if d < end && est > 0 then WalkEnd(task, end, d + |task.assignees|, est - |task.assignees|) else d
  }

  lemma {:induction false} WalkEndIs(c: Cal, task: InputTask, end: Date, d: Date, est: int)
    requires task.assignees != [] || !(d < end && est > 0)
    ensures Walk(c, task, end, d, est).1 == WalkEnd(task, end, d, est)
    decreases if d < end then end - d else 0
  {
    if d < end && est > 0 {
      WalkEndIs(AddRound(c, task, d, |task.assignees|), task, end, d + |task.assignees|, est - |task.assignees|);
    }
  }

  /**
   * The loop test is made once per round, so the walk covers at least the days the task may
   * take, min(end - start, estimate), and at most `k - 1` days more for `k` assignees.
   */
  lemma {:induction false} WalkOverrun(task: InputTask, end: Date, d: Date, est: int)
    requires task.assignees != [] || !(d < end && est > 0)
    ensures var df := WalkEnd(task, end, d, est);
      if d < end && est > 0 then d + Min(end - d, est) <= df < d + Min(end - d, est) + |task.assignees|
      else df == d
    decreases if d < end then end - d else 0
  {
    if d < end && est > 0 {
      WalkOverrun(task, end, d + |task.assignees|, est - |task.assignees|);
    }
  }

  /** `t mod k`, written as the count-down that a rotation through `k` people performs. */
  function Turn(k: nat, t: nat): (r: nat)
    requires k > 0
    ensures r < k
    decreases t
  {
    if t < k then t else Turn(k, t - k)
  }

  /** Day `x` of a walk from `d` is worked by the assignee whose turn it is. */
  predicate Owner(task: InputTask, d: Date, x: Date, p: string) {
    |task.assignees| > 0 && d <= x && p == task.assignees[Turn(|task.assignees|, x - d)]
  }

  /** A round from `d` gives day `d + i` to the `i`-th assignee and touches nothing else. */
  lemma {:induction false} RoundEntries(c: Cal, task: InputTask, d: Date, j: nat, x: Date, p: string)
    requires j <= |task.assignees|
    ensures Get(AddRound(c, task, d, j), x, p) ==
      if d <= x < d + j && p == task.assignees[x - d] then Get(c, x, p) + [task] else Get(c, x, p)
  {
    if j > 0 {
      RoundEntries(c, task, d, j - 1, x, p);
    }
  }

  /**
   * A walk from `d` ending at `df` appends the task once to each day in [d, df), for the
   * assignee whose turn it is, the assignees taking the days in rotation.
   */
  lemma {:induction false} WalkEntries(c: Cal, task: InputTask, end: Date, d: Date, est: int, x: Date, p: string)
    requires task.assignees != [] || !(d < end && est > 0)
    ensures Get(Walk(c, task, end, d, est).0, x, p) ==
      if x < WalkEnd(task, end, d, est) && Owner(task, d, x, p) then Get(c, x, p) + [task] else Get(c, x, p)
    decreases if d < end then end - d else 0
  {
    if d < end && est > 0 {
      var k := |task.assignees|;
      var c1 := AddRound(c, task, d, k);
      WalkEntries(c1, task, end, d + k, est - k, x, p);
      RoundEntries(c, task, d, k, x, p);
      WalkOverrun(task, end, d + k, est - k);
      if x >= d + k {
        assert Turn(k, x - d) == Turn(k, x - (d + k));
      }
    }
  }

  /** A task `from_graph` can place: both dates are set, and an estimate when the walk may start. */
  predicate Placed(task: InputTask) {
    task.startDate.Some? && task.endDate.Some? &&
    (task.startDate.value < task.endDate.value ==> task.estimate.Some?)
  }

  /** The date a placed task's walk stops at. */
  function LastDay(task: InputTask): Date
    requires Terminates(task) && Placed(task)
  {
    WalkEnd(task, task.endDate.value, task.startDate.value, task.estimate.GetOr(0))
  }

  /** The task works person `p` on day `x`. */
  predicate Covers(task: InputTask, x: Date, p: string)
    requires Terminates(task) && Placed(task)
  {
    x < LastDay(task) && Owner(task, task.startDate.value, x, p)
  }

  /** The first `n` tasks that work `p` on day `x`, in graph order. */
  function Working(tasks: seq<InputTask>, n: nat, x: Date, p: string): seq<InputTask>
    requires n <= |tasks| && forall i :: 0 <= i < n ==> Terminates(tasks[i]) && Placed(tasks[i])
  {
    if n == 0 then [] else Working(tasks, n - 1, x, p) + (if Covers(tasks[n - 1], x, p) then [tasks[n - 1]] else [])
  }

  /** `from_graph` returns only when every task is placeable. */
  lemma {:induction false} PlacedWhenOk(tasks: seq<InputTask>, n: nat)
    requires n <= |tasks| && forall i :: 0 <= i < |tasks| ==> Terminates(tasks[i])
    requires FromGraphOf(tasks, n).Ok?
    ensures forall i :: 0 <= i < n ==> Placed(tasks[i])
  {
    if n > 0 {
      PlacedWhenOk(tasks, n - 1);
    }
  }

  /**
   * The calendar's list for day `x` and person `p` holds exactly the tasks whose walk gives
   * that day to that person, in graph order.
   */
  lemma {:induction false} CalendarEntries(tasks: seq<InputTask>, n: nat, x: Date, p: string)
    requires n <= |tasks| && forall i :: 0 <= i < |tasks| ==> Terminates(tasks[i])
    requires FromGraphOf(tasks, n).Ok?
    ensures forall i :: 0 <= i < n ==> Placed(tasks[i])
    ensures Get(FromGraphOf(tasks, n).value.cal, x, p) == Working(tasks, n, x, p)
  {
    PlacedWhenOk(tasks, n);
    if n > 0 {
      CalendarEntries(tasks, n - 1, x, p);
      var s := FromGraphOf(tasks, n - 1).value;
      var t := tasks[n - 1];
      WalkEntries(s.cal, t, t.endDate.value, t.startDate.value, t.estimate.GetOr(0), x, p);
      WalkEndIs(s.cal, t, t.endDate.value, t.startDate.value, t.estimate.GetOr(0));
    }
  }

  /** `min_date` is the earliest start and `max_date` the latest date a walk reached. */
  lemma {:induction false} CalendarRange(tasks: seq<InputTask>, n: nat)
    requires 0 < n <= |tasks| && forall i :: 0 <= i < |tasks| ==> Terminates(tasks[i])
    requires FromGraphOf(tasks, n).Ok?
    ensures forall i :: 0 <= i < n ==> Placed(tasks[i])
    ensures FromGraphOf(tasks, n).value.minDate.Some? && FromGraphOf(tasks, n).value.maxDate.Some?
    ensures forall i :: 0 <= i < n ==> tasks[i].startDate.Some? && FromGraphOf(tasks, n).value.minDate.value <= tasks[i].startDate.value
    ensures forall i :: 0 <= i < n ==> LastDay(tasks[i]) <= FromGraphOf(tasks, n).value.maxDate.value
    ensures exists i :: 0 <= i < n && FromGraphOf(tasks, n).value.minDate == tasks[i].startDate
    ensures exists i :: 0 <= i < n && Placed(tasks[i]) && FromGraphOf(tasks, n).value.maxDate == Some(LastDay(tasks[i]))
  {
    PlacedWhenOk(tasks, n);
    var s := FromGraphOf(tasks, n - 1).value;
    var t := tasks[n - 1];
    WalkEndIs(s.cal, t, t.endDate.value, t.startDate.value, t.estimate.GetOr(0));
    if n > 1 {
      CalendarRange(tasks, n - 1);
    }
  }
}
