/** The check that every assignee a task names was declared in some team. */
module RwVerify {
  import opened Wrappers
  import opened Text
  import opened Exceptions
  import opened RwTypes

  /** Whether an assignee text names a registered person, allocation included. */
  predicate Known(people: set<Person>, a: string) {
    ParsePerson(a, true).Ok? && ParsePerson(a, true).value in people
  }

  /** What checking one parsed assignee of `task` raises, if anything. */
  function Judge(people: set<Person>, task: string, parsed: Result<Person, Exc>): (r: Outcome<Exc>)
    ensures r.Pass? <==> parsed.Ok? && parsed.value in people
    ensures parsed.Err? ==> r == Fail(parsed.error)
    ensures parsed.Ok? && parsed.value !in people ==> r == Fail(UnknownAssignee(task, parsed.value.name))
  {
    match parsed
    case Err(e) => Fail(e)
    case Ok(p) => if p in people then Pass else Fail(UnknownAssignee(task, p.name))
  }

  /** The first failure among `checks[j..]`, run in order. */
  function FirstFailure(checks: seq<Outcome<Exc>>, j: nat): (r: Outcome<Exc>)
    requires j <= |checks|
    ensures r.Pass? <==> forall k :: j <= k < |checks| ==> checks[k].Pass?
    ensures r.Fail? ==> exists k :: (j <= k < |checks| && r == checks[k] &&
      forall l :: j <= l < k ==> checks[l].Pass?)
    decreases |checks| - j
  {
    if j == |checks| then Pass
    else if checks[j].Fail? then checks[j] else FirstFailure(checks, j + 1)
  }

  /** The checks of one task's assignees, in order. */
  function TaskChecks(people: set<Person>, t: InputTask): (r: seq<Outcome<Exc>>)
    ensures |r| == |t.assignees|
    ensures forall k :: 0 <= k < |r| ==> r[k] == Judge(people, t.name, ParsePerson(t.assignees[k], true))
  {
    seq(|t.assignees|, k requires 0 <= k < |t.assignees| => Judge(people, t.name, ParsePerson(t.assignees[k], true)))
  }

  /** The outcome of each task's inner loop, in task order. */
  function TaskOutcomes(people: set<Person>, tasks: seq<InputTask>): (r: seq<Outcome<Exc>>)
    ensures |r| == |tasks|
    ensures forall n :: 0 <= n < |r| ==> r[n] == FirstFailure(TaskChecks(people, tasks[n]), 0)
  {
    seq(|tasks|, n requires 0 <= n < |tasks| => FirstFailure(TaskChecks(people, tasks[n]), 0))
  }

  /** `verify`: returns normally or raises for the first bad assignee, changing nothing. */
  function Verify(people: set<Person>, tasks: seq<InputTask>): Outcome<Exc> {
    FirstFailure(TaskOutcomes(people, tasks), 0)
  }

  /** `verify` passes exactly when every assignee of every task is a registered person. */
  lemma VerifyPasses(people: set<Person>, tasks: seq<InputTask>)
    ensures Verify(people, tasks).Pass? <==>
      forall n, k :: 0 <= n < |tasks| && 0 <= k < |tasks[n].assignees| ==> Known(people, tasks[n].assignees[k])
  {
    var outcomes := TaskOutcomes(people, tasks);
    if Verify(people, tasks).Pass? {
      forall n, k | 0 <= n < |tasks| && 0 <= k < |tasks[n].assignees|
        ensures Known(people, tasks[n].assignees[k])
      {
        assert outcomes[n].Pass?;
        assert TaskChecks(people, tasks[n])[k].Pass?;
      }
    } else {
      var n :| 0 <= n < |tasks| && outcomes[n].Fail?;
      var k :| 0 <= k < |tasks[n].assignees| && TaskChecks(people, tasks[n])[k].Fail?;
      assert !Known(people, tasks[n].assignees[k]);
    }
  }

  /**
   * A failure is the check of some assignee of some task: its person is unknown, or its text
   * is rejected by `parse_person` before any membership test.
   */
  lemma VerifyFailure(people: set<Person>, tasks: seq<InputTask>)
    requires Verify(people, tasks).Fail?
    ensures exists n, k :: (0 <= n < |tasks| && 0 <= k < |tasks[n].assignees| &&
      !Known(people, tasks[n].assignees[k]) &&
      Verify(people, tasks) == Judge(people, tasks[n].name, ParsePerson(tasks[n].assignees[k], true)))
  {
    var outcomes := TaskOutcomes(people, tasks);
    var n :| 0 <= n < |tasks| && Verify(people, tasks) == outcomes[n];
    var checks := TaskChecks(people, tasks[n]);
    var k :| 0 <= k < |checks| && outcomes[n] == checks[k];
    var j := Judge(people, tasks[n].name, ParsePerson(tasks[n].assignees[k], true));
    assert checks[k] == j;
    assert j.Fail?;
    assert !Known(people, tasks[n].assignees[k]);
    assert Verify(people, tasks) == j;
  }

  /** Tasks that name nobody never make `verify` raise. */
  lemma UnassignedTasksPass(people: set<Person>, tasks: seq<InputTask>)
    requires forall n :: 0 <= n < |tasks| ==> tasks[n].assignees == []
    ensures Verify(people, tasks) == Pass
  {
  }

  /**
   * Membership compares allocations too: `name:alloc` with an allocation other than 1 is not
   * the person registered as `name` with allocation 1 (`Alice:0.5` against `Alice`), so
   * `verify` names them as unknown.
   */
  lemma AllocationMustMatch(name: string, alloc: string, t: InputTask)
    requires ':' !in name && ':' !in alloc
    requires name != [] && !IsSpace(name[0]) && alloc != [] && !IsSpace(alloc[|alloc| - 1])
    requires ValidateAndConvertFloat(alloc).Ok? && ValidateAndConvertFloat(alloc).value != 1.0
    requires t.assignees == [name + ":" + alloc]
    ensures Verify({Person(name, 1.0)}, [t]) == Fail(UnknownAssignee(t.name, name))
  {
    ParsePersonWithAllocation(name, alloc);
    var checks := TaskChecks({Person(name, 1.0)}, t);
    assert checks[0] == Fail(UnknownAssignee(t.name, name));
    assert TaskOutcomes({Person(name, 1.0)}, [t])[0] == checks[0];
  }
}
