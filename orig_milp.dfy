/**
 * backend/milp_solve.py: the bookkeeping around the MILP solver. `milp_schedule_graph`
 * gives every task an assignee pool and a latest end, numbers people and tasks densely,
 * hands them to `milp_solve`, and writes the solver's answers back onto the tasks.
 * `milp_solve` names one start variable per task, or one per person already assigned
 * (a split task), and turns the solved values into `Assignment` records.
 *
 * The constraint model and the solve itself are an oracle here: the solver status,
 * the makespan and the value of every start, end and person variable are inputs.
 */
module OrigMilp {
  import opened Wrappers
  import opened Exceptions
  import opened Dates
  import opened OrigTypes

  /** `end_date` as the milp path meets it: unset, a plain integer, or a date. */
  datatype EndDate = NoEnd | EndInt(n: int) | EndDay(day: Date)

  /**
   * The task fields the milp path reads and writes. `sharedAssigned` records that
   * `scheduler_assigned` is the very list object `user_assigned` is, so an append to one is
   * an append to the other.
   */
  datatype MTask = MTask(
    name: string,
    estimate: int,
    userAssigned: seq<string>,
    schedulerAssigned: seq<string>,
    sharedAssigned: bool,
    pool: seq<string>,
    endDate: EndDate,
    latestEnd: Option<int>,
    startDate: Option<Date>)

  // ---------------------------------------------------------------------------
  // Assignee pools (lines 165-184)

  /** The members of the team names among the first `k` assigned names, concatenated. */
  function Expand(names: seq<string>, teams: map<string, seq<string>>, k: nat): seq<string>
    requires k <= |names|
  {
    if k == 0 then []
    else Expand(names, teams, k - 1) + (if names[k - 1] in teams then teams[names[k - 1]] else [])
  }

  /** The pool is already non-empty when the direct name at `j` is met: the loop raises there. */
  predicate MixedAt(names: seq<string>, teams: map<string, seq<string>>, j: nat)
    requires j < |names|
  {
    names[j] !in teams && |Expand(names, teams, j)| > 0
  }

  predicate MixedIn(names: seq<string>, teams: map<string, seq<string>>) {
    exists j :: 0 <= j < |names| && MixedAt(names, teams, j)
  }

  /** What one iteration of the pool loop makes of a task. */
  function TaskPool(v: MTask, allPeople: seq<string>, teams: map<string, seq<string>>): Result<MTask, Exc> {
    if |v.userAssigned| == 0 then Ok(v.(pool := allPeople))
    else if MixedIn(v.userAssigned, teams) then Err(MixedAssignment(v.name))
    else
      var p := Expand(v.userAssigned, teams, |v.userAssigned|);
      if |p| == 0 then Ok(v.(pool := p, schedulerAssigned := v.userAssigned, sharedAssigned := true))
      else Ok(v.(pool := p))
  }

  /** A name is in the pool iff it is a member of one of the team names given. */
  lemma {:induction false} ExpandMembers(names: seq<string>, teams: map<string, seq<string>>, k: nat, x: string)
    requires k <= |names|
    ensures x in Expand(names, teams, k) <==>
      exists j :: 0 <= j < k && names[j] in teams && x in teams[names[j]]
  {
    if k > 0 {
      ExpandMembers(names, teams, k - 1, x);
      var last := if names[k - 1] in teams then teams[names[k - 1]] else [];
      assert x in Expand(names, teams, k) <==> x in Expand(names, teams, k - 1) || x in last;
    }
  }

  /** The pool is empty iff no team name before `k` lists anyone. */
  lemma {:induction false} ExpandEmpty(names: seq<string>, teams: map<string, seq<string>>, k: nat)
    requires k <= |names|
    ensures |Expand(names, teams, k)| == 0 <==>
      forall j :: 0 <= j < k && names[j] in teams ==> |teams[names[j]]| == 0
  {
    if k > 0 {
      ExpandEmpty(names, teams, k - 1);
    }
  }

  /**
   * `raise` happens exactly at a direct name that follows a team name listing someone;
   * a direct name before every such team passes and is left out of the pool.
   */
  lemma MixedAtTheRaise(names: seq<string>, teams: map<string, seq<string>>, j: nat)
    requires j < |names|
    ensures MixedAt(names, teams, j) <==>
      names[j] !in teams && exists i :: 0 <= i < j && names[i] in teams && |teams[names[i]]| > 0
  {
    ExpandEmpty(names, teams, j);
  }

  /** Only direct names: the task is accepted as named and its pool is empty. */
  lemma AllDirect(v: MTask, allPeople: seq<string>, teams: map<string, seq<string>>)
    requires |v.userAssigned| > 0
    requires forall j :: 0 <= j < |v.userAssigned| ==> v.userAssigned[j] !in teams
    ensures TaskPool(v, allPeople, teams) == Ok(v.(pool := [], schedulerAssigned := v.userAssigned, sharedAssigned := true))
  {
    ExpandEmpty(v.userAssigned, teams, |v.userAssigned|);
    forall j | 0 <= j < |v.userAssigned|
      ensures !MixedAt(v.userAssigned, teams, j)
    {
      ExpandEmpty(v.userAssigned, teams, j);
    }
  }

  /** The inner loop of lines 171-178 over one task's assigned names. */
  method PoolIn(name: string, names: seq<string>, teams: map<string, seq<string>>) returns (r: Result<seq<string>, Exc>)
    ensures r.Ok? <==> !MixedIn(names, teams)
    ensures r.Ok? ==> r.value == Expand(names, teams, |names|)
    ensures r.Err? ==> r.error == MixedAssignment(name)
  {
    var pool: seq<string> := [];
    for k := 0 to |names|
      invariant pool == Expand(names, teams, k)
      invariant forall j :: 0 <= j < k ==> !MixedAt(names, teams, j)
    {
      var a := names[k];
      if a in teams {
        pool := pool + teams[a];
      }
      if |pool| > 0 && a !in teams {
        assert MixedAt(names, teams, k);
        return Err(MixedAssignment(name));
      }
    }
    return Ok(pool);
  }

  /** Task `i` is the first whose pool cannot be built. */
  predicate FirstFailing(ts: seq<MTask>, allPeople: seq<string>, teams: map<string, seq<string>>, i: int) {
    && 0 <= i < |ts|
    && TaskPool(ts[i], allPeople, teams).Err?
    && forall j :: 0 <= j < i ==> TaskPool(ts[j], allPeople, teams).Ok?
  }

  /**
   * The loop of lines 165-184 over the tasks. It stops at the first task that mixes team
   * and direct names; the tasks before it have had their pools set by then.
   */
  method BuildPools(ts: seq<MTask>, allPeople: seq<string>, teams: map<string, seq<string>>) returns (r: Result<seq<MTask>, Exc>)
    ensures r.Ok? <==> forall i :: 0 <= i < |ts| ==> TaskPool(ts[i], allPeople, teams).Ok?
    ensures r.Ok? ==> |r.value| == |ts|
    ensures r.Ok? ==> forall i :: 0 <= i < |ts| ==> r.value[i] == TaskPool(ts[i], allPeople, teams).value
    ensures r.Err? ==> exists i :: FirstFailing(ts, allPeople, teams, i) && TaskPool(ts[i], allPeople, teams) == Err(r.error)
  {
    var out: seq<MTask> := [];
    for i := 0 to |ts|
      invariant |out| == i
      invariant forall j :: 0 <= j < i ==> TaskPool(ts[j], allPeople, teams).Ok? && out[j] == TaskPool(ts[j], allPeople, teams).value
    {
      var v := ts[i];
      if |v.userAssigned| == 0 {
        out := out + [v.(pool := allPeople)];
        continue;
      }
      var p := PoolIn(v.name, v.userAssigned, teams);
      if p.Err? {
        return Err(p.error);
      }
      var v' := v;
      if |p.value| == 0 {
        v' := v'.(schedulerAssigned := v.userAssigned, sharedAssigned := true);
      }
      out := out + [v'.(pool := p.value)];
    }
    return Ok(out);
  }

  // ---------------------------------------------------------------------------
  // Dense identifiers (lines 188-193)

  /** `fromId` numbers the elements of `xs` by position. */
  ghost predicate Listed<T>(xs: seq<T>, fromId: map<int, T>) {
    && (forall i :: i in fromId <==> 0 <= i < |xs|)
    && (forall i :: 0 <= i < |xs| ==> fromId[i] == xs[i])
  }

  /** `toId` sends every element of `xs` to its last position (later entries overwrite). */
  ghost predicate Indexed(xs: seq<string>, toId: map<string, int>) {
    && (forall p :: p in toId <==> p in xs)
    && (forall p :: p in toId ==> 0 <= toId[p] < |xs| && xs[toId[p]] == p)
    && (forall p, j :: p in toId && toId[p] < j < |xs| ==> xs[j] != p)
  }

  function Names(ts: seq<MTask>): (r: seq<string>)
    ensures |r| == |ts| && forall i :: 0 <= i < |ts| ==> r[i] == ts[i].name
  {
    seq(|ts|, i requires 0 <= i < |ts| => ts[i].name)
  }

  /** Distinct names (a set's elements, a graph's nodes) are numbered one to one. */
  lemma IndexedInverse<T>(xs: seq<string>, fromId: map<int, string>, toId: map<string, int>)
    requires NoDuplicates(xs) && Listed(xs, fromId) && Indexed(xs, toId)
    ensures forall i :: 0 <= i < |xs| ==> toId[fromId[i]] == i
    ensures forall p :: p in toId ==> fromId[toId[p]] == p
  {
    forall i | 0 <= i < |xs|
      ensures toId[fromId[i]] == i
    {
      var j := toId[xs[i]];
      if j < i {
        assert false;
      } else if j > i {
        assert false;
      }
    }
  }

  /** Lines 188-190. */
  method DensePeople(people: seq<string>) returns (idToPerson: map<int, string>, personToId: map<string, int>)
    ensures Listed(people, idToPerson)
    ensures Indexed(people, personToId)
  {
    idToPerson := map[];
    personToId := map[];
    for i := 0 to |people|
      invariant Listed(people[..i], idToPerson)
      invariant Indexed(people[..i], personToId)
    {
      var p := people[i];
      idToPerson := idToPerson[i := p];
      personToId := personToId[p := i];
      assert people[..i + 1] == people[..i] + [p];
    }
    assert people[..|people|] == people;
  }

  /** Lines 191-193. */
  method DenseTasks(ts: seq<MTask>) returns (idToTask: map<int, MTask>, taskToId: map<string, int>)
    ensures Listed(ts, idToTask)
    ensures Indexed(Names(ts), taskToId)
  {
    idToTask := map[];
    taskToId := map[];
    for i := 0 to |ts|
      invariant Listed(ts[..i], idToTask)
      invariant Indexed(Names(ts)[..i], taskToId)
    {
      var r := ts[i];
      idToTask := idToTask[i := r];
      taskToId := taskToId[r.name := i];
      assert ts[..i + 1] == ts[..i] + [r];
      assert Names(ts)[..i + 1] == Names(ts)[..i] + [r.name];
    }
    assert ts[..|ts|] == ts;
    assert Names(ts)[..|ts|] == Names(ts);
  }

  // ---------------------------------------------------------------------------
  // Latest ends (lines 197-204)

  /**
   * `latest_end` in business days from today. An integer end of 0 is falsy and so gives
   * none; a date end, read back from today, is the end date again.
   */
  function LatestEnd(e: EndDate, today: Date): (r: Option<int>)
    ensures r.None? <==> e.NoEnd? || e == EndInt(0)
    ensures e.EndInt? && r.Some? ==> r.value == e.n
    ensures e.EndDay? ==> r.Some? && BusdaysOffset(today, r.value) == e.day
  {
    match e
    case NoEnd => None
    case EndInt(n) => if n == 0 then None else Some(n)
    case EndDay(d) => Some(BusdaysBetween(today, d))
  }

  method SetLatestEnds(ts: seq<MTask>, today: Date) returns (ts': seq<MTask>)
    ensures |ts'| == |ts|
    ensures forall i :: 0 <= i < |ts| ==> ts'[i] == ts[i].(latestEnd := LatestEnd(ts[i].endDate, today))
  {
    ts' := ts;
    for i := 0 to |ts|
      invariant |ts'| == |ts|
      invariant forall j :: 0 <= j < i ==> ts'[j] == ts[j].(latestEnd := LatestEnd(ts[j].endDate, today))
      invariant forall j :: i <= j < |ts| ==> ts'[j] == ts[j]
    {
      var v := ts'[i];
      v := v.(latestEnd := None);
      match v.endDate {
        case NoEnd =>
        case EndInt(n) =>
          if n != 0 {
            v := v.(latestEnd := Some(n));
          }
        case EndDay(d) =>
          v := v.(latestEnd := Some(BusdaysBetween(today, d)));
      }
      ts' := ts'[i := v];
    }
  }

  // ---------------------------------------------------------------------------
  // Start variables of `milp_solve` (lines 45-66) and `get_effective_id` (lines 29-30)

  /** A start-variable id: a whole task's id, or subtask `index` of a split task. */
  datatype Key = Whole(task: int) | Part(task: int, index: int)

  function Parts(i: int, m: nat): (r: seq<Key>)
    ensures |r| == m && forall j :: 0 <= j < m ==> r[j] == Part(i, j)
  {
    seq(m, j requires 0 <= j < m => Part(i, j))
  }

  /** The start variables of task `i`: one, or one per person already assigned. */
  function TaskKeys(i: int, t: MTask): seq<Key> {
    if |t.schedulerAssigned| == 0 then [Whole(i)] else Parts(i, |t.schedulerAssigned|)
  }

  /** `starts.keys()` after the first `n` tasks, in insertion order. */
  function KeysOf(ts: seq<MTask>, n: nat): seq<Key>
    requires n <= |ts|
  {
    if n == 0 then [] else KeysOf(ts, n - 1) + TaskKeys(n - 1, ts[n - 1])
  }

  /** `task_to_subtasks` after the first `n` tasks. */
  function SubtasksOf(ts: seq<MTask>, n: nat): map<int, seq<Key>>
    requires n <= |ts|
  {
    if n == 0 then map[]
    else if |ts[n - 1].schedulerAssigned| == 0 then SubtasksOf(ts, n - 1)
    else SubtasksOf(ts, n - 1)[n - 1 := Parts(n - 1, |ts[n - 1].schedulerAssigned|)]
  }


  /** Which ids the first `n` tasks give start variables. */
  predicate KeyOfTask(ts: seq<MTask>, n: nat, key: Key)
    requires n <= |ts|
  {
    0 <= key.task < n &&
    if |ts[key.task].schedulerAssigned| == 0 then key.Whole?
    else key.Part? && 0 <= key.index < |ts[key.task].schedulerAssigned|
  }

  /** The subtask ids of task `i`'s first `m` people, each mapped back to `i`. */
  function PartOwners(i: int, m: nat): map<Key, int> {
    if m == 0 then map[] else PartOwners(i, m - 1)[Part(i, m - 1) := i]
  }

  /** `subtask_id_to_task_id` after the first `n` tasks. */
  function OwnersOf(ts: seq<MTask>, n: nat): map<Key, int>
    requires n <= |ts|
  {
    if n == 0 then map[] else OwnersOf(ts, n - 1) + PartOwners(n - 1, |ts[n - 1].schedulerAssigned|)
  }

  lemma {:induction false} PartOwnersMembership(i: int, m: nat, key: Key)
    ensures key in PartOwners(i, m) <==> key.Part? && key.task == i && 0 <= key.index < m
    ensures key in PartOwners(i, m) ==> PartOwners(i, m)[key] == i
  {
    if m > 0 {
      PartOwnersMembership(i, m - 1, key);
    }
  }

  /** Exactly the subtask ids are owned, each by its own task. */
  lemma {:induction false} OwnersMembership(ts: seq<MTask>, n: nat, key: Key)
    requires n <= |ts|
    ensures key in OwnersOf(ts, n) <==> key.Part? && KeyOfTask(ts, n, key)
    ensures key in OwnersOf(ts, n) ==> OwnersOf(ts, n)[key] == key.task
  {
    if n > 0 {
      OwnersMembership(ts, n - 1, key);
      PartOwnersMembership(n - 1, |ts[n - 1].schedulerAssigned|, key);
    }
  }

  lemma {:induction false} KeysMembership(ts: seq<MTask>, n: nat, key: Key)
    requires n <= |ts|
    ensures key in KeysOf(ts, n) <==> KeyOfTask(ts, n, key)
  {
    if n > 0 {
      KeysMembership(ts, n - 1, key);
      var t := ts[n - 1];
      assert key in KeysOf(ts, n) <==> key in KeysOf(ts, n - 1) || key in TaskKeys(n - 1, t);
      if key in TaskKeys(n - 1, t) && |t.schedulerAssigned| > 0 {
        var j :| 0 <= j < |t.schedulerAssigned| && TaskKeys(n - 1, t)[j] == key;
      }
      if KeyOfTask(ts, n, key) && key.task == n - 1 && |t.schedulerAssigned| > 0 {
        assert TaskKeys(n - 1, t)[key.index] == key;
      }
    }
  }

  predicate Distinct(keys: seq<Key>) {
    forall a, b :: 0 <= a < b < |keys| ==> keys[a] != keys[b]
  }

  lemma {:induction false} KeysDistinct(ts: seq<MTask>, n: nat)
    requires n <= |ts|
    ensures Distinct(KeysOf(ts, n))
    ensures forall a :: 0 <= a < |KeysOf(ts, n)| ==> KeysOf(ts, n)[a].task < n
  {
    if n > 0 {
      KeysDistinct(ts, n - 1);
      var before := KeysOf(ts, n - 1);
      var mine := TaskKeys(n - 1, ts[n - 1]);
      var all := KeysOf(ts, n);
      assert all == before + mine;
      forall a, b | 0 <= a < b < |all|
        ensures all[a] != all[b]
      {
        if b >= |before| {
          assert all[b] == mine[b - |before|] && all[b].task == n - 1;
          if a >= |before| {
            assert all[a] == mine[a - |before|];
          } else {
            assert all[a] == before[a];
          }
        }
      }
    }
  }

  lemma {:induction false} SubtasksMembership(ts: seq<MTask>, n: nat, i: int)
    requires n <= |ts|
    ensures i in SubtasksOf(ts, n) <==> 0 <= i < n && |ts[i].schedulerAssigned| > 0
    ensures i in SubtasksOf(ts, n) ==> SubtasksOf(ts, n)[i] == Parts(i, |ts[i].schedulerAssigned|)
  {
    if n > 0 {
      SubtasksMembership(ts, n - 1, i);
    }
  }

  /** The subtask map does not count as a start variable itself; a split task has none. */
  predicate WellKeyed(keys: seq<Key>, owners: map<Key, int>) {
    && Distinct(keys)
    && (forall k :: 0 <= k < |keys| && keys[k] in owners ==> Whole(owners[keys[k]]) !in keys)
  }

  /** The maps `milp_solve` builds fit together: start keys are distinct, a split task's id is none of them. */
  lemma RegisteredWellKeyed(ts: seq<MTask>)
    ensures WellKeyed(KeysOf(ts, |ts|), OwnersOf(ts, |ts|))
  {
    var keys := KeysOf(ts, |ts|);
    var owners := OwnersOf(ts, |ts|);
    KeysDistinct(ts, |ts|);
    forall k | 0 <= k < |keys| && keys[k] in owners
      ensures Whole(owners[keys[k]]) !in keys
    {
      OwnersMembership(ts, |ts|, keys[k]);
      KeysMembership(ts, |ts|, Whole(owners[keys[k]]));
    }
  }

  /** The original task a start-variable id belongs to (line 140). */
  function Original(key: Key, owners: map<Key, int>): Key {
    if key in owners then Whole(owners[key]) else key
  }

  /**
   * `get_effective_id`: the first subtask of a split task, the task itself otherwise.
   * Indexing an empty subtask list is an IndexError.
   */
  function EffectiveId(id: int, subtasks: map<int, seq<Key>>): (r: Result<Key, Exc>)
    ensures id !in subtasks ==> r == Ok(Whole(id))
    ensures r.Err? <==> id in subtasks && |subtasks[id]| == 0
    ensures r.Ok? && id in subtasks ==> r.value == subtasks[id][0]
  {
    var ids := if id in subtasks then subtasks[id] else [Whole(id)];
    if |ids| == 0 then Err(IndexError) else Ok(ids[0])
  }

  /** Every task's effective id is one of the start variables, and it maps back to the task. */
  lemma EffectiveIdMapsBack(ts: seq<MTask>, i: int)
    requires 0 <= i < |ts|
    ensures EffectiveId(i, SubtasksOf(ts, |ts|)).Ok?
    ensures EffectiveId(i, SubtasksOf(ts, |ts|)).value in KeysOf(ts, |ts|)
    ensures Original(EffectiveId(i, SubtasksOf(ts, |ts|)).value, OwnersOf(ts, |ts|)) == Whole(i)
  {
    SubtasksMembership(ts, |ts|, i);
    var r := EffectiveId(i, SubtasksOf(ts, |ts|));
    KeysMembership(ts, |ts|, r.value);
    OwnersMembership(ts, |ts|, r.value);
  }

  /** The inner loop of lines 55-60: one subtask id per person already assigned to task `i`. */
  method SplitTask(i: int, m: nat, owners: map<Key, int>) returns (parts: seq<Key>, owners': map<Key, int>)
    ensures parts == Parts(i, m)
    ensures owners' == owners + PartOwners(i, m)
  {
    parts, owners' := [], owners;
    for j := 0 to m
      invariant parts == Parts(i, j)
      invariant owners' == owners + PartOwners(i, j)
    {
      parts := parts + [Part(i, j)];
      owners' := owners'[Part(i, j) := i];
    }
  }

  /**
   * Every name a task's start variables look up has a person id: its pool when nobody is
   * assigned yet (line 48), its assigned people otherwise (line 60).
   */
  predicate Registered(t: MTask, people: set<string>) {
    if |t.schedulerAssigned| == 0 then forall k :: 0 <= k < |t.pool| ==> t.pool[k] in people
    else forall k :: 0 <= k < |t.schedulerAssigned| ==> t.schedulerAssigned[k] in people
  }

  /**
   * A task naming only direct people keeps them as its assigned people, so one that is not
   * in the registry has no person id and registration fails on it.
   */
  lemma DirectUnregistered(v: MTask, allPeople: seq<string>, teams: map<string, seq<string>>, today: Date, k: nat)
    requires forall j :: 0 <= j < |v.userAssigned| ==> v.userAssigned[j] !in teams
    requires k < |v.userAssigned| && v.userAssigned[k] !in allPeople
    ensures TaskPool(v, allPeople, teams).Ok?
    ensures !Registered(Prepared(v, allPeople, teams, today), set p | p in allPeople)
  {
    AllDirect(v, allPeople, teams);
  }

  /** The ids of the start variables and the two subtask maps. */
  datatype Registration = Registration(keys: seq<Key>, subtasks: map<int, seq<Key>>, owners: map<Key, int>)

  /**
   * Lines 45-66 without the solver variables. A name with no person id raises KeyError;
   * otherwise the start variable ids and the two subtask maps are built.
   */
  method RegisterTasks(ts: seq<MTask>, personToId: map<string, int>) returns (r: Result<Registration, Exc>)
    ensures r.Ok? <==> forall i :: 0 <= i < |ts| ==> Registered(ts[i], personToId.Keys)
    ensures r.Err? ==> r.error == KeyError
    ensures r.Ok? ==> r.value == Registration(KeysOf(ts, |ts|), SubtasksOf(ts, |ts|), OwnersOf(ts, |ts|))
  {
    var keys, subtasks, owners := [], map[], map[];
    for i := 0 to |ts|
      invariant keys == KeysOf(ts, i) && subtasks == SubtasksOf(ts, i) && owners == OwnersOf(ts, i)
      invariant forall j :: 0 <= j < i ==> Registered(ts[j], personToId.Keys)
    {
      var task := ts[i];
      if |task.schedulerAssigned| == 0 {
        if !(forall k :: 0 <= k < |task.pool| ==> task.pool[k] in personToId) {
          return Err(KeyError);
        }
        keys := keys + [Whole(i)];
        assert owners == OwnersOf(ts, i) + PartOwners(i, 0);
        continue;
      }
      if !(forall k :: 0 <= k < |task.schedulerAssigned| ==> task.schedulerAssigned[k] in personToId) {
        return Err(KeyError);
      }
      var parts;
      parts, owners := SplitTask(i, |task.schedulerAssigned|, owners);
      keys := keys + parts;
      subtasks := subtasks[i := parts];
    }
    return Ok(Registration(keys, subtasks, owners));
  }

  // ---------------------------------------------------------------------------
  // Result collection (lines 116-151)

  datatype Assignment = Assignment(task: int, taskName: string, person: int, start: int, end: int, personName: string)

  /** What the solver answered for one start variable's start, end and person. */
  datatype Sol = Sol(start: int, end: int, person: int)

  datatype SolveStatus = Optimal | Feasible | Infeasible | ModelInvalid | Unknown

  /** The record made for one start variable; an unknown task or person id is a KeyError. */
  function Entry(key: Key, owners: map<Key, int>, ts: seq<MTask>, sol: Key -> Sol, idToPerson: map<int, string>): Result<Assignment, Exc> {
    var orig := Original(key, owners);
    var s := sol(key);
    if !orig.Whole? || !(0 <= orig.task < |ts|) || s.person !in idToPerson then Err(KeyError)
    else Ok(Assignment(orig.task, ts[orig.task].name, s.person, s.start, s.end, idToPerson[s.person]))
  }

  datatype Collected = Collected(ret: seq<Assignment>, processed: set<Key>) | Failed(error: Exc)

  /** The loop of lines 137-149 over the first `k` start variables, as written: line 149 records the start variable's id. */
  function CollectOf(keys: seq<Key>, owners: map<Key, int>, ts: seq<MTask>, sol: Key -> Sol, idToPerson: map<int, string>, k: nat): Collected
    requires k <= |keys|
  {
    if k == 0 then Collected([], {})
    else
      var prev := CollectOf(keys, owners, ts, sol, idToPerson, k - 1);
      if prev.Failed? || Original(keys[k - 1], owners) in prev.processed then prev
      else
        var e := Entry(keys[k - 1], owners, ts, sol, idToPerson);
        if e.Err? then Failed(e.error)
        else Collected(prev.ret + [e.value], prev.processed + {keys[k - 1]})
  }

  /**
   * With the maps `milp_solve` builds, the skip of line 141 never fires: every start
   * variable yields its own record, so a split task appears once per subtask.
   */
  lemma {:induction false} NeverSkips(keys: seq<Key>, owners: map<Key, int>, ts: seq<MTask>, sol: Key -> Sol, idToPerson: map<int, string>, k: nat)
    requires WellKeyed(keys, owners) && k <= |keys|
    ensures CollectOf(keys, owners, ts, sol, idToPerson, k).Collected? <==>
      forall j :: 0 <= j < k ==> Entry(keys[j], owners, ts, sol, idToPerson).Ok?
    ensures CollectOf(keys, owners, ts, sol, idToPerson, k).Collected? ==>
      && |CollectOf(keys, owners, ts, sol, idToPerson, k).ret| == k
      && (forall j :: 0 <= j < k ==>
            CollectOf(keys, owners, ts, sol, idToPerson, k).ret[j] == Entry(keys[j], owners, ts, sol, idToPerson).value)
      && (forall key :: key in CollectOf(keys, owners, ts, sol, idToPerson, k).processed <==> key in keys[..k])
    ensures CollectOf(keys, owners, ts, sol, idToPerson, k).Failed? ==>
      CollectOf(keys, owners, ts, sol, idToPerson, k).error == KeyError
  {
    if k > 0 {
      NeverSkips(keys, owners, ts, sol, idToPerson, k - 1);
      var prev := CollectOf(keys, owners, ts, sol, idToPerson, k - 1);
      var key := keys[k - 1];
      assert keys[..k] == keys[..k - 1] + [key];
      if prev.Collected? {
        assert Original(key, owners) !in prev.processed;
      }
    }
  }

  /**
   * The tail of `milp_solve`: an infeasible or failed solve gives `([], -1)`; a solved
   * model the collected records and the makespan.
   */
  method CollectResults(status: SolveStatus, makespan: int, keys: seq<Key>, owners: map<Key, int>, ts: seq<MTask>,
                        sol: Key -> Sol, idToPerson: map<int, string>) returns (r: Result<(seq<Assignment>, int), Exc>)
    ensures !(status.Optimal? || status.Feasible?) ==> r == Ok(([], -1))
    ensures (status.Optimal? || status.Feasible?) ==>
      && (r.Ok? <==> CollectOf(keys, owners, ts, sol, idToPerson, |keys|).Collected?)
      && (r.Ok? ==> r.value == (CollectOf(keys, owners, ts, sol, idToPerson, |keys|).ret, makespan))
      && (r.Err? ==> r.error == CollectOf(keys, owners, ts, sol, idToPerson, |keys|).error)
  {
    if status == Infeasible || !(status == Optimal || status == Feasible) {
      return Ok(([], -1));
    }
    var ret: seq<Assignment> := [];
    var processed: set<Key> := {};
    for k := 0 to |keys|
      invariant CollectOf(keys, owners, ts, sol, idToPerson, k) == Collected(ret, processed)
    {
      var taskId := keys[k];
      var original := if taskId in owners then Whole(owners[taskId]) else taskId;
      if original in processed {
        continue;
      }
      var s := sol(taskId);
      if !original.Whole? || !(0 <= original.task < |ts|) || s.person !in idToPerson {
        FailedStays(keys, owners, ts, sol, idToPerson, k + 1, |keys|);
        return Err(KeyError);
      }
      ret := ret + [Assignment(original.task, ts[original.task].name, s.person, s.start, s.end, idToPerson[s.person])];
      processed := processed + {taskId};
    }
    return Ok((ret, makespan));
  }

  lemma {:induction false} FailedStays(keys: seq<Key>, owners: map<Key, int>, ts: seq<MTask>, sol: Key -> Sol, idToPerson: map<int, string>, k: nat, m: nat)
    requires k <= m <= |keys| && CollectOf(keys, owners, ts, sol, idToPerson, k).Failed?
    ensures CollectOf(keys, owners, ts, sol, idToPerson, m) == CollectOf(keys, owners, ts, sol, idToPerson, k)
    decreases m
  {
    if m > k {
      FailedStays(keys, owners, ts, sol, idToPerson, k, m - 1);
    }
  }

  // ---------------------------------------------------------------------------
  // Applying the results (lines 207-210)

  /**
   * One result written back: dates as offsets from today, the person appended to the
   * assigned names, and so to `scheduler_assigned` too when that is the same list.
   */
  function ApplyOne(t: MTask, r: Assignment, today: Date): MTask {
    t.(startDate := Some(BusdaysOffset(today, r.start)),
       endDate := EndDay(BusdaysOffset(today, r.end)),
       userAssigned := t.userAssigned + [r.personName],
       schedulerAssigned := if t.sharedAssigned then t.schedulerAssigned + [r.personName] else t.schedulerAssigned)
  }

  datatype Applied = Applied(tasks: seq<MTask>) | ApplyFailed(error: Exc)

  /** The loop over the first `k` results; a result naming no task id is a KeyError. */
  function ApplyOf(ret: seq<Assignment>, ts: seq<MTask>, today: Date, k: nat): Applied
    requires k <= |ret|
  {
    if k == 0 then Applied(ts)
    else
      var prev := ApplyOf(ret, ts, today, k - 1);
      var r := ret[k - 1];
      if prev.ApplyFailed? then prev
      else if !(0 <= r.task < |prev.tasks|) then ApplyFailed(KeyError)
      else Applied(prev.tasks[r.task := ApplyOne(prev.tasks[r.task], r, today)])
  }

  /** The people of the first `k` results for task `i`, in order. */
  function PeopleFor(ret: seq<Assignment>, i: int, k: nat): seq<string>
    requires k <= |ret|
  {
    if k == 0 then []
    else PeopleFor(ret, i, k - 1) + (if ret[k - 1].task == i then [ret[k - 1].personName] else [])
  }

  /** The last of the first `k` results for task `i`. */
  function LastFor(ret: seq<Assignment>, i: int, k: nat): Option<Assignment>
    requires k <= |ret|
  {
    if k == 0 then None
    else if ret[k - 1].task == i then Some(ret[k - 1])
    else LastFor(ret, i, k - 1)
  }

  /**
   * After the loop each task carries every person the solver gave it, appended in result
   * order (in `scheduler_assigned` too when it shares the list), and the dates of its last
   * result; the other fields are untouched. The loop
   * fails iff some result names an id with no task.
   */
  lemma {:induction false} ApplyFacts(ret: seq<Assignment>, ts: seq<MTask>, today: Date, k: nat, i: int)
    requires k <= |ret| && 0 <= i < |ts|
    ensures ApplyOf(ret, ts, today, k).Applied? <==> forall j :: 0 <= j < k ==> 0 <= ret[j].task < |ts|
    ensures ApplyOf(ret, ts, today, k).ApplyFailed? ==> ApplyOf(ret, ts, today, k).error == KeyError
    ensures ApplyOf(ret, ts, today, k).Applied? ==>
      var t' := ApplyOf(ret, ts, today, k).tasks;
      var last := LastFor(ret, i, k);
      && |t'| == |ts|
      && t'[i] == ts[i].(
           userAssigned := ts[i].userAssigned + PeopleFor(ret, i, k),
           schedulerAssigned := if ts[i].sharedAssigned then ts[i].schedulerAssigned + PeopleFor(ret, i, k)
                                else ts[i].schedulerAssigned,
           startDate := if last.Some? then Some(BusdaysOffset(today, last.value.start)) else ts[i].startDate,
           endDate := if last.Some? then EndDay(BusdaysOffset(today, last.value.end)) else ts[i].endDate)
  {
    if k > 0 {
      ApplyFacts(ret, ts, today, k - 1, i);
      var prev := ApplyOf(ret, ts, today, k - 1);
      if prev.Applied? {
        ApplyLength(ret, ts, today, k - 1);
      }
    }
  }

  /** A task whose two assigned lists are one list still has equal lists after the loop. */
  lemma AliasKept(ret: seq<Assignment>, ts: seq<MTask>, today: Date, i: int)
    requires 0 <= i < |ts| && ts[i].sharedAssigned && ts[i].schedulerAssigned == ts[i].userAssigned
    requires ApplyOf(ret, ts, today, |ret|).Applied?
    ensures i < |ApplyOf(ret, ts, today, |ret|).tasks| &&
      ApplyOf(ret, ts, today, |ret|).tasks[i].schedulerAssigned == ApplyOf(ret, ts, today, |ret|).tasks[i].userAssigned
  {
    ApplyLength(ret, ts, today, |ret|);
    ApplyFacts(ret, ts, today, |ret|, i);
  }

  lemma {:induction false} ApplyLength(ret: seq<Assignment>, ts: seq<MTask>, today: Date, k: nat)
    requires k <= |ret|
    ensures ApplyOf(ret, ts, today, k).Applied? ==> |ApplyOf(ret, ts, today, k).tasks| == |ts|
  {
    if k > 0 {
      ApplyLength(ret, ts, today, k - 1);
    }
  }

  /** Lines 207-210. */
  method ApplyResults(ret: seq<Assignment>, ts: seq<MTask>, today: Date) returns (r: Applied)
    ensures r == ApplyOf(ret, ts, today, |ret|)
  {
    var tasks := ts;
    for k := 0 to |ret|
      invariant ApplyOf(ret, ts, today, k) == Applied(tasks)
    {
      var a := ret[k];
      if !(0 <= a.task < |tasks|) {
        ApplyFailedStays(ret, ts, today, k + 1, |ret|);
        return ApplyFailed(KeyError);
      }
      var t := tasks[a.task];
      t := t.(startDate := Some(BusdaysOffset(today, a.start)));
      t := t.(endDate := EndDay(BusdaysOffset(today, a.end)));
      t := t.(userAssigned := t.userAssigned + [a.personName]);
      if t.sharedAssigned {
        t := t.(schedulerAssigned := t.schedulerAssigned + [a.personName]);
      }
      tasks := tasks[a.task := t];
    }
    return Applied(tasks);
  }

  lemma {:induction false} ApplyFailedStays(ret: seq<Assignment>, ts: seq<MTask>, today: Date, k: nat, m: nat)
    requires k <= m <= |ret| && ApplyOf(ret, ts, today, k).ApplyFailed?
    ensures ApplyOf(ret, ts, today, m) == ApplyOf(ret, ts, today, k)
    decreases m
  {
    if m > k {
      ApplyFailedStays(ret, ts, today, k, m - 1);
    }
  }

  // ---------------------------------------------------------------------------
  // `milp_schedule_graph` (lines 153-211)

  /** A task as the solver receives it: its pool built and its latest end set. */
  function Prepared(v: MTask, allPeople: seq<string>, teams: map<string, seq<string>>, today: Date): MTask
    requires TaskPool(v, allPeople, teams).Ok?
  {
    TaskPool(v, allPeople, teams).value.(latestEnd := LatestEnd(v.endDate, today))
  }

  datatype MilpOutcome = MilpOutcome(ret: seq<Assignment>, makespan: int, tasks: seq<MTask>)

  /** The keys of `person_to_person_id`: the people of the registry. */
  function People(allPeople: seq<string>): set<string> {
    set p | p in allPeople
  }

  /** Every task as the solver receives it. */
  function PreparedAll(ts: seq<MTask>, allPeople: seq<string>, teams: map<string, seq<string>>, today: Date)
    : (r: seq<MTask>)
    requires forall i :: 0 <= i < |ts| ==> TaskPool(ts[i], allPeople, teams).Ok?
    ensures |r| == |ts| && forall i :: 0 <= i < |ts| ==> r[i] == Prepared(ts[i], allPeople, teams, today)
  {
    seq(|ts|, i requires 0 <= i < |ts| => Prepared(ts[i], allPeople, teams, today))
  }

  predicate AllRegistered(ts: seq<MTask>, people: set<string>) {
    forall i :: 0 <= i < |ts| ==> Registered(ts[i], people)
  }

  /**
   * The prepared tasks after the results are written back: each gains the solver's people in
   * `user_assigned`, and in `scheduler_assigned` when that is the same list; pools and latest
   * ends stay.
   */
  predicate AppliedTo(prep: seq<MTask>, ret: seq<Assignment>, tasks: seq<MTask>) {
    && |tasks| == |prep|
    && (forall j :: 0 <= j < |ret| ==> 0 <= ret[j].task < |prep|)
    && (forall i :: 0 <= i < |prep| ==>
          tasks[i].userAssigned == prep[i].userAssigned + PeopleFor(ret, i, |ret|)
          && tasks[i].schedulerAssigned ==
               (if prep[i].sharedAssigned then prep[i].schedulerAssigned + PeopleFor(ret, i, |ret|)
                else prep[i].schedulerAssigned)
          && tasks[i].pool == prep[i].pool
          && tasks[i].latestEnd == prep[i].latestEnd)
  }

  /**
   * `milp_schedule_graph` over the graph's tasks in iteration order, with `allPeople` the
   * iteration order of the set of people and the solver's answers given. In `tasks` the
   * model returns the graph's tasks as the run leaves them.
   */
  method MilpScheduleGraph(ts: seq<MTask>, reg: Registry, allPeople: seq<string>, today: Date,
                           status: SolveStatus, makespan: int, sol: Key -> Sol) returns (r: Result<MilpOutcome, Exc>)
    ensures (forall i :: 0 <= i < |ts| ==> TaskPool(ts[i], allPeople, reg.teams).Ok?) || r.Err?
    ensures r.Err? && (exists i :: FirstFailing(ts, allPeople, reg.teams, i)) ==>
      exists i :: FirstFailing(ts, allPeople, reg.teams, i) && r.error == MixedAssignment(ts[i].name)
    ensures ((forall i :: 0 <= i < |ts| ==> TaskPool(ts[i], allPeople, reg.teams).Ok?) &&
             !AllRegistered(PreparedAll(ts, allPeople, reg.teams, today), People(allPeople)))
      ==> r == Err(KeyError)
    ensures r.Ok? ==>
      var prep := PreparedAll(ts, allPeople, reg.teams, today);
      && AllRegistered(prep, People(allPeople))
      && AppliedTo(prep, r.value.ret, r.value.tasks)
      && (status.Optimal? || status.Feasible? ==>
            |r.value.ret| == |KeysOf(prep, |prep|)| && r.value.makespan == makespan)
      && (!(status.Optimal? || status.Feasible?) ==> r.value.ret == [] && r.value.makespan == -1 && r.value.tasks == prep)
  {
    var pooled := BuildPools(ts, allPeople, reg.teams);
    if pooled.Err? {
      var i :| FirstFailing(ts, allPeople, reg.teams, i) && TaskPool(ts[i], allPeople, reg.teams) == Err(pooled.error);
      return Err(pooled.error);
    }
    var idToPerson, personToId := DensePeople(allPeople);
    var idToTask, taskToId := DenseTasks(pooled.value);
    var tasks := SetLatestEnds(pooled.value, today);
    ghost var prep := PreparedAll(ts, allPeople, reg.teams, today);
    assert tasks == prep;
    assert personToId.Keys == People(allPeople);
    var registered := RegisterTasks(tasks, personToId);
    if registered.Err? {
      return Err(registered.error);
    }
    var keys, owners := registered.value.keys, registered.value.owners;
    var solved := CollectResults(status, makespan, keys, owners, tasks, sol, idToPerson);
    if solved.Err? {
      return Err(solved.error);
    }
    var ret := solved.value.0;
    if status.Optimal? || status.Feasible? {
      RegisteredWellKeyed(tasks);
      NeverSkips(keys, owners, tasks, sol, idToPerson, |keys|);
      forall j | 0 <= j < |ret|
        ensures 0 <= ret[j].task < |ts|
      {
        assert Entry(keys[j], owners, tasks, sol, idToPerson).Ok?;
      }
    }
    var applied := ApplyResults(ret, tasks, today);
    if applied.ApplyFailed? {
      return Err(applied.error);
    }
    AppliedFacts(ret, tasks, today);
    return Ok(MilpOutcome(ret, solved.value.1, applied.tasks));
  }

  /** Applying results that all name a task gives the tasks `AppliedTo` describes. */
  lemma AppliedFacts(ret: seq<Assignment>, prep: seq<MTask>, today: Date)
    requires forall j :: 0 <= j < |ret| ==> 0 <= ret[j].task < |prep|
    ensures ApplyOf(ret, prep, today, |ret|).Applied?
    ensures AppliedTo(prep, ret, ApplyOf(ret, prep, today, |ret|).tasks)
  {
    if |prep| > 0 {
      ApplyFacts(ret, prep, today, |ret|, 0);
    }
    ApplyLength(ret, prep, today, |ret|);
    forall i | 0 <= i < |prep|
      ensures var t' := ApplyOf(ret, prep, today, |ret|).tasks;
        t'[i].userAssigned == prep[i].userAssigned + PeopleFor(ret, i, |ret|)
        && t'[i].schedulerAssigned ==
             (if prep[i].sharedAssigned then prep[i].schedulerAssigned + PeopleFor(ret, i, |ret|)
              else prep[i].schedulerAssigned)
        && t'[i].pool == prep[i].pool && t'[i].latestEnd == prep[i].latestEnd
    {
      ApplyFacts(ret, prep, today, |ret|, i);
    }
  }
}
