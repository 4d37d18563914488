/**
 * backend/scheduler.py `AssigningScheduler` and `GreedyLevelingScheduler`. Both book the
 * people `get_people` returns into a `TaskCalendar`, one entry per person per working day.
 * The assigning scheduler takes the first N people of each group and books `estimate`
 * consecutive days from the task's first day (or back from its last day). The leveling
 * scheduler first slides the task one business day per pass until every group has N
 * people with enough free days, then prefers the people with the most free days and books
 * them on days they are free.
 *
 * A pass direction is the `backwards` flag; `step` in the source is -1 or 1 accordingly,
 * so the d-th day of a walk is `DayAt(initial, backwards, d)`.
 */
module OrigSchedulers {
  import opened Wrappers
  import opened Exceptions
  import opened Dates
  import opened OrigTypes
  import opened OrigCalendar
  import opened OrigPeople

  /** The task fields the schedulers and `schedule_graph` read and write. */
  datatype SchedTask = SchedTask(
    name: string,
    estimate: int,
    named: seq<string>,
    assignees: seq<string>,
    start: Option<Date>,
    end: Option<Date>,
    genStart: bool,
    genEnd: bool)

  /** Both dates are set, as every call from `schedule_graph` ensures. */
  predicate Dated(t: SchedTask) {
    t.start.Some? && t.end.Some?
  }

  /** The number of turns of `range(n)`. */
  function Times(n: int): (r: nat)
    ensures n <= 0 ==> r == 0
    ensures n > 0 ==> r == n
  {
    if n < 0 then 0 else n
  }

  /** `busdays_offset(initial, d * step)`. */
  function DayAt(initial: Date, backwards: bool, d: int): Date {
    BusdaysOffset(initial, if backwards then -d else d)
  }

  /** How many steps ahead of `initial` the day `x` lies, in the walk's direction. */
  function Ahead(initial: Date, backwards: bool, x: Date): int {
    if backwards then initial - x else x - initial
  }

  lemma AheadOfDay(initial: Date, backwards: bool, d: int)
    ensures Ahead(initial, backwards, DayAt(initial, backwards, d)) == d
  {
  }

  /** The first day a pass books: the task's last day going backwards, its first going forwards. */
  function Initial(t: SchedTask, backwards: bool): Date
    requires Dated(t)
  {
    if backwards then BusdaysOffset(t.end.value, -1) else t.start.value
  }

  // ------------------------------------------------------------ consecutive days

  /** `for d in range(n): cal.assign(p, task, busdays_offset(initial, d * step))`. */
  function AssignDays(c: Cal, p: string, t: string, initial: Date, backwards: bool, n: nat): Cal
    decreases n
  {
    if n == 0 then c else Put(AssignDays(c, p, t, initial, backwards, n - 1), DayAt(initial, backwards, n - 1), p, t)
  }

  /** `x` is one of the first `n` days of a walk from `initial`. */
  predicate InSpan(initial: Date, backwards: bool, n: nat, x: Date) {
    0 <= Ahead(initial, backwards, x) < n
  }

  /** Consecutive booking adds the task once to each of the `n` days, for `p` only. */
  lemma {:induction false} AssignDaysEntry(c: Cal, p: string, t: string, initial: Date, backwards: bool, n: nat, x: Date, q: string)
    ensures Get(AssignDays(c, p, t, initial, backwards, n), x, q) ==
      Get(c, x, q) + (if q == p && InSpan(initial, backwards, n, x) then [t] else [])
    decreases n
  {
    if n > 0 {
      AssignDaysEntry(c, p, t, initial, backwards, n - 1, x, q);
      AheadOfDay(initial, backwards, n - 1);
    }
  }

  // ------------------------------------------------------------ the assigning scheduler

  /**
   * A calendar being filled, with the people appended to `task.assignees` so far, or the
   * exception that stopped the filling.
   */
  datatype Booking = Booking(cal: Cal, names: seq<string>) | Raised(error: Exc)

  /** The first `i` turns of `for i in range(group[0])`: `group[1][i]` must exist. */
  function TakeFirst(b: Booking, g: Group, t: string, initial: Date, backwards: bool, est: int, i: nat): Booking
    decreases i
  {
    if i == 0 then b
    else
      var before := TakeFirst(b, g, t, initial, backwards, est, i - 1);
      if before.Raised? then before
      else if i - 1 >= |g.people| then Raised(IndexError)
      else
        var p := g.people[i - 1];
        Booking(AssignDays(before.cal, p, t, initial, backwards, Times(est)), before.names + [p])
  }

  /** The first `k` turns of `for group in people`. */
  function TakeGroups(b: Booking, groups: seq<Group>, t: string, initial: Date, backwards: bool, est: int, k: nat): Booking
    requires k <= |groups|
    decreases k
  {
    if k == 0 then b
    else
      var before := TakeGroups(b, groups, t, initial, backwards, est, k - 1);
      if before.Raised? then before
      else TakeFirst(before, groups[k - 1], t, initial, backwards, est, Times(groups[k - 1].count))
  }

  /** The people the assigning scheduler appends: the first N of each group, group by group. */
  function FirstOfGroups(groups: seq<Group>, k: nat): seq<string>
    requires k <= |groups|
    requires forall i :: 0 <= i < k ==> groups[i].count <= |groups[i].people|
  {
    if k == 0 then [] else FirstOfGroups(groups, k - 1) + groups[k - 1].people[..Times(groups[k - 1].count)]
  }

  /** Every group asks for no more people than it lists. */
  predicate Fits(groups: seq<Group>, k: nat)
    requires k <= |groups|
  {
    forall i :: 0 <= i < k ==> groups[i].count <= |groups[i].people|
  }

  /** `t` repeated `n` times. */
  function Repeat(t: string, n: nat): (r: seq<string>)
    ensures |r| == n
  {
    if n == 0 then [] else Repeat(t, n - 1) + [t]
  }

  /** The number of times `q` occurs in `s`. */
  function Occurrences(s: seq<string>, q: string): nat {
    if |s| == 0 then 0 else Occurrences(s[..|s| - 1], q) + (if s[|s| - 1] == q then 1 else 0)
  }

  /** Day `x` of person `q` after booking everyone in `names` on the `n` days of a walk. */
  predicate BookedAt(c: Cal, c': Cal, names: seq<string>, t: string, initial: Date, backwards: bool, n: nat, x: Date, q: string) {
    Get(c', x, q) == Get(c, x, q) + (if InSpan(initial, backwards, n, x) then Repeat(t, Occurrences(names, q)) else [])
  }

  lemma BookedOne(c: Cal, c': Cal, names: seq<string>, p: string, t: string, initial: Date, backwards: bool, n: nat, x: Date, q: string)
    requires BookedAt(c, c', names, t, initial, backwards, n, x, q)
    ensures BookedAt(c, AssignDays(c', p, t, initial, backwards, n), names + [p], t, initial, backwards, n, x, q)
  {
    AssignDaysEntry(c', p, t, initial, backwards, n, x, q);
    assert (names + [p])[..|names + [p]| - 1] == names;
  }

  /** Taking the first `i` of a group: it fails iff the group has fewer than `i` people. */
  lemma {:induction false} TakeFirstFacts(b: Booking, g: Group, t: string, initial: Date, backwards: bool, est: int, i: nat)
    requires b.Booking?
    ensures TakeFirst(b, g, t, initial, backwards, est, i).Booking? <==> i <= |g.people|
    ensures TakeFirst(b, g, t, initial, backwards, est, i).Raised? ==> TakeFirst(b, g, t, initial, backwards, est, i).error == IndexError
    ensures TakeFirst(b, g, t, initial, backwards, est, i).Booking? ==>
      TakeFirst(b, g, t, initial, backwards, est, i).names == b.names + g.people[..i]
    decreases i
  {
    if i > 0 {
      TakeFirstFacts(b, g, t, initial, backwards, est, i - 1);
      if TakeFirst(b, g, t, initial, backwards, est, i - 1).Booking? && i - 1 < |g.people| {
        assert g.people[..i] == g.people[..i - 1] + [g.people[i - 1]];
      }
    }
  }

  /** Each person taken from a group is booked once on each of the walk's days. */
  lemma {:induction false} TakeFirstBooks(b: Booking, c: Cal, g: Group, t: string, initial: Date, backwards: bool, est: int, i: nat, x: Date, q: string)
    requires b.Booking? && BookedAt(c, b.cal, b.names, t, initial, backwards, Times(est), x, q)
    ensures TakeFirst(b, g, t, initial, backwards, est, i).Booking? ==>
      BookedAt(c, TakeFirst(b, g, t, initial, backwards, est, i).cal, TakeFirst(b, g, t, initial, backwards, est, i).names,
        t, initial, backwards, Times(est), x, q)
    decreases i
  {
    if i > 0 {
      TakeFirstBooks(b, c, g, t, initial, backwards, est, i - 1, x, q);
      var before := TakeFirst(b, g, t, initial, backwards, est, i - 1);
      if before.Booking? && i - 1 < |g.people| {
        BookedOne(c, before.cal, before.names, g.people[i - 1], t, initial, backwards, Times(est), x, q);
      }
    }
  }

  /**
   * The assigning scheduler over the first `k` groups fails (with IndexError) iff some group
   * asks for more people than it lists; otherwise it appends the first N of each group.
   */
  lemma {:induction false} TakeGroupsFacts(c: Cal, groups: seq<Group>, t: string, initial: Date, backwards: bool, est: int, k: nat)
    requires k <= |groups|
    ensures TakeGroups(Booking(c, []), groups, t, initial, backwards, est, k).Booking? <==> Fits(groups, k)
    ensures TakeGroups(Booking(c, []), groups, t, initial, backwards, est, k).Raised? ==>
      TakeGroups(Booking(c, []), groups, t, initial, backwards, est, k).error == IndexError
    ensures TakeGroups(Booking(c, []), groups, t, initial, backwards, est, k).Booking? ==>
      TakeGroups(Booking(c, []), groups, t, initial, backwards, est, k).names == FirstOfGroups(groups, k)
    decreases k
  {
    if k > 0 {
      TakeGroupsFacts(c, groups, t, initial, backwards, est, k - 1);
      var before := TakeGroups(Booking(c, []), groups, t, initial, backwards, est, k - 1);
      var after := TakeGroups(Booking(c, []), groups, t, initial, backwards, est, k);
      var g, n := groups[k - 1], Times(groups[k - 1].count);
      if before.Booking? {
        TakeFirstFacts(before, g, t, initial, backwards, est, n);
        assert after == TakeFirst(before, g, t, initial, backwards, est, n);
        if n <= |g.people| {
          assert Fits(groups, k);
          assert after.names == FirstOfGroups(groups, k - 1) + g.people[..n];
        } else {
          assert !(g.count <= |g.people|);
        }
      } else {
        assert after == before;
        assert !Fits(groups, k - 1);
        var i :| 0 <= i < k - 1 && !(groups[i].count <= |groups[i].people|);
      }
    }
  }

  /**
   * After the assigning scheduler, person `q`'s list on day `x` gains the task once for
   * every time `q` was taken, on each of the `estimate` days from the initial date, and
   * nothing on any other day.
   */
  lemma {:induction false} TakeGroupsBooks(b: Booking, c: Cal, groups: seq<Group>, t: string, initial: Date, backwards: bool, est: int, k: nat, x: Date, q: string)
    requires k <= |groups|
    requires b.Booking? && BookedAt(c, b.cal, b.names, t, initial, backwards, Times(est), x, q)
    ensures TakeGroups(b, groups, t, initial, backwards, est, k).Booking? ==>
      BookedAt(c, TakeGroups(b, groups, t, initial, backwards, est, k).cal,
        TakeGroups(b, groups, t, initial, backwards, est, k).names, t, initial, backwards, Times(est), x, q)
    decreases k
  {
    if k > 0 {
      TakeGroupsBooks(b, c, groups, t, initial, backwards, est, k - 1, x, q);
      var before := TakeGroups(b, groups, t, initial, backwards, est, k - 1);
      if before.Booking? {
        TakeFirstBooks(before, c, groups[k - 1], t, initial, backwards, est, Times(groups[k - 1].count), x, q);
      }
    }
  }

  /**
   * After the assigning scheduler, person `q`'s list on day `x` gains the task once for
   * every time `q` was taken, on each of the `estimate` days from the initial date, and
   * nothing on any other day.
   */
  lemma AssignEntries(c: Cal, groups: seq<Group>, t: string, initial: Date, backwards: bool, est: int, x: Date, q: string)
    ensures TakeGroups(Booking(c, []), groups, t, initial, backwards, est, |groups|).Booking? ==>
      BookedAt(c, TakeGroups(Booking(c, []), groups, t, initial, backwards, est, |groups|).cal,
        TakeGroups(Booking(c, []), groups, t, initial, backwards, est, |groups|).names, t, initial, backwards, Times(est), x, q)
  {
    TakeGroupsBooks(Booking(c, []), c, groups, t, initial, backwards, est, |groups|, x, q);
  }

  /** The outcome of the assigning `_schedule` on calendar `c`, tied to the calendar `c'` after it. */
  predicate AssignOutcome(c: Cal, c': Cal, groups: seq<Group>, task: SchedTask, backwards: bool, r: Result<SchedTask, Exc>)
    requires Dated(task)
  {
    var spec := TakeGroups(Booking(c, []), groups, task.name, Initial(task, backwards), backwards, task.estimate, |groups|);
    && (r.Ok? <==> spec.Booking?)
    && (r.Err? ==> r.error == spec.error)
    && (r.Ok? ==> c' == spec.cal && r.value == task.(assignees := task.assignees + spec.names))
  }

  // ------------------------------------------------------------ ranking by free days

  /**
   * `reversed(np.argsort(free, kind='stable'))` puts index `i` before index `j` when `i`
   * has more free days, or as many and a higher index.
   */
  predicate Before(free: seq<nat>, i: nat, j: nat)
    requires i < |free| && j < |free|
  {
    free[i] > free[j] || (free[i] == free[j] && i > j)
  }

  /** Every index is in range and each comes before all later ones. */
  predicate Ranked(free: seq<nat>, order: seq<nat>) {
    && (forall a :: 0 <= a < |order| ==> order[a] < |free|)
    && (forall a, b :: 0 <= a < b < |order| ==> Before(free, order[a], order[b]))
  }

  /** Inserts index `i` into a ranked list of lower indices. */
  function InsertRank(free: seq<nat>, i: nat, order: seq<nat>): (r: seq<nat>)
    requires i < |free| && Ranked(free, order)
    requires forall a :: 0 <= a < |order| ==> order[a] < i
    ensures |r| == |order| + 1 && Ranked(free, r)
    ensures forall a :: 0 <= a < |r| ==> r[a] <= i
    ensures forall x :: x in r <==> x in order || x == i
    decreases |order|
  {
    if order == [] || Before(free, i, order[0]) then [i] + order
    else
      var rest := InsertRank(free, i, order[1..]);
      assert forall a :: 0 <= a < |rest| ==> rest[a] in order[1..] || rest[a] == i;
      assert forall a :: 0 <= a < |rest| ==> Before(free, order[0], rest[a]);
      [order[0]] + rest
  }

  /** The order of the first `n` indices. */
  function RankOf(free: seq<nat>, n: nat): (r: seq<nat>)
    requires n <= |free|
    ensures |r| == n && Ranked(free, r)
    ensures forall a :: 0 <= a < |r| ==> r[a] < n
    ensures forall x :: 0 <= x < n ==> x in r
  {
    if n == 0 then [] else InsertRank(free, n - 1, RankOf(free, n - 1))
  }

  // ------------------------------------------------------------ the walk over free days

  /** A day no entry of `p` lies at or beyond, counted in steps from `initial`. */
  ghost function Reach(keys: set<(Date, string)>, p: string, initial: Date, backwards: bool): (h: nat)
    ensures forall k :: k in keys && k.1 == p ==> Ahead(initial, backwards, k.0) < h
    decreases keys
  {
    if keys == {} then 0
    else
      var k :| k in keys;
      var rest := Reach(keys - {k}, p, initial, backwards);
      if k.1 == p && Ahead(initial, backwards, k.0) >= rest then Ahead(initial, backwards, k.0) + 1 else rest
  }

  /** From step `h` on, person `p` is free on every day of the walk. */
  ghost predicate ClearFrom(c: Cal, p: string, initial: Date, backwards: bool, h: nat) {
    forall e: nat :: e >= h ==> !Busy(c, DayAt(initial, backwards, e), p)
  }

  lemma ReachClear(c: Cal, p: string, initial: Date, backwards: bool)
    ensures ClearFrom(c, p, initial, backwards, Reach(c.Keys, p, initial, backwards))
  {
    var h := Reach(c.Keys, p, initial, backwards);
    forall e: nat | e >= h
      ensures !Busy(c, DayAt(initial, backwards, e), p)
    {
      AheadOfDay(initial, backwards, e);
    }
  }

  /** A step of the walk from which `p` is free for good. */
  ghost function Horizon(c: Cal, p: string, initial: Date, backwards: bool): (h: nat)
    ensures ClearFrom(c, p, initial, backwards, h)
  {
    ReachClear(c, p, initial, backwards);
    var h: nat :| ClearFrom(c, p, initial, backwards, h);
    h
  }

  /**
   * `while days > 0`: step `d` books the day if `p` is free, and moves on either way. Past
   * the horizon `h` every day is free, so the walk ends.
   */
  function Walk(c: Cal, p: string, t: string, initial: Date, backwards: bool, d: nat, days: int, h: nat): Cal
    requires ClearFrom(c, p, initial, backwards, if d > h then d else h)
    decreases Times(days), if d <= h then h - d else 0
  {
    if days <= 0 then c
    else
      var x := DayAt(initial, backwards, d);
      if Busy(c, x, p) then Walk(c, p, t, initial, backwards, d + 1, days, h)
      else
        PutClear(c, p, t, initial, backwards, d, h);
        Walk(Put(c, x, p, t), p, t, initial, backwards, d + 1, days - 1, h)
  }

  lemma PutClear(c: Cal, p: string, t: string, initial: Date, backwards: bool, d: nat, h: nat)
    requires ClearFrom(c, p, initial, backwards, if d > h then d else h)
    ensures ClearFrom(Put(c, DayAt(initial, backwards, d), p, t), p, initial, backwards, if d + 1 > h then d + 1 else h)
  {
    forall e: nat | e >= (if d + 1 > h then d + 1 else h)
      ensures !Busy(Put(c, DayAt(initial, backwards, d), p, t), DayAt(initial, backwards, e), p)
    {
      AheadOfDay(initial, backwards, e);
      AheadOfDay(initial, backwards, d);
    }
  }

  /** One step of the walk, from `c` to `c'`, keeps the rest of the walk defined. */
  lemma WalkStep(c: Cal, c': Cal, p: string, t: string, initial: Date, backwards: bool, d: nat, days: int, days': int, h: nat)
    requires ClearFrom(c, p, initial, backwards, if d > h then d else h) && days > 0
    requires c' == if Busy(c, DayAt(initial, backwards, d), p) then c else Put(c, DayAt(initial, backwards, d), p, t)
    requires days' == if Busy(c, DayAt(initial, backwards, d), p) then days else days - 1
    ensures ClearFrom(c', p, initial, backwards, if d + 1 > h then d + 1 else h)
    ensures Walk(c, p, t, initial, backwards, d, days, h) == Walk(c', p, t, initial, backwards, d + 1, days', h)
  {
    PutClear(c, p, t, initial, backwards, d, h);
  }

  /** The walk only ever adds the task, once, to days on which `p` was free. */
  lemma {:induction false} WalkEntry(c: Cal, p: string, t: string, initial: Date, backwards: bool, d: nat, days: int, h: nat, x: Date, q: string)
    requires ClearFrom(c, p, initial, backwards, if d > h then d else h)
    ensures Get(Walk(c, p, t, initial, backwards, d, days, h), x, q) == Get(c, x, q) ||
      (q == p && !Busy(c, x, p) && Get(Walk(c, p, t, initial, backwards, d, days, h), x, q) == Get(c, x, q) + [t])
    decreases Times(days), if d <= h then h - d else 0
  {
    if days > 0 {
      var y := DayAt(initial, backwards, d);
      if Busy(c, y, p) {
        WalkEntry(c, p, t, initial, backwards, d + 1, days, h, x, q);
      } else {
        PutClear(c, p, t, initial, backwards, d, h);
        WalkEntry(Put(c, y, p, t), p, t, initial, backwards, d + 1, days - 1, h, x, q);
      }
    }
  }

  // ------------------------------------------------------------ the leveling passes

  /** `[cal.free_days(person, start, end) for person in group[1]]`. */
  function FreeOf(c: Cal, people: seq<string>, s: Date, e: Date): (r: seq<nat>)
    ensures |r| == |people|
    ensures forall i :: 0 <= i < |people| ==> r[i] == FreeDays(c, people[i], s, e)
  {
    seq(|people|, i requires 0 <= i < |people| => FreeDays(c, people[i], s, e))
  }

  /** The free-day lists of every group, as `free_days` collects them. */
  function FreeLists(c: Cal, groups: seq<Group>, s: Date, e: Date): (r: seq<seq<nat>>)
    ensures |r| == |groups|
    ensures forall i :: 0 <= i < |groups| ==> r[i] == FreeOf(c, groups[i].people, s, e)
  {
    seq(|groups|, i requires 0 <= i < |groups| => FreeOf(c, groups[i].people, s, e))
  }

  /** `sum([1 if f >= estimate else 0 for f in free[..n]])`. */
  function Enough(free: seq<nat>, est: int, n: nat): nat
    requires n <= |free|
  {
    if n == 0 then 0 else Enough(free, est, n - 1) + (if free[n - 1] >= est then 1 else 0)
  }

  /** The lists belong to the groups, one free count per listed person. */
  predicate Shaped(frees: seq<seq<nat>>, groups: seq<Group>) {
    |frees| == |groups| && forall i :: 0 <= i < |groups| ==> |frees[i]| == |groups[i].people|
  }

  /**
   * The pass is kept when every group has at least N people with `estimate` free days
   * (`sum(good) == len(good)`), or when a date of the task was given by the user.
   */
  predicate Settles(frees: seq<seq<nat>>, groups: seq<Group>, t: SchedTask)
    requires |frees| == |groups|
  {
    (forall i :: 0 <= i < |groups| ==> Enough(frees[i], t.estimate, |frees[i]|) >= groups[i].count)
    || !t.genStart || !t.genEnd
  }

  /**
   * What one chosen person gets: consecutive days from the initial date when they lack
   * the free days, otherwise the walk over their free days.
   */
  ghost function Book(c: Cal, p: string, t: string, initial: Date, backwards: bool, est: int, free: nat): Cal {
    if free < est then AssignDays(c, p, t, initial, backwards, Times(est))
    else Walk(c, p, t, initial, backwards, 0, est, Horizon(c, p, initial, backwards))
  }

  /** The first `j` turns of `for j in range(group[0])`: `order[j]` must exist. */
  ghost function Pick(b: Booking, g: Group, free: seq<nat>, t: string, initial: Date, backwards: bool, est: int, j: nat): Booking
    requires |free| == |g.people|
    decreases j
  {
    if j == 0 then b
    else
      var before := Pick(b, g, free, t, initial, backwards, est, j - 1);
      var order := RankOf(free, |free|);
      if before.Raised? then before
      else if j - 1 >= |order| then Raised(IndexError)
      else
        var p := g.people[order[j - 1]];
        Booking(Book(before.cal, p, t, initial, backwards, est, free[order[j - 1]]), before.names + [p])
  }

  /** The first `k` turns of `for i in range(len(people))`. */
  ghost function PickGroups(b: Booking, groups: seq<Group>, frees: seq<seq<nat>>, t: string, initial: Date, backwards: bool, est: int, k: nat): Booking
    requires k <= |groups| && Shaped(frees, groups)
    decreases k
  {
    if k == 0 then b
    else
      var before := PickGroups(b, groups, frees, t, initial, backwards, est, k - 1);
      if before.Raised? then before
      else Pick(before, groups[k - 1], frees[k - 1], t, initial, backwards, est, Times(groups[k - 1].count))
  }

  /** Both dates one business day further in the walk's direction. */
  function Shift(t: SchedTask, backwards: bool): (r: SchedTask)
    requires Dated(t)
    ensures Dated(r)
  {
    var step := if backwards then -1 else 1;
    t.(start := Some(BusdaysOffset(t.start.value, step)), end := Some(BusdaysOffset(t.end.value, step)))
  }

  /** The calendar and task a leveling run ends with, or the exception it raises. */
  datatype Leveled = Leveled(cal: Cal, task: SchedTask) | Stopped(error: Exc)

  /**
   * `GreedyLevelingScheduler._schedule` given at most `passes` turns of its `while True`
   * loop: a run that has not settled by then is reported as `NeverSettles`.
   */
  ghost function Level(c: Cal, groups: seq<Group>, t: SchedTask, backwards: bool, passes: nat): Leveled
    requires Dated(t)
    decreases passes
  {
    if passes == 0 then Stopped(NeverSettles(t.name))
    else
      var frees := FreeLists(c, groups, t.start.value, t.end.value);
      if Settles(frees, groups, t) then
        var b := PickGroups(Booking(c, []), groups, frees, t.name, Initial(t, backwards), backwards, t.estimate, |groups|);
        if b.Raised? then Stopped(b.error) else Leveled(b.cal, t.(assignees := t.assignees + b.names))
      else Level(c, groups, Shift(t, backwards), backwards, passes - 1)
  }

  /**
   * `t'` is `t` slid some business days in the walk's direction, with its length, name,
   * estimate, requested people and flags unchanged, and people appended to its assignees.
   */
  predicate Slid(t: SchedTask, t': SchedTask, backwards: bool)
    requires Dated(t)
  {
    && Dated(t')
    && t'.name == t.name && t'.estimate == t.estimate && t'.named == t.named
    && t'.genStart == t.genStart && t'.genEnd == t.genEnd
    && t'.end.value - t'.start.value == t.end.value - t.start.value
    && (if backwards then t'.start.value <= t.start.value else t'.start.value >= t.start.value)
    && |t.assignees| <= |t'.assignees| && t'.assignees[..|t.assignees|] == t.assignees
  }

  /**
   * A leveling run that returns has slid the task along without changing its length, and
   * stopped at dates on which the pass settles; with a user-given date it keeps the first
   * pass, so the dates do not move. A run that raises reports IndexError or a run that
   * never settled.
   */
  lemma {:induction false} LevelFacts(c: Cal, groups: seq<Group>, t: SchedTask, backwards: bool, passes: nat)
    requires Dated(t)
    ensures Level(c, groups, t, backwards, passes).Leveled? ==>
      var r := Level(c, groups, t, backwards, passes).task;
      Slid(t, r, backwards) && Settles(FreeLists(c, groups, r.start.value, r.end.value), groups, r) &&
      ((!t.genStart || !t.genEnd) ==> r.start == t.start && r.end == t.end)
    ensures Level(c, groups, t, backwards, passes).Stopped? ==>
      Level(c, groups, t, backwards, passes).error in {NeverSettles(t.name), IndexError}
    decreases passes
  {
    if passes > 0 {
      var frees := FreeLists(c, groups, t.start.value, t.end.value);
      if Settles(frees, groups, t) {
        PickGroupsFails(Booking(c, []), groups, frees, t.name, Initial(t, backwards), backwards, t.estimate, |groups|);
      } else {
        LevelFacts(c, groups, Shift(t, backwards), backwards, passes - 1);
      }
    }
  }

  /** Picking only ever raises IndexError. */
  lemma {:induction false} PickGroupsFails(b: Booking, groups: seq<Group>, frees: seq<seq<nat>>, t: string, initial: Date, backwards: bool, est: int, k: nat)
    requires k <= |groups| && Shaped(frees, groups) && b.Booking?
    ensures PickGroups(b, groups, frees, t, initial, backwards, est, k).Raised? ==>
      PickGroups(b, groups, frees, t, initial, backwards, est, k).error == IndexError
    decreases k
  {
    if k > 0 {
      PickGroupsFails(b, groups, frees, t, initial, backwards, est, k - 1);
      var before := PickGroups(b, groups, frees, t, initial, backwards, est, k - 1);
      if before.Booking? {
        PickFacts(before, groups[k - 1], frees[k - 1], t, initial, backwards, est, Times(groups[k - 1].count));
      }
    }
  }

  /** The people a leveling pass takes from one group: its first `j` in ranked order. */
  function RankedFirst(g: Group, free: seq<nat>, j: nat): (r: seq<string>)
    requires |free| == |g.people| && j <= |free|
    ensures |r| == j
  {
    if j == 0 then [] else RankedFirst(g, free, j - 1) + [g.people[RankOf(free, |free|)[j - 1]]]
  }

  /**
   * Picking `j` people from a group fails (with IndexError) iff the group lists fewer
   * than `j`; otherwise the picks are its first `j` people by descending free days.
   */
  lemma {:induction false} PickFacts(b: Booking, g: Group, free: seq<nat>, t: string, initial: Date, backwards: bool, est: int, j: nat)
    requires |free| == |g.people| && b.Booking?
    ensures Pick(b, g, free, t, initial, backwards, est, j).Booking? <==> j <= |g.people|
    ensures Pick(b, g, free, t, initial, backwards, est, j).Raised? ==> Pick(b, g, free, t, initial, backwards, est, j).error == IndexError
    ensures Pick(b, g, free, t, initial, backwards, est, j).Booking? ==>
      Pick(b, g, free, t, initial, backwards, est, j).names == b.names + RankedFirst(g, free, j)
    decreases j
  {
    if j > 0 {
      PickFacts(b, g, free, t, initial, backwards, est, j - 1);
    }
  }

  lemma {:induction false} EnoughAtMost(free: seq<nat>, est: int, n: nat)
    requires n <= |free|
    ensures Enough(free, est, n) <= n
  {
    if n > 0 {
      EnoughAtMost(free, est, n - 1);
    }
  }

  /**
   * The `while True` loop need not end: a task with generated dates and a group that asks
   * for more people than it lists never settles, however many passes it is given.
   */
  lemma {:induction false} LevelNeverSettles(c: Cal, groups: seq<Group>, t: SchedTask, backwards: bool, passes: nat, i: nat)
    requires Dated(t) && t.genStart && t.genEnd
    requires i < |groups| && groups[i].count > |groups[i].people|
    ensures Level(c, groups, t, backwards, passes).Stopped?
    ensures Level(c, groups, t, backwards, passes).error == NeverSettles(t.name)
    decreases passes
  {
    if passes > 0 {
      var frees := FreeLists(c, groups, t.start.value, t.end.value);
      EnoughAtMost(frees[i], t.estimate, |frees[i]|);
      LevelNeverSettles(c, groups, Shift(t, backwards), backwards, passes - 1, i);
    }
  }

  /** Counting free days from the top of the range down. */
  lemma {:induction false} FreeDaysTop(c: Cal, p: string, s: Date, e: Date)
    requires s < e
    ensures FreeDays(c, p, s, e) == FreeDays(c, p, s, e - 1) + (if Busy(c, e - 1, p) then 0 else 1)
    decreases e - s
  {
    if s < e - 1 {
      FreeDaysTop(c, p, s + 1, e);
    }
  }

  /**
   * A forward walk from step `d` that still has `days` free days in [initial + d, e) books
   * nothing outside that range.
   */
  lemma {:induction false} WalkForwardWithin(c: Cal, p: string, t: string, initial: Date, d: nat, days: int, h: nat, e: Date, x: Date, q: string)
    requires ClearFrom(c, p, initial, false, if d > h then d else h)
    requires FreeDays(c, p, initial + d, e) >= days
    ensures Get(Walk(c, p, t, initial, false, d, days, h), x, q) != Get(c, x, q) ==> initial + d <= x < e
    decreases Times(days), if d <= h then h - d else 0
  {
    if days > 0 {
      var y := DayAt(initial, false, d);
      if Busy(c, y, p) {
        WalkForwardWithin(c, p, t, initial, d + 1, days, h, e, x, q);
      } else {
        PutClear(c, p, t, initial, false, d, h);
        FreeDaysAfterPut(c, p, initial + d + 1, e, y, p, t);
        WalkForwardWithin(Put(c, y, p, t), p, t, initial, d + 1, days - 1, h, e, x, q);
      }
    }
  }

  /**
   * A backward walk from step `d` that still has `days` free days in [s, initial + 1 - d)
   * books nothing outside that range.
   */
  lemma {:induction false} WalkBackwardWithin(c: Cal, p: string, t: string, initial: Date, d: nat, days: int, h: nat, s: Date, x: Date, q: string)
    requires ClearFrom(c, p, initial, true, if d > h then d else h)
    requires FreeDays(c, p, s, initial + 1 - d) >= days
    ensures Get(Walk(c, p, t, initial, true, d, days, h), x, q) != Get(c, x, q) ==> s <= x <= initial - d
    decreases Times(days), if d <= h then h - d else 0
  {
    if days > 0 {
      var y := DayAt(initial, true, d);
      FreeDaysTop(c, p, s, initial + 1 - d);
      if Busy(c, y, p) {
        WalkBackwardWithin(c, p, t, initial, d + 1, days, h, s, x, q);
      } else {
        PutClear(c, p, t, initial, true, d, h);
        FreeDaysAfterPut(c, p, s, initial - d, y, p, t);
        WalkBackwardWithin(Put(c, y, p, t), p, t, initial, d + 1, days - 1, h, s, x, q);
      }
    }
  }

  /**
   * "Just allocate the free days, it should work out": a person picked with at least
   * `estimate` free days in [start, end) is booked only on days inside [start, end).
   */
  lemma BookWithin(c: Cal, p: string, t: string, task: SchedTask, backwards: bool, x: Date, q: string)
    requires Dated(task)
    requires FreeDays(c, p, task.start.value, task.end.value) >= task.estimate
    ensures Get(Book(c, p, t, Initial(task, backwards), backwards, task.estimate, FreeDays(c, p, task.start.value, task.end.value)), x, q) != Get(c, x, q) ==>
      task.start.value <= x < task.end.value
  {
    var initial := Initial(task, backwards);
    var h := Horizon(c, p, initial, backwards);
    if backwards {
      WalkBackwardWithin(c, p, t, initial, 0, task.estimate, h, task.start.value, x, q);
    } else {
      WalkForwardWithin(c, p, t, initial, 0, task.estimate, h, task.end.value, x, q);
    }
  }

  // ------------------------------------------------------------ failures stop the loops

  lemma {:induction false} TakeFirstStays(b: Booking, g: Group, t: string, initial: Date, backwards: bool, est: int, i: nat, m: nat)
    requires i <= m && TakeFirst(b, g, t, initial, backwards, est, i).Raised?
    ensures TakeFirst(b, g, t, initial, backwards, est, m) == TakeFirst(b, g, t, initial, backwards, est, i)
    decreases m
  {
    if m > i {
      TakeFirstStays(b, g, t, initial, backwards, est, i, m - 1);
    }
  }

  lemma {:induction false} TakeGroupsStays(b: Booking, groups: seq<Group>, t: string, initial: Date, backwards: bool, est: int, k: nat, m: nat)
    requires k <= m <= |groups| && TakeGroups(b, groups, t, initial, backwards, est, k).Raised?
    ensures TakeGroups(b, groups, t, initial, backwards, est, m) == TakeGroups(b, groups, t, initial, backwards, est, k)
    decreases m
  {
    if m > k {
      TakeGroupsStays(b, groups, t, initial, backwards, est, k, m - 1);
    }
  }

  lemma {:induction false} PickStays(b: Booking, g: Group, free: seq<nat>, t: string, initial: Date, backwards: bool, est: int, j: nat, m: nat)
    requires |free| == |g.people|
    requires j <= m && Pick(b, g, free, t, initial, backwards, est, j).Raised?
    ensures Pick(b, g, free, t, initial, backwards, est, m) == Pick(b, g, free, t, initial, backwards, est, j)
    decreases m
  {
    if m > j {
      PickStays(b, g, free, t, initial, backwards, est, j, m - 1);
    }
  }

  lemma {:induction false} PickGroupsStays(b: Booking, groups: seq<Group>, frees: seq<seq<nat>>, t: string, initial: Date, backwards: bool, est: int, k: nat, m: nat)
    requires k <= m <= |groups| && Shaped(frees, groups)
    requires PickGroups(b, groups, frees, t, initial, backwards, est, k).Raised?
    ensures PickGroups(b, groups, frees, t, initial, backwards, est, m) == PickGroups(b, groups, frees, t, initial, backwards, est, k)
    decreases m
  {
    if m > k {
      PickGroupsStays(b, groups, frees, t, initial, backwards, est, k, m - 1);
    }
  }

  // ------------------------------------------------------------ the scheduler objects

  /** The outcome of a leveling `_schedule` on calendar `c`, tied to the calendar `c'` after it. */
  ghost predicate LevelOutcome(c: Cal, c': Cal, groups: seq<Group>, task: SchedTask, backwards: bool, passes: nat, r: Result<SchedTask, Exc>)
    requires Dated(task)
  {
    var spec := Level(c, groups, task, backwards, passes);
    && (r.Ok? <==> spec.Leveled?)
    && (r.Err? ==> r.error == spec.error)
    && (r.Ok? ==> c' == spec.cal && r.value == spec.task)
  }

  /** Books `p` on the `n` consecutive days of a walk. */
  method AssignDaysIn(cal: TaskCalendar, p: string, t: string, initial: Date, backwards: bool, n: nat)
    modifies cal
    ensures cal.cal == AssignDays(old(cal.cal), p, t, initial, backwards, n)
  {
    for d := 0 to n
      invariant cal.cal == AssignDays(old(cal.cal), p, t, initial, backwards, d)
    {
      cal.Assign(p, t, DayAt(initial, backwards, d));
    }
  }

  /** One turn of the `while days > 0` loop: book day `d` if `p` is free on it, then move on. */
  method WalkDayIn(cal: TaskCalendar, p: string, t: string, initial: Date, backwards: bool, d: nat, left: int, ghost h: nat, ghost goal: Cal)
    returns (d': nat, left': int)
    requires left > 0 && ClearFrom(cal.cal, p, initial, backwards, if d > h then d else h)
    requires goal == Walk(cal.cal, p, t, initial, backwards, d, left, h)
    modifies cal
    ensures d' == d + 1
    ensures ClearFrom(cal.cal, p, initial, backwards, if d' > h then d' else h)
    ensures goal == Walk(cal.cal, p, t, initial, backwards, d', left', h)
    ensures left' == left - 1 || (left' == left && d < h)
  {
    ghost var c := cal.cal;
    var date := DayAt(initial, backwards, d);
    left' := left;
    if !Busy(cal.cal, date, p) {
      cal.Assign(p, t, date);
      left' := left - 1;
    }
    WalkStep(c, cal.cal, p, t, initial, backwards, d, left, left', h);
    d' := d + 1;
  }

  /** The `while days > 0` walk that books `p` on the first `days` days they are free. */
  method WalkIn(cal: TaskCalendar, p: string, t: string, initial: Date, backwards: bool, days: int)
    modifies cal
    ensures cal.cal == Walk(old(cal.cal), p, t, initial, backwards, 0, days, Horizon(old(cal.cal), p, initial, backwards))
  {
    ghost var h := Horizon(cal.cal, p, initial, backwards);
    ghost var goal := Walk(cal.cal, p, t, initial, backwards, 0, days, h);
    var left := days;
    var d: nat := 0;
    while left > 0
      invariant ClearFrom(cal.cal, p, initial, backwards, if d > h then d else h)
      invariant goal == Walk(cal.cal, p, t, initial, backwards, d, left, h)
      decreases Times(left), if d <= h then h - d else 0
    {
      d, left := WalkDayIn(cal, p, t, initial, backwards, d, left, h, goal);
    }
  }

  /** `for i in range(group[0])` of the assigning scheduler, for one group. */
  method TakeFirstIn(g: Group, cal: TaskCalendar, names: seq<string>, t: string, initial: Date, backwards: bool, est: int) returns (out: Booking)
    modifies cal
    ensures out == TakeFirst(Booking(old(cal.cal), names), g, t, initial, backwards, est, Times(g.count))
    ensures out.Booking? ==> cal.cal == out.cal
  {
    ghost var b := Booking(cal.cal, names);
    var taken := names;
    for i := 0 to Times(g.count)
      invariant TakeFirst(b, g, t, initial, backwards, est, i) == Booking(cal.cal, taken)
    {
      if i >= |g.people| {
        TakeFirstStays(b, g, t, initial, backwards, est, i + 1, Times(g.count));
        return Raised(IndexError);
      }
      var p := g.people[i];
      taken := taken + [p];
      AssignDaysIn(cal, p, t, initial, backwards, Times(est));
    }
    out := Booking(cal.cal, taken);
  }

  /** `AssigningScheduler._schedule`. */
  method AssignSchedule(groups: seq<Group>, cal: TaskCalendar, task: SchedTask, backwards: bool) returns (r: Result<SchedTask, Exc>)
    requires Dated(task)
    modifies cal
    ensures AssignOutcome(old(cal.cal), cal.cal, groups, task, backwards, r)
  {
    var initial := Initial(task, backwards);
    ghost var c0 := cal.cal;
    var names: seq<string> := [];
    for k := 0 to |groups|
      invariant TakeGroups(Booking(c0, []), groups, task.name, initial, backwards, task.estimate, k) == Booking(cal.cal, names)
    {
      var out := TakeFirstIn(groups[k], cal, names, task.name, initial, backwards, task.estimate);
      if out.Raised? {
        TakeGroupsStays(Booking(c0, []), groups, task.name, initial, backwards, task.estimate, k + 1, |groups|);
        return Err(out.error);
      }
      names := out.names;
    }
    r := Ok(task.(assignees := task.assignees + names));
  }

  /** The free-day lists of one pass, each from `free_days`. */
  method FreeListsIn(cal: TaskCalendar, groups: seq<Group>, s: Date, e: Date) returns (frees: seq<seq<nat>>)
    ensures frees == FreeLists(cal.cal, groups, s, e)
  {
    frees := [];
    for k := 0 to |groups|
      invariant |frees| == k
      invariant forall i :: 0 <= i < k ==> frees[i] == FreeOf(cal.cal, groups[i].people, s, e)
    {
      var people := groups[k].people;
      var free: seq<nat> := [];
      for j := 0 to |people|
        invariant |free| == j
        invariant forall m :: 0 <= m < j ==> free[m] == FreeDays(cal.cal, people[m], s, e)
      {
        var f := cal.FreeDaysIn(people[j], s, e);
        free := free + [f];
      }
      assert free == FreeOf(cal.cal, people, s, e);
      frees := frees + [free];
    }
  }

  lemma PickStep(b: Booking, g: Group, free: seq<nat>, t: string, initial: Date, backwards: bool, est: int, j: nat)
    requires |free| == |g.people| && j < |free|
    requires Pick(b, g, free, t, initial, backwards, est, j).Booking?
    ensures var before := Pick(b, g, free, t, initial, backwards, est, j);
      var p := g.people[RankOf(free, |free|)[j]];
      Pick(b, g, free, t, initial, backwards, est, j + 1) ==
        Booking(Book(before.cal, p, t, initial, backwards, est, free[RankOf(free, |free|)[j]]), before.names + [p])
  {
  }

  /** `for j in range(group[0])` of a settled pass, for one group and its free-day list. */
  method PickIn(g: Group, free: seq<nat>, cal: TaskCalendar, names: seq<string>, t: string, initial: Date, backwards: bool, est: int) returns (out: Booking)
    requires |free| == |g.people|
    modifies cal
    ensures out == Pick(Booking(old(cal.cal), names), g, free, t, initial, backwards, est, Times(g.count))
    ensures out.Booking? ==> cal.cal == out.cal
  {
    var order := RankOf(free, |free|);
    ghost var b := Booking(cal.cal, names);
    var taken := names;
    for j := 0 to Times(g.count)
      invariant Pick(b, g, free, t, initial, backwards, est, j) == Booking(cal.cal, taken)
    {
      if j >= |order| {
        PickStays(b, g, free, t, initial, backwards, est, j + 1, Times(g.count));
        return Raised(IndexError);
      }
      var p := g.people[order[j]];
      PickStep(b, g, free, t, initial, backwards, est, j);
      ghost var before := cal.cal;
      taken := taken + [p];
      if free[order[j]] < est {
        AssignDaysIn(cal, p, t, initial, backwards, Times(est));
      } else {
        WalkIn(cal, p, t, initial, backwards, est);
      }
      assert cal.cal == Book(before, p, t, initial, backwards, est, free[order[j]]);
    }
    out := Booking(cal.cal, taken);
  }

  /** The allocation of a settled pass: the ranked people of every group, booked. */
  method PickGroupsIn(groups: seq<Group>, frees: seq<seq<nat>>, cal: TaskCalendar, task: SchedTask, backwards: bool) returns (out: Booking)
    requires Dated(task) && Shaped(frees, groups)
    modifies cal
    ensures out == PickGroups(Booking(old(cal.cal), []), groups, frees, task.name, Initial(task, backwards), backwards, task.estimate, |groups|)
    ensures out.Booking? ==> cal.cal == out.cal
  {
    var initial := Initial(task, backwards);
    ghost var c0 := cal.cal;
    var names: seq<string> := [];
    for k := 0 to |groups|
      invariant PickGroups(Booking(c0, []), groups, frees, task.name, initial, backwards, task.estimate, k) == Booking(cal.cal, names)
    {
      out := PickIn(groups[k], frees[k], cal, names, task.name, initial, backwards, task.estimate);
      if out.Raised? {
        PickGroupsStays(Booking(c0, []), groups, frees, task.name, initial, backwards, task.estimate, k + 1, |groups|);
        return;
      }
      names := out.names;
    }
    out := Booking(cal.cal, names);
  }

  /** A pass that settles ends the run with what the picking gives. */
  lemma LevelSettles(c: Cal, groups: seq<Group>, t: SchedTask, backwards: bool, passes: nat, frees: seq<seq<nat>>, picked: Booking)
    requires Dated(t) && passes > 0 && frees == FreeLists(c, groups, t.start.value, t.end.value) && Settles(frees, groups, t)
    requires picked == PickGroups(Booking(c, []), groups, frees, t.name, Initial(t, backwards), backwards, t.estimate, |groups|)
    ensures picked.Raised? ==> Level(c, groups, t, backwards, passes) == Stopped(picked.error)
    ensures picked.Booking? ==> Level(c, groups, t, backwards, passes) == Leveled(picked.cal, t.(assignees := t.assignees + picked.names))
  {
  }

  /** A pass that does not settle slides the task and tries again. */
  lemma LevelSlides(c: Cal, groups: seq<Group>, t: SchedTask, backwards: bool, passes: nat, frees: seq<seq<nat>>)
    requires Dated(t) && passes > 0 && frees == FreeLists(c, groups, t.start.value, t.end.value) && !Settles(frees, groups, t)
    ensures Level(c, groups, t, backwards, passes) == Level(c, groups, Shift(t, backwards), backwards, passes - 1)
  {
  }

  /** `GreedyLevelingScheduler._schedule`, given at most `passes` passes. */
  method LevelSchedule(groups: seq<Group>, cal: TaskCalendar, task: SchedTask, backwards: bool, passes: nat) returns (r: Result<SchedTask, Exc>)
    requires Dated(task)
    modifies cal
    ensures LevelOutcome(old(cal.cal), cal.cal, groups, task, backwards, passes, r)
  {
    var t := task;
    var left := passes;
    while left > 0
      invariant Dated(t) && t.name == task.name && cal.cal == old(cal.cal)
      invariant Level(cal.cal, groups, t, backwards, left) == Level(cal.cal, groups, task, backwards, passes)
      decreases left
    {
      var frees := FreeListsIn(cal, groups, t.start.value, t.end.value);
      if Settles(frees, groups, t) {
        ghost var c := cal.cal;
        var picked := PickGroupsIn(groups, frees, cal, t, backwards);
        LevelSettles(c, groups, t, backwards, left, frees, picked);
        if picked.Raised? {
          return Err(picked.error);
        }
        return Ok(t.(assignees := t.assignees + picked.names));
      }
      LevelSlides(cal.cal, groups, t, backwards, left, frees);
      t := Shift(t, backwards);
      left := left - 1;
    }
    r := Err(NeverSettles(task.name));
  }

  /**
   * `AssigningScheduler` and, with `leveling`, `GreedyLevelingScheduler`: the two share
   * `__call__`, the calendars and the set of scheduled tasks, and differ in `_schedule`.
   */
  class Scheduler {
    const leveling: bool
    const backwardsCal: TaskCalendar
    const forwardsCal: TaskCalendar
    var scheduled: set<string>

    predicate Valid() {
      backwardsCal != forwardsCal
    }

    constructor (leveling: bool)
      ensures this.leveling == leveling && Valid() && scheduled == {}
      ensures fresh(backwardsCal) && fresh(forwardsCal)
      ensures backwardsCal.cal == map[] && forwardsCal.cal == map[]
    {
      this.leveling := leveling;
      backwardsCal := new TaskCalendar();
      forwardsCal := new TaskCalendar();
      scheduled := {};
    }

    /**
     * `__call__`: skips tasks of zero estimate and tasks already scheduled (tasks compare
     * by name); otherwise books the task's people into the calendar of the pass direction
     * and records the task as scheduled once that succeeds.
     */
    method Call(task: SchedTask, backwards: bool, reg: Registry, passes: nat) returns (r: Result<SchedTask, Exc>)
      requires Valid() && Dated(task)
      modifies this, backwardsCal, forwardsCal
      ensures (task.estimate == 0 || task.name in old(scheduled)) ==>
        r.Ok? && r.value == task && scheduled == old(scheduled) && unchanged(backwardsCal, forwardsCal)
      ensures !(task.estimate == 0 || task.name in old(scheduled)) && GetPeopleOf(task.named, reg).Err? ==>
        r.Err? && r.error == GetPeopleOf(task.named, reg).error && scheduled == old(scheduled) && unchanged(backwardsCal, forwardsCal)
      ensures !(task.estimate == 0 || task.name in old(scheduled)) && GetPeopleOf(task.named, reg).Ok? ==>
        && (if backwards then unchanged(forwardsCal) else unchanged(backwardsCal))
        && scheduled == (if r.Ok? then old(scheduled) + {task.name} else old(scheduled))
        && (!leveling ==> AssignOutcome(old(if backwards then backwardsCal.cal else forwardsCal.cal),
              if backwards then backwardsCal.cal else forwardsCal.cal, GetPeopleOf(task.named, reg).value, task, backwards, r))
        && (leveling ==> LevelOutcome(old(if backwards then backwardsCal.cal else forwardsCal.cal),
              if backwards then backwardsCal.cal else forwardsCal.cal, GetPeopleOf(task.named, reg).value, task, backwards, passes, r))
      ensures r.Ok? ==> Slid(task, r.value, backwards)
    {
      if task.estimate == 0 || task.name in scheduled {
        return Ok(task);
      }
      var people := GetPeople(task.named, reg);
      if people.Err? {
        return Err(people.error);
      }
      var cal := if backwards then backwardsCal else forwardsCal;
      if leveling {
        r := LevelSchedule(people.value, cal, task, backwards, passes);
        LevelFacts(old(cal.cal), people.value, task, backwards, passes);
      } else {
        r := AssignSchedule(people.value, cal, task, backwards);
        if r.Ok? {
          assert r.value.assignees[..|task.assignees|] == task.assignees;
        }
      }
      if r.Ok? {
        scheduled := scheduled + {task.name};
      }
    }

    /** `get_calendar`: a new calendar holding the backward entries, then the forward ones. */
    method GetCalendar() returns (c: TaskCalendar)
      requires Valid()
      ensures fresh(c)
      ensures forall d, p :: Get(c.cal, d, p) == Get(backwardsCal.cal, d, p) + Get(forwardsCal.cal, d, p)
    {
      c := new TaskCalendar();
      c.Add(backwardsCal);
      c.Add(forwardsCal);
    }
  }
}
