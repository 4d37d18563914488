/**
 * backend/scheduler.py `TaskCalendar`: which tasks each person works on, day by day. The
 * nested `{date: {person: [task]}}` dictionary is flattened to one map keyed by (date,
 * person). A task is recorded by its name, which is its identity. `busy` looks a person up
 * in the day's inner dictionary, which `assign` fills, so a person is busy on a day exactly
 * when the flattened map holds that key.
 */
module OrigCalendar {
  import opened Dates

  type Cal = map<(Date, string), seq<string>>

  /** `cal[date][person]`: the empty list for a key never assigned. */
  function Get(c: Cal, d: Date, p: string): seq<string> {
    if (d, p) in c then c[(d, p)] else []
  }

  /** `cal[date][person].append(task)`. */
  function Put(c: Cal, d: Date, p: string, t: string): (r: Cal)
    ensures Get(r, d, p) == Get(c, d, p) + [t]
    ensures forall e, q :: (e, q) != (d, p) ==> Get(r, e, q) == Get(c, e, q)
    ensures r.Keys == c.Keys + {(d, p)}
  {
    c[(d, p) := Get(c, d, p) + [t]]
  }

  /** Every key holds at least one task, as a calendar filled by `assign` does. */
  predicate Entries(c: Cal) {
    forall k :: k in c ==> c[k] != []
  }

  /** `busy(person, date)`. */
  predicate Busy(c: Cal, d: Date, p: string) {
    (d, p) in c
  }

  /** The number of days in [s, e) on which `p` is not busy. */
  function FreeDays(c: Cal, p: string, s: Date, e: Date): (r: nat)
    ensures r <= if s < e then e - s else 0
    decreases e - s
  {
    if s >= e then 0 else (if Busy(c, s, p) then 0 else 1) + FreeDays(c, p, s + 1, e)
  }

  /**
   * Assigning `p` a day in [s, e) on which they were free takes exactly one free day away;
   * any other assignment leaves their count alone.
   */
  lemma {:induction false} FreeDaysAfterPut(c: Cal, p: string, s: Date, e: Date, d: Date, q: string, t: string)
    ensures FreeDays(Put(c, d, q, t), p, s, e) ==
      if q == p && s <= d < e && !Busy(c, d, p) then FreeDays(c, p, s, e) - 1 else FreeDays(c, p, s, e)
    decreases e - s
  {
    if s < e {
      FreeDaysAfterPut(c, p, s + 1, e, d, q, t);
    }
  }

  /** `assign` keeps every key of the calendar filled. */
  lemma PutEntries(c: Cal, d: Date, p: string, t: string)
    requires Entries(c)
    ensures Entries(Put(c, d, p, t)) && Busy(Put(c, d, p, t), d, p)
  {
  }

  /** A person with no entry at all is free on every day of the range. */
  lemma {:induction false} FreeDaysOfIdle(c: Cal, p: string, s: Date, e: Date)
    requires forall d :: !Busy(c, d, p)
    ensures FreeDays(c, p, s, e) == if s < e then e - s else 0
    decreases e - s
  {
    if s < e {
      FreeDaysOfIdle(c, p, s + 1, e);
    }
  }

  class TaskCalendar {
    var cal: Cal

    /** An empty calendar. */
    constructor ()
      ensures cal == map[]
    {
      cal := map[];
    }

    /** `free_days`: walks the days of [start, end) one business day at a time. */
    method FreeDaysIn(person: string, start: Date, end: Date) returns (free: nat)
      ensures free == FreeDays(cal, person, start, end)
    {
      free := 0;
      var date := start;
      while date < end
        invariant free + FreeDays(cal, person, date, end) == FreeDays(cal, person, start, end)
        decreases end - date
      {
        if !Busy(cal, date, person) {
          free := free + 1;
        }
        date := BusdaysOffset(date, 1);
      }
    }

    /** `assign`: appends the task to the person's list for that date, keeping what was there. */
    method Assign(person: string, task: string, date: Date)
      modifies this
      ensures cal == Put(old(cal), date, person, task)
    {
      cal := cal[(date, person) := Get(cal, date, person) + [task]];
    }

    /**
     * `add`: every entry of `other` is appended to this calendar's list for the same date and
     * person, after what was there. Adding a calendar to itself would append to the lists
     * being read and never finish, so `other` is another calendar.
     */
    method Add(other: TaskCalendar)
      requires other != this
      modifies this
      ensures forall d, p :: Get(cal, d, p) == Get(old(cal), d, p) + Get(other.cal, d, p)
      ensures Entries(old(cal)) && Entries(other.cal) ==> Entries(cal)
    {
      var todo := other.cal.Keys;
      ghost var done: set<(Date, string)> := {};
      while todo != {}
        invariant todo + done == other.cal.Keys && todo !! done
        invariant forall d, p :: (d, p) in done ==> Get(cal, d, p) == Get(old(cal), d, p) + Get(other.cal, d, p)
        invariant forall d, p :: (d, p) !in done ==> Get(cal, d, p) == Get(old(cal), d, p)
        invariant Entries(old(cal)) && Entries(other.cal) ==> Entries(cal)
        decreases |todo|
      {
        var key :| key in todo;
        ghost var before := cal;
        AssignAll(key.1, key.0, other.cal[key]);
        AddedKey(before, cal, key, other.cal[key]);
        todo := todo - {key};
        done := done + {key};
      }
    }

    static lemma AddedKey(before: Cal, after: Cal, key: (Date, string), tasks: seq<string>)
      requires after == if tasks == [] then before else before[key := Get(before, key.0, key.1) + tasks]
      ensures Get(after, key.0, key.1) == Get(before, key.0, key.1) + tasks
      ensures forall d, p :: (d, p) != key ==> Get(after, d, p) == Get(before, d, p)
    {
    }

    /** The innermost loop of `add`: the tasks of one date and person, appended in order. */
    method AssignAll(person: string, date: Date, tasks: seq<string>)
      modifies this
      ensures cal == if tasks == [] then old(cal) else old(cal)[(date, person) := Get(old(cal), date, person) + tasks]
    {
      ghost var prev := Get(cal, date, person);
      for i := 0 to |tasks|
        invariant cal == if i == 0 then old(cal) else old(cal)[(date, person) := prev + tasks[..i]]
      {
        ghost var mid := cal;
        Assign(person, tasks[i], date);
        assert tasks[..i + 1] == tasks[..i] + [tasks[i]];
        assert Get(mid, date, person) == prev + tasks[..i];
        assert (prev + tasks[..i]) + [tasks[i]] == prev + tasks[..i + 1];
        assert cal == old(cal)[(date, person) := prev + tasks[..i + 1]];
      }
      assert tasks[..|tasks|] == tasks;
    }
  }

  /** After `add`, a person is busy on a day iff either calendar had them busy that day. */
  lemma AddBusy(before: Cal, other: Cal, after: Cal, d: Date, p: string)
    requires forall e, q :: Get(after, e, q) == Get(before, e, q) + Get(other, e, q)
    requires Entries(before) && Entries(other) && Entries(after)
    ensures Busy(after, d, p) <==> Busy(before, d, p) || Busy(other, d, p)
  {
    assert Get(after, d, p) == Get(before, d, p) + Get(other, d, p);
  }
}
