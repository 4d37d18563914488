/**
 * The records of the rewritten backend: task status and its spellings, people with an
 * allocation, teams, the task record every pipeline stage reads, and the people/team
 * registry that team declarations fill.
 */
module RwTypes {
  import opened Wrappers
  import opened Text
  import opened Exceptions
  import opened Dates

  datatype Status = InProgress | Blocked | Milestone | Completed | NotStarted

  /** The enum member's own name, which `Status[name]` looks up. */
  function StatusName(st: Status): string {
    match st
    case InProgress => "InProgress"
    case Blocked => "Blocked"
    case Milestone => "Milestone"
    case Completed => "Completed"
    case NotStarted => "NotStarted"
  }

  /** The free-text spellings accepted for each status. */
  const StatusNormalization: seq<(string, Status)> := [
    ("in progress", InProgress),
    ("blocked", Blocked),
    ("milestone", Milestone),
    ("completed", Completed),
    ("not started", NotStarted),
    ("", NotStarted),
    ("in review", InProgress),
    ("investigating", InProgress),
    ("on hold", InProgress),
    ("waiting", InProgress),
    ("paused", InProgress)
  ]

  /** The members by name, as `Status[name]` finds them. */
  const StatusMembers: seq<(string, Status)> := [
    ("InProgress", InProgress),
    ("Blocked", Blocked),
    ("Milestone", Milestone),
    ("Completed", Completed),
    ("NotStarted", NotStarted)
  ]

  /** The status listed under `key` at index `from` or later, the first entry winning. */
  function Find(table: seq<(string, Status)>, key: string, from: nat): Option<Status>
    decreases |table| - from
  {
    if from >= |table| then None
    else if table[from].0 == key then Some(table[from].1)
    else Find(table, key, from + 1)
  }

  lemma {:induction false} FindAt(table: seq<(string, Status)>, key: string, from: nat, i: nat)
    requires from <= i < |table| && table[i].0 == key
    requires forall j :: from <= j < i ==> table[j].0 != key
    ensures Find(table, key, from) == Some(table[i].1)
    decreases i - from
  {
    if from < i {
      FindAt(table, key, from + 1, i);
    }
  }

  lemma {:induction false} FindAbsent(table: seq<(string, Status)>, key: string, from: nat)
    requires forall j :: from <= j < |table| ==> table[j].0 != key
    ensures Find(table, key, from) == None
    decreases |table| - from
  {
    if from < |table| {
      FindAbsent(table, key, from + 1);
    }
  }

  /** A listed spelling first, then the member name; anything else is a lookup error. */
  function ParseStatus(status: string): (r: Result<Status, Exc>)
    ensures r.Err? ==> r.error == UnknownStatus(status)
  {
    match Find(StatusNormalization, status, 0)
    case Some(st) => Ok(st)
    case None =>
      match Find(StatusMembers, status, 0)
      case Some(st) => Ok(st)
      case None => Err(UnknownStatus(status))
  }

  /** Every listed spelling is empty or starts with a lower-case letter. */
  lemma SpellingsLowerCase(j: nat)
    requires j < |StatusNormalization|
    ensures StatusNormalization[j].0 == [] || 'a' <= StatusNormalization[j].0[0] <= 'z'
  {
  }

  /** A capitalised word is not a listed spelling. */
  lemma CapitalisedNotSpelled(name: string)
    requires |name| > 0 && 'A' <= name[0] <= 'Z'
    ensures Find(StatusNormalization, name, 0) == None
  {
    forall j | 0 <= j < |StatusNormalization|
      ensures StatusNormalization[j].0 != name
    {
      SpellingsLowerCase(j);
    }
    FindAbsent(StatusNormalization, name, 0);
  }

  /** Every member name parses back to its member. */
  lemma ParseStatusName(st: Status)
    ensures ParseStatus(StatusName(st)) == Ok(st)
  {
    CapitalisedNotSpelled(StatusName(st));
    match st
    case InProgress => FindAt(StatusMembers, "InProgress", 0, 0);
    case Blocked => FindAt(StatusMembers, "Blocked", 0, 1);
    case Milestone => FindAt(StatusMembers, "Milestone", 0, 2);
    case Completed => FindAt(StatusMembers, "Completed", 0, 3);
    case NotStarted => FindAt(StatusMembers, "NotStarted", 0, 4);
  }

  /** A string that is neither a listed spelling nor a member name is rejected. */
  lemma ParseStatusUnknown(status: string)
    requires forall j :: 0 <= j < |StatusNormalization| ==> StatusNormalization[j].0 != status
    requires forall st: Status :: status != StatusName(st)
    ensures ParseStatus(status) == Err(UnknownStatus(status))
  {
    FindAbsent(StatusNormalization, status, 0);
    assert status != StatusName(InProgress) && status != StatusName(Blocked);
    assert status != StatusName(Milestone) && status != StatusName(Completed);
    assert status != StatusName(NotStarted);
    FindAbsent(StatusMembers, status, 0);
  }

  /** The lower-case spelling of a listed entry gives that entry's status. */
  lemma ParseStatusSpelling(i: nat)
    requires i < |StatusNormalization|
    ensures ParseStatus(StatusNormalization[i].0) == Ok(StatusNormalization[i].1)
  {
    var key := StatusNormalization[i].0;
    forall j | 0 <= j < i
      ensures StatusNormalization[j].0 != key
    {
      assert |StatusNormalization[j].0| != |key| || StatusNormalization[j].0[0] != key[0]
        || StatusNormalization[j].0[1] != key[1];
    }
    FindAt(StatusNormalization, key, 0, i);
  }

  datatype Person = Person(name: string, allocation: real)

  /** Decimal text with an optional sign and fraction, as `float()` reads it after stripping. */
  predicate AllDigits(s: string) {
    forall i :: 0 <= i < |s| ==> IsDigit(s[i])
  }

  function Pow10(n: nat): (r: nat)
    ensures r >= 1
  {
    if n == 0 then 1 else 10 * Pow10(n - 1)
  }

  function ParseDecimal(text: string): Option<real> {
    ParseSigned(Strip(text))
  }

  function ParseSigned(t: string): Option<real> {
    if |t| > 0 && t[0] == '-' then
      match ParseUnsigned(t[1..])
      case Some(v) => Some(-v)
      case None => None
    else if |t| > 0 && t[0] == '+' then ParseUnsigned(t[1..])
    else ParseUnsigned(t)
  }

  function ParseUnsigned(body: string): Option<real> {
    var parts := Split(body, '.');
    if |parts| == 1 && IsDigits(parts[0]) then
      Some(DigitsValue(parts[0]) as real)
    else if |parts| == 2 && AllDigits(parts[0]) && AllDigits(parts[1]) && |parts[0]| + |parts[1]| > 0 then
      Some(DigitsValue(parts[0]) as real + DigitsValue(parts[1]) as real / Pow10(|parts[1]|) as real)
    else None
  }

  /** An allocation: a number on [0, 1]. */
  function ValidateAndConvertFloat(text: string): (r: Result<real, Exc>)
    ensures r.Ok? ==> 0.0 <= r.value <= 1.0 && ParseDecimal(text) == Some(r.value)
    ensures r.Err? ==> r.error == NotAFloat(text) || r.error == BadAllocation(text)
  {
    match ParseDecimal(text)
    case None => Err(NotAFloat(text))
    case Some(v) => if 0.0 <= v <= 1.0 then Ok(v) else Err(BadAllocation(text))
  }

  /** A whole number is an allocation exactly when it is 0 or 1. */
  lemma ValidateWholeNumber(n: nat)
    ensures ValidateAndConvertFloat(NatToString(n)).Ok? <==> n <= 1
  {
    ParseDecimalDigits(NatToString(n));
    NatToStringRoundTrip(n);
  }

  /** A plain digit string reads as its value. */
  lemma ParseDecimalDigits(s: string)
    requires IsDigits(s)
    ensures ParseDecimal(s) == Some(DigitsValue(s) as real)
  {
    assert !IsSpace(s[0]) && !IsSpace(s[|s| - 1]);
    StripOfPlain(s);
    assert ParseSigned(s) == ParseUnsigned(s);
    DigitsHaveNo(s, '.');
    SplitWithout(s, '.');
  }

  lemma DigitsHaveNo(s: string, c: char)
    requires AllDigits(s) && !IsDigit(c)
    ensures c !in s
  {
  }

  /**
   * `name` or `name:allocation` after stripping; more than one ':' or an allocation where
   * none is allowed is an invalid specification.
   */
  function ParsePerson(person: string, allowAllocation: bool): (r: Result<Person, Exc>)
    ensures r.Ok? ==> ':' !in r.value.name && 0.0 <= r.value.allocation <= 1.0
  {
    var pa := Split(Strip(person), ':');
    if |pa| == 1 then Ok(Person(pa[0], 1.0))
    else if |pa| == 2 && allowAllocation then
      var a :- ValidateAndConvertFloat(pa[1]);
      Ok(Person(pa[0], a))
    else Err(InvalidAllocationSpec(person))
  }

  /** Without ':' the whole stripped text is the name and the allocation is 1. */
  lemma ParsePersonPlain(person: string, allowAllocation: bool)
    requires ':' !in Strip(person)
    ensures ParsePerson(person, allowAllocation) == Ok(Person(Strip(person), 1.0))
  {
    SplitWithout(Strip(person), ':');
  }

  /** Two or more ':' are always rejected, and so is one ':' when allocations are not allowed. */
  lemma ParsePersonRejects(person: string, allowAllocation: bool)
    requires Count(Strip(person), ':') >= 2 || (!allowAllocation && ':' in Strip(person))
    ensures ParsePerson(person, allowAllocation) == Err(InvalidAllocationSpec(person))
  {
    SplitCount(Strip(person), ':');
    if ':' in Strip(person) {
      CountPositive(Strip(person), ':');
    }
  }

  /** A `name:allocation` text with no surrounding space is its own stripped form. */
  lemma PlainSpecification(name: string, alloc: string)
    requires name != [] && !IsSpace(name[0])
    requires alloc == [] || !IsSpace(alloc[|alloc| - 1])
    ensures Strip(name + ":" + alloc) == name + ":" + alloc
  {
    var s := name + ":" + alloc;
    assert s[0] == name[0];
    assert s[|s| - 1] == if alloc == [] then ':' else alloc[|alloc| - 1];
    StripOfPlain(s);
  }

  /** Splitting `name:allocation` at its one ':' gives the two parts. */
  lemma SplitSpecification(name: string, alloc: string)
    requires ':' !in name && ':' !in alloc
    ensures Split(name + ":" + alloc, ':') == [name, alloc]
  {
    SplitAfter(name, alloc, ':');
    SplitWithout(alloc, ':');
  }

  /** `name:allocation` splits at its one ':' and validates the allocation text. */
  lemma ParsePersonWithAllocation(name: string, alloc: string)
    requires ':' !in name && ':' !in alloc
    requires name != [] && !IsSpace(name[0])
    requires alloc == [] || !IsSpace(alloc[|alloc| - 1])
    ensures var r := ParsePerson(name + ":" + alloc, true);
      match ValidateAndConvertFloat(alloc)
      case Ok(a) => r == Ok(Person(name, a))
      case Err(e) => r == Err(e)
  {
    PlainSpecification(name, alloc);
    SplitSpecification(name, alloc);
  }

  datatype Team = Team(name: string, members: seq<Person>)

  /** The people a list of members names, as a set. */
  function MemberSet(members: seq<Person>): (r: set<Person>)
    ensures forall p :: p in r <==> p in members
  {
    set p | p in members
  }

  function AllMembers(teams: seq<Team>): (r: set<Person>)
    ensures forall t, p :: t in teams && p in t.members ==> p in r
  {
    if |teams| == 0 then {} else AllMembers(teams[..|teams| - 1]) + MemberSet(teams[|teams| - 1].members)
  }

  /** The solver-facing fields find_solution attaches to a task. */
  datatype SchedulerFields = SchedulerFields(
    id: int, pool: seq<int>, specific: seq<int>,
    earliestStart: int, latestEnd: int, estimate: int, exclude: bool)

  /**
   * The task record: the union of the fields the pipeline stages read. Tasks hash by
   * name; graph nodes are identified by name.
   */
  datatype InputTask = InputTask(
    name: string,
    description: string,
    specificAssignments: bool,
    assignees: seq<string>,
    next: seq<string>,
    parallelizable: bool,
    estimate: Option<int>,
    startDate: Option<Date>,
    endDate: Option<Date>,
    status: Status,
    inputRowIdx: int,
    schedulerFields: Option<SchedulerFields>)

  /**
   * The people and team registry. Its two collections are class-level attributes in the
   * source, so every `Metadata()` refers to this one registry and additions accumulate.
   */
  class Metadata {
    var teams: seq<Team>
    var people: set<Person>

    constructor ()
      ensures teams == [] && people == {}
    {
      teams := [];
      people := {};
    }

    /** Insertion into a set of people: a no-op when an equal person is present. */
    method AddPerson(person: Person)
      modifies this
      ensures people == old(people) + {person}
      ensures teams == old(teams)
    {
      if person !in people {
        people := people + {person};
      }
    }

    /** Registers every member, then records a new team with the same name and members. */
    method AddTeam(team: Team)
      modifies this
      ensures people == old(people) + MemberSet(team.members)
      ensures teams == old(teams) + [Team(team.name, team.members)]
    {
      for i := 0 to |team.members|
        invariant people == old(people) + MemberSet(team.members[..i])
        invariant teams == old(teams)
      {
        AddPerson(team.members[i]);
        assert team.members[..i + 1] == team.members[..i] + [team.members[i]];
      }
      assert team.members[..|team.members|] == team.members;
      teams := teams + [Team(team.name, team.members)];
    }
  }
}
