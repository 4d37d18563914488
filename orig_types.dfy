/**
 * The original backend's shared records: notifications, the row dictionaries the parsers
 * hand on, `int()` of a cell, tasks with their instance counter, and the people and team
 * registry `Metadata`.
 */
module OrigTypes {
  import opened Wrappers
  import opened Text
  import opened Exceptions
  import opened Dates

  /** The three severities of backend/notification.py; `FATAL` is not among them. */
  datatype Severity = Info | Error | Severe

  /** `severity.name`. */
  function SeverityName(s: Severity): string {
    match s
    case Info => "INFO"
    case Error => "ERROR"
    case Severe => "SEVERE"
  }

  datatype Notification = Notification(severity: Severity, message: string)

  /**
   * A value of a row dictionary: a string cell, or the list of names the CSV parser stores
   * under `next` (and that JSON input may hold anywhere).
   */
  datatype Cell = Str(s: string) | List(items: seq<string>)

  type Row = map<string, Cell>

  /** Python truthiness of a cell: the empty string and the empty list are false. */
  predicate Truthy(c: Cell) {
    match c
    case Str(s) => s != []
    case List(items) => items != []
  }

  /** What `for x in cell` visits: the characters of a string, the entries of a list. */
  function Elements(c: Cell): (r: seq<string>)
    ensures c.List? ==> r == c.items
    ensures c.Str? ==> |r| == |c.s| && forall i :: 0 <= i < |r| ==> r[i] == [c.s[i]]
  {
    match c
    case Str(s) => seq(|s|, i requires 0 <= i < |s| => [s[i]])
    case List(items) => items
  }

  lemma ElementsTruthy(c: Cell)
    ensures Truthy(c) <==> Elements(c) != []
  {
  }

  /** `str(cell)`: the string itself, or the list's repr with each entry shown by `repr`. */
  function Show(c: Cell): (r: string)
    ensures c.Str? ==> r == c.s
    ensures c.List? ==> r == "[" + Join(", ", seq(|c.items|, i requires 0 <= i < |c.items| => Repr(c.items[i]))) + "]"
  {
    match c
    case Str(s) => s
    case List(items) => "[" + Join(", ", seq(|items|, i requires 0 <= i < |items| => Repr(items[i]))) + "]"
  }

  /** The quote `repr` picks: double quotes only for text with a single quote and no double quote. */
  function ReprQuote(s: string): char {
    if '\'' in s && '"' !in s then '"' else '\''
  }

  /** One character inside `repr`'s quotes `q`: backslash, the quote and \n, \r, \t are escaped. */
  function EscapeChar(c: char, q: char): string {
    if c == '\\' then "\\\\"
    else if c == q then ['\\', q]
    else if c == '\n' then "\\n"
    else if c == '\r' then "\\r"
    else if c == '\t' then "\\t"
    else [c]
  }

  function Escape(s: string, q: char): string {
    if |s| == 0 then [] else EscapeChar(s[0], q) + Escape(s[1..], q)
  }

  /** `repr(s)` of a string: the escaped text between the chosen quotes. */
  function Repr(s: string): (r: string)
    ensures |r| >= 2 && r[0] == ReprQuote(s) && r[|r| - 1] == ReprQuote(s)
    ensures Unescape(r[1..|r| - 1]) == s
  {
    EscapeRoundTrip(s, ReprQuote(s));
    var r := [ReprQuote(s)] + Escape(s, ReprQuote(s)) + [ReprQuote(s)];
    assert r[1..|r| - 1] == Escape(s, ReprQuote(s));
    r
  }

  /** Reading escaped text back: a backslash takes the next character literally, or as \n, \r, \t. */
  function Unescape(t: string): string
    decreases |t|
  {
    if |t| == 0 then []
    else if t[0] == '\\' && |t| >= 2 then
      [if t[1] == 'n' then '\n' else if t[1] == 'r' then '\r' else if t[1] == 't' then '\t' else t[1]] + Unescape(t[2..])
    else [t[0]] + Unescape(t[1..])
  }

  /** Unescaping undoes escaping, for either quote. */
  lemma {:induction false} EscapeRoundTrip(s: string, q: char)
    requires q == '\'' || q == '"'
    ensures Unescape(Escape(s, q)) == s
    decreases |s|
  {
    if |s| > 0 {
      EscapeRoundTrip(s[1..], q);
      UnescapeChar(s[0], q, Escape(s[1..], q));
    }
  }

  lemma UnescapeChar(c: char, q: char, rest: string)
    requires q == '\'' || q == '"'
    ensures Unescape(EscapeChar(c, q) + rest) == [c] + Unescape(rest)
  {
    var e := EscapeChar(c, q);
    if |e| == 2 {
      assert (e + rest)[2..] == rest;
    } else {
      assert (e + rest)[1..] == rest;
    }
  }

  /** Text with no quote, backslash or \n, \r, \t is shown between single quotes unchanged. */
  lemma {:induction false} ReprOfPlain(s: string)
    requires forall i :: 0 <= i < |s| ==> s[i] !in "'\"\\\n\r\t"
    ensures Repr(s) == "'" + s + "'"
    decreases |s|
  {
    PlainEscape(s, '\'');
  }

  lemma {:induction false} PlainEscape(s: string, q: char)
    requires forall i :: 0 <= i < |s| ==> s[i] !in "'\"\\\n\r\t"
    requires q == '\'' || q == '"'
    ensures Escape(s, q) == s
    decreases |s|
  {
    if |s| > 0 {
      PlainEscape(s[1..], q);
      assert s == [s[0]] + s[1..];
    }
  }

  /**
   * The decimal numerals `int()` accepts: ASCII digits, with single underscores allowed
   * between two digits.
   */
  predicate IsNumeral(t: string) {
    |t| > 0 && IsDigit(t[0]) && IsDigit(t[|t| - 1]) && DigitsOrUnderscores(t) && NoDoubleUnderscore(t)
  }

  predicate DigitsOrUnderscores(t: string) {
    forall i :: 0 <= i < |t| ==> IsDigit(t[i]) || t[i] == '_'
  }

  predicate NoDoubleUnderscore(t: string)
    decreases |t|
  {
    |t| < 2 || (!(t[0] == '_' && t[1] == '_') && NoDoubleUnderscore(t[1..]))
  }

  /** The digits of a numeral, underscores dropped. */
  function DropUnderscores(t: string): (r: string)
    requires DigitsOrUnderscores(t)
    ensures forall i :: 0 <= i < |r| ==> IsDigit(r[i])
  {
    if |t| == 0 then []
    else (if t[0] == '_' then [] else [t[0]]) + DropUnderscores(t[1..])
  }

  /** A plain digit string is a numeral and keeps all its digits. */
  lemma {:induction false} DigitsAreNumeral(t: string)
    requires IsDigits(t)
    ensures IsNumeral(t) && DropUnderscores(t) == t
    decreases |t|
  {
    if |t| > 1 {
      DigitsAreNumeral(t[1..]);
    }
  }

  /** The value of a numeral. */
  function NumeralValue(t: string): nat
    requires IsNumeral(t)
  {
    DigitsValue(DropUnderscores(t))
  }

  /** What `int()` reads after stripping: an optional sign before a numeral. */
  predicate IsIntLiteral(t: string) {
    IsNumeral(t) || (|t| > 0 && (t[0] == '-' || t[0] == '+') && IsNumeral(t[1..]))
  }

  /** `int(s)` of a string: optional white space around an optionally signed numeral. */
  function ParseInt(s: string): (r: Option<int>)
    ensures r.Some? ==> |Strip(s)| > 0
  {
    ParseSigned(Strip(s))
  }

  /**
   * `int(s)` succeeds exactly when the stripped text is an optionally signed numeral, and
   * then its magnitude is the numeral's value, negated after '-'.
   */
  lemma ParseIntMeaning(s: string)
    ensures ParseInt(s).Some? <==> IsIntLiteral(Strip(s))
    ensures ParseInt(s).Some? && IsNumeral(Strip(s)) ==> ParseInt(s).value == NumeralValue(Strip(s))
    ensures ParseInt(s).Some? && !IsNumeral(Strip(s)) ==>
      ParseInt(s).value == (if Strip(s)[0] == '-' then -1 else 1) * NumeralValue(Strip(s)[1..])
  {
  }

  /** An optional sign followed by a numeral. */
  function ParseSigned(t: string): (r: Option<int>)
    ensures r.Some? <==> IsIntLiteral(t)
  {
    if IsNumeral(t) then Some(NumeralValue(t))
    else if |t| > 0 && (t[0] == '-' || t[0] == '+') && IsNumeral(t[1..]) then
      var v: int := NumeralValue(t[1..]);
      Some(if t[0] == '-' then -v else v)
    else None
  }

  /** `int("1_000") == 1000`: digit groups may be separated by underscores. */
  lemma ParseIntUnderscore()
    ensures ParseInt("1_000") == Some(1000)
  {
    StripOfPlain("1_000");
    NumeralExample();
  }

  lemma NumeralExample()
    ensures IsNumeral("1_000") && NumeralValue("1_000") == 1000
  {
    var t := "1_000";
    DigitsAreNumeral("000");
    assert t[1..] == "_000" && t[1..][1..] == "000";
    assert NoDoubleUnderscore(t);
    assert DropUnderscores(t) == "1000";
    assert DigitsValue("1000") == 1000 by {
      assert "1000"[..3] == "100";
      assert "100"[..2] == "10";
      assert "10"[..1] == "1";
    }
  }

  /** Two underscores in a row, or one at either end, are rejected. */
  lemma ParseIntRejectsUnderscores()
    ensures ParseInt("1__0").None? && ParseInt("_1").None? && ParseInt("1_").None?
  {
    assert Strip("1__0") == "1__0";
    assert Strip("_1") == "_1";
    assert Strip("1_") == "1_";
    assert !NoDoubleUnderscore("1__0") by { assert "1__0"[1..] == "__0"; }
  }

  /** `int(str(i)) == i`. */
  lemma ParseIntRoundTrip(i: int)
    ensures ParseInt(IntToString(i)) == Some(i)
  {
    var s := IntToString(i);
    SignedRoundTrip(i);
    StripOfPlain(s);
  }

  lemma SignedRoundTrip(i: int)
    ensures ParseSigned(IntToString(i)) == Some(i)
    ensures !IsSpace(IntToString(i)[0]) && !IsSpace(IntToString(i)[|IntToString(i)| - 1])
  {
    var s := IntToString(i);
    if i < 0 {
      var d := NatToString(-i);
      NatToStringRoundTrip(-i);
      DigitsAreNumeral(d);
      assert s == ['-'] + d;
      assert s[|s| - 1] == d[|d| - 1];
      assert s[1..] == d;
    } else {
      NatToStringRoundTrip(i);
      DigitsAreNumeral(s);
      assert IsDigit(s[0]);
    }
  }

  /** `int(cell)`: a string that does not parse raises ValueError, a list raises TypeError. */
  function IntOf(c: Cell): (r: Result<int, Exc>)
    ensures c.List? ==> r == Err(TypeError("int"))
    ensures c.Str? ==> (r.Ok? <==> ParseInt(c.s).Some?)
  {
    match c
    case Str(s) => if ParseInt(s).Some? then Ok(ParseInt(s).value) else Err(NotAnInt(s))
    case List(_) => Err(TypeError("int"))
  }

  /** The class attribute `Task.next_id`. */
  class IdCounter {
    var nextId: int

    constructor ()
      ensures nextId == 1
    {
      nextId := 1;
    }
  }

  /** A task's identity: its instance number and its name. */
  datatype Task = Task(id: int, name: string)

  /** `Task(name)`: takes the next instance number and bumps the counter. */
  method NewTask(counter: IdCounter, name: string) returns (t: Task)
    modifies counter
    ensures t == Task(old(counter.nextId), name)
    ensures counter.nextId == old(counter.nextId) + 1
  {
    t := Task(counter.nextId, name);
    counter.nextId := counter.nextId + 1;
  }

  /** Tasks built one after another carry consecutive, hence strictly increasing, numbers. */
  method NewTasks(counter: IdCounter, names: seq<string>) returns (ts: seq<Task>)
    modifies counter
    ensures |ts| == |names|
    ensures forall i :: 0 <= i < |ts| ==> ts[i] == Task(old(counter.nextId) + i, names[i])
    ensures forall i, j :: 0 <= i < j < |ts| ==> ts[i].id < ts[j].id
    ensures counter.nextId == old(counter.nextId) + |names|
  {
    ts := [];
    for k := 0 to |names|
      invariant |ts| == k
      invariant forall i :: 0 <= i < k ==> ts[i] == Task(old(counter.nextId) + i, names[i])
      invariant counter.nextId == old(counter.nextId) + k
    {
      var t := NewTask(counter, names[k]);
      ts := ts + [t];
    }
  }

  /** `__eq__`: tasks are equal iff their names are. */
  predicate SameTask(a: Task, b: Task) {
    a.name == b.name
  }

  /** `__hash__`: the hash of the name, for whatever string hash Python uses. */
  function TaskHash(t: Task, hash: string -> int): int {
    hash(t.name)
  }

  /** Equality ignores the instance number, and equal tasks hash alike. */
  lemma SameTaskIgnoresId(a: Task, b: Task, hash: string -> int)
    ensures SameTask(a, b) <==> a.name == b.name
    ensures SameTask(a, b) ==> TaskHash(a, hash) == TaskHash(b, hash)
    ensures SameTask(a, Task(a.id + 1, a.name))
  {
  }

  /** `set(Metadata.ANON)`: the set of the letters of "Anon". */
  const InitialNames: set<string> := {"A", "n", "o"}

  lemma AnonIsNotReserved()
    ensures "Anon" !in InitialNames
    ensures "A" in InitialNames && "n" in InitialNames && "o" in InitialNames
  {
  }

  /** The registry collections of `Metadata`. */
  datatype Registry = Registry(
    teams: map<string, seq<string>>,
    people: map<string, string>,
    names: set<string>,
    allocation: map<string, real>)

  /** `teams[team]` of a `defaultdict(list)`: the empty list for a team never added to. */
  function Members(teams: map<string, seq<string>>, team: string): seq<string> {
    if team in teams then teams[team] else []
  }

  /**
   * `add_person`. The checks run in order; a new team's person allocation and name are
   * recorded before the person name is checked, so that failure leaves them behind.
   */
  function AddPersonOf(reg: Registry, team: string, person: string, allocation: real): (r: (Outcome<Exc>, Registry))
    ensures team == person ==> r == (Fail(TeamIsPerson(team)), reg)
    ensures team != person && team !in reg.teams && team in reg.names ==> r == (Fail(TeamNameTaken(team)), reg)
    ensures r.0.Pass? <==> team != person && person !in reg.names && (team in reg.teams || team !in reg.names)
    ensures r.0.Pass? ==> r.1 == Registry(
      reg.teams[team := Members(reg.teams, team) + [person]],
      reg.people[person := team],
      reg.names + {person} + (if team in reg.teams then {} else {team}),
      reg.allocation[person := allocation])
    ensures r.0.Fail? ==> r.1.teams == reg.teams && r.1.people == reg.people
  {
    if team == person then (Fail(TeamIsPerson(team)), reg)
    else
      var reg1 :=
        if team in reg.teams then Ok(reg)
        else if team in reg.names then Err(TeamNameTaken(team))
        else Ok(reg.(allocation := reg.allocation[person := allocation], names := reg.names + {team}));
      if reg1.Err? then (Fail(reg1.error), reg)
      else if person in reg1.value.names then (Fail(PersonNameTaken(person)), reg1.value)
      else
        (Pass, Registry(
          reg.teams[team := Members(reg.teams, team) + [person]],
          reg.people[person := team],
          reg.names + {person} + (if team in reg.teams then {} else {team}),
          reg.allocation[person := allocation]))
  }

  predicate NoDuplicates(s: seq<string>) {
    forall i, j :: 0 <= i < j < |s| ==> s[i] != s[j]
  }

  /**
   * What `add_person` keeps true: each person is listed once, in the team recorded for
   * them; every team and person name is registered; no name is both a team and a person.
   */
  predicate WellFormed(reg: Registry) {
    && (forall p :: p in reg.people ==> reg.people[p] in reg.teams && p in reg.teams[reg.people[p]])
    && (forall t, i :: t in reg.teams && 0 <= i < |reg.teams[t]| ==>
          reg.teams[t][i] in reg.people && reg.people[reg.teams[t][i]] == t)
    && (forall t :: t in reg.teams ==> NoDuplicates(reg.teams[t]))
    && reg.teams.Keys <= reg.names && reg.people.Keys <= reg.names
    && reg.teams.Keys !! reg.people.Keys
  }

  lemma AddPersonWellFormed(reg: Registry, team: string, person: string, allocation: real)
    requires WellFormed(reg)
    ensures WellFormed(AddPersonOf(reg, team, person, allocation).1)
  {
    var r := AddPersonOf(reg, team, person, allocation);
    if r.0.Pass? {
      var r1 := r.1;
      assert person !in reg.people && person !in reg.teams;
      forall t, i | t in r1.teams && 0 <= i < |r1.teams[t]|
        ensures r1.teams[t][i] in r1.people && r1.people[r1.teams[t][i]] == t
      {
        if t == team && i == |Members(reg.teams, team)| {
        } else if t == team {
          assert r1.teams[t][i] == Members(reg.teams, team)[i];
        } else {
          assert r1.teams[t][i] == reg.teams[t][i];
        }
      }
      forall p | p in r1.people
        ensures r1.people[p] in r1.teams && p in r1.teams[r1.people[p]]
      {
        if p != person && reg.people[p] == team {
          assert p in Members(reg.teams, team);
        }
      }
    }
  }

  lemma AddPersonKeepsShape(reg: Registry, team: string, person: string, allocation: real)
    ensures WellFormed(reg) ==> WellFormed(AddPersonOf(reg, team, person, allocation).1)
  {
    if WellFormed(reg) {
      AddPersonWellFormed(reg, team, person, allocation);
    }
  }

  /**
   * A person name clash under a brand-new team still registers the team name, so a second
   * call for that team fails as if the team name were taken.
   */
  lemma FailedAddReservesTeam(reg: Registry, team: string, person: string, other: string, a: real, b: real)
    requires team != person && team !in reg.teams && team !in reg.names && person in reg.names
    ensures AddPersonOf(reg, team, person, a).0 == Fail(PersonNameTaken(person))
    ensures AddPersonOf(AddPersonOf(reg, team, person, a).1, team, other, b).0 ==
      (if team == other then Fail(TeamIsPerson(team)) else Fail(TeamNameTaken(team)))
  {
  }

  /** backend/types.py `Metadata`: project dates, slack, and the registry. */
  class Metadata {
    var startDate: Option<Date>
    var endDate: Option<Date>
    var minSlack: int
    var teams: map<string, seq<string>>
    var people: map<string, string>
    var names: set<string>
    var allocation: map<string, real>

    function Reg(): Registry
      reads this
    {
      Registry(teams, people, names, allocation)
    }

    /** No dates, no slack, nobody registered, and the letters of "Anon" taken. */
    constructor ()
      ensures startDate == None && endDate == None && minSlack == 0
      ensures Reg() == Registry(map[], map[], InitialNames, map[])
      ensures WellFormed(Reg())
    {
      startDate, endDate, minSlack := None, None, 0;
      teams, people, names, allocation := map[], map[], InitialNames, map[];
    }

    method AddPerson(team: string, person: string, allocation': real) returns (r: Outcome<Exc>)
      modifies this
      ensures (r, Reg()) == AddPersonOf(old(Reg()), team, person, allocation')
      ensures startDate == old(startDate) && endDate == old(endDate) && minSlack == old(minSlack)
      ensures old(WellFormed(Reg())) ==> WellFormed(Reg())
    {
      ghost var before := Reg();
      var ns, alloc := names, allocation;
      if team == person {
        return Fail(TeamIsPerson(team));
      }
      if team !in teams {
        if team in ns {
          return Fail(TeamNameTaken(team));
        }
        alloc := alloc[person := allocation'];
        ns := ns + {team};
      }
      if person in ns {
        names, allocation := ns, alloc;
        assert Reg() == before.(names := ns, allocation := alloc);
        return Fail(PersonNameTaken(person));
      }
      ghost var want := AddPersonOf(before, team, person, allocation');
      assert want.0.Pass?;
      ghost var extra: set<string> := if team in teams then {} else {team};
      assert ns == before.names + extra;
      assert ns + {person} == want.1.names;
      assert alloc[person := allocation'] == want.1.allocation;
      teams := teams[team := Members(teams, team) + [person]];
      people := people[person := team];
      names, allocation := ns + {person}, alloc[person := allocation'];
      r := Pass;
      assert Reg() == want.1;
      AddPersonKeepsShape(before, team, person, allocation');
    }
  }
}
