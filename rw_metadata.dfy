/** Team declarations: rows whose first cell is `%TEAM`, folded into the shared registry. */
module RwMetadata {
  import opened Wrappers
  import opened Text
  import opened Exceptions
  import opened RwTypes

  /** A metadata row starts with '%'; the first cell of an empty row does not exist. */
  function RowContainsMetadata(row: seq<string>): (r: Result<bool, Exc>)
    ensures r.Err? <==> row == []
    ensures r.Ok? ==> (r.value <==> StartsWith(row[0], "%"))
  {
    if |row| == 0 then Err(IndexError) else Ok(StartsWith(row[0], "%"))
  }

  /** The stripped cells that are not empty, in order. */
  function NonEmptyStripped(cells: seq<string>): (r: seq<string>)
    ensures |r| <= |cells|
    ensures forall i :: 0 <= i < |r| ==> r[i] != [] && r[i] == Strip(r[i])
  {
    if |cells| == 0 then []
    else
      var rest := NonEmptyStripped(cells[1..]);
      if Strip(cells[0]) != [] then (StripIdempotent(cells[0]); [Strip(cells[0])] + rest) else rest
  }

  /** `parse_person` of each text in order, stopping at the first that raises. */
  function ParsePeople(texts: seq<string>): (r: Result<seq<Person>, Exc>)
    ensures r.Ok? ==> (|r.value| == |texts| &&
      forall i :: 0 <= i < |texts| ==> ParsePerson(texts[i], true).Ok? && ParsePerson(texts[i], true).value == r.value[i])
    ensures r.Err? ==> exists i :: 0 <= i < |texts| && ParsePerson(texts[i], true).Err? && ParsePerson(texts[i], true).error == r.error
  {
    if |texts| == 0 then Ok([])
    else
      var p :- ParsePerson(texts[0], true);
      var rest :- ParsePeople(texts[1..]);
      Ok([p] + rest)
  }

  /**
   * A `%TEAM` row: the stripped second cell names the team and every later non-empty cell
   * is a member; a declaration with no member is an error.
   */
  function ParseTeam(row: seq<string>): (r: Result<Team, Exc>)
    ensures r.Ok? ==> (|row| >= 2 && row[0] == "%TEAM" && r.value.name == Strip(row[1])
      && r.value.members != [] && ParsePeople(NonEmptyStripped(row[2..])) == Ok(r.value.members))
    ensures |row| >= 2 && row[0] == "%TEAM" && NonEmptyStripped(row[2..]) == [] ==>
      r == Err(EmptyTeam(Strip(row[1])))
  {
    if |row| == 0 then Err(IndexError)
    else if row[0] != "%TEAM" then Err(AssertionFailed)
    else if |row| < 2 then Err(IndexError)
    else
      var teamName := Strip(row[1]);
      var members :- ParsePeople(NonEmptyStripped(row[2..]));
      if |members| <= 0 then Err(EmptyTeam(teamName)) else Ok(Team(teamName, members))
  }

  /** What one row after the header does to the registry. */
  datatype RowDeclaration = NotATeam | Declares(team: Team) | Breaks(error: Exc)

  function DeclarationOf(row: seq<string>): (r: RowDeclaration)
  {
    if |row| == 0 then Breaks(IndexError)
    else if row[0] != "%TEAM" then NotATeam
    else match ParseTeam(row)
      case Ok(t) => Declares(t)
      case Err(e) => Breaks(e)
  }

  function Declarations(rows: seq<seq<string>>): (r: seq<RowDeclaration>)
    ensures |r| == |rows|
    ensures forall i :: 0 <= i < |rows| ==> r[i] == DeclarationOf(rows[i])
  {
    seq(|rows|, i requires 0 <= i < |rows| => DeclarationOf(rows[i]))
  }

  /** One row's effect on the scan so far: a failed scan stays failed. */
  function Step(prev: (seq<Team>, Outcome<Exc>), d: RowDeclaration): (seq<Team>, Outcome<Exc>) {
    if prev.1.Fail? then prev
    else match d
      case NotATeam => prev
      case Declares(t) => (prev.0 + [t], Pass)
      case Breaks(e) => (prev.0, Fail(e))
  }

  /** The teams the first `n` rows declare before the first breaking row, and that row's failure. */
  function Scan(decls: seq<RowDeclaration>, n: nat): (seq<Team>, Outcome<Exc>)
    requires n <= |decls|
  {
    if n == 0 then ([], Pass) else Step(Scan(decls, n - 1), decls[n - 1])
  }

  /** The teams the rows (the header already dropped) declare, and the first failure. */
  function DeclaredTeams(rows: seq<seq<string>>): (seq<Team>, Outcome<Exc>) {
    var decls := Declarations(rows);
    Scan(decls, |decls|)
  }

  /** Rows that are not team declarations change nothing. */
  lemma {:induction false} OtherRowsIgnored(decls: seq<RowDeclaration>, n: nat)
    requires n <= |decls|
    requires forall i :: 0 <= i < |decls| ==> decls[i] == NotATeam
    ensures Scan(decls, n) == ([], Pass)
  {
    if n > 0 {
      OtherRowsIgnored(decls, n - 1);
    }
  }

  /** Non-empty rows whose first cell is not `%TEAM` leave the registry unchanged. */
  lemma NonTeamRowsIgnored(rows: seq<seq<string>>)
    requires forall i :: 0 <= i < |rows| ==> rows[i] != [] && rows[i][0] != "%TEAM"
    ensures DeclaredTeams(rows) == ([], Pass)
  {
    OtherRowsIgnored(Declarations(rows), |rows|);
  }

  /** Once a row fails, later rows are not looked at. */
  lemma {:induction false} FailureStopsScan(decls: seq<RowDeclaration>, n: nat, k: nat)
    requires n <= k <= |decls| && Scan(decls, n).1.Fail?
    ensures Scan(decls, k) == Scan(decls, n)
    decreases k
  {
    if k > n {
      FailureStopsScan(decls, n, k - 1);
    }
  }

  /** Every declared team is a successfully parsed row, in row order. */
  lemma {:induction false} DeclaredTeamsAreParsed(decls: seq<RowDeclaration>, n: nat)
    requires n <= |decls|
    ensures forall t :: t in Scan(decls, n).0 ==> exists i :: 0 <= i < n && decls[i] == Declares(t)
  {
    if n > 0 {
      DeclaredTeamsAreParsed(decls, n - 1);
      forall t | t in Scan(decls, n).0
        ensures exists i :: 0 <= i < n && decls[i] == Declares(t)
      {
        if t !in Scan(decls, n - 1).0 {
          assert decls[n - 1] == Declares(t);
        }
      }
    }
  }

  /** Each registered team comes from a `%TEAM` row that parses to it. */
  lemma TeamsComeFromRows(rows: seq<seq<string>>, t: Team)
    requires t in DeclaredTeams(rows).0
    ensures exists i :: 0 <= i < |rows| && rows[i] != [] && rows[i][0] == "%TEAM" && ParseTeam(rows[i]) == Ok(t)
  {
    DeclaredTeamsAreParsed(Declarations(rows), |rows|);
    var i :| 0 <= i < |rows| && Declarations(rows)[i] == Declares(t);
    assert DeclarationOf(rows[i]) == Declares(t);
  }

  lemma AllMembersAppend(teams: seq<Team>, t: Team)
    ensures AllMembers(teams + [t]) == AllMembers(teams) + MemberSet(t.members)
  {
    assert (teams + [t])[..|teams|] == teams;
  }

  lemma PeopleStep(people: set<Person>, base: set<Person>, teams: seq<Team>, t: Team)
    requires people == base + AllMembers(teams)
    ensures people + MemberSet(t.members) == base + AllMembers(teams + [t])
  {
    AllMembersAppend(teams, t);
  }

  /**
   * Registers the declared teams in row order and stops at the first breaking row, the
   * teams before it staying registered.
   */
  method Register(m: Metadata, decls: seq<RowDeclaration>) returns (outcome: Outcome<Exc>)
    modifies m
    ensures m.teams == old(m.teams) + Scan(decls, |decls|).0
    ensures m.people == old(m.people) + AllMembers(Scan(decls, |decls|).0)
    ensures outcome == Scan(decls, |decls|).1
  {
    var i := 0;
    while i < |decls|
      invariant 0 <= i <= |decls|
      invariant Scan(decls, i).1 == Pass
      invariant m.teams == old(m.teams) + Scan(decls, i).0
      invariant m.people == old(m.people) + AllMembers(Scan(decls, i).0)
    {
      match decls[i] {
        case Breaks(e) =>
          FailureStopsScan(decls, i + 1, |decls|);
          return Fail(e);
        case NotATeam =>
        case Declares(t) =>
          ghost var before := Scan(decls, i).0;
          PeopleStep(m.people, old(m.people), before, t);
          m.AddTeam(t);
          assert old(m.teams) + before + [t] == old(m.teams) + (before + [t]);
      }
      i := i + 1;
    }
    return Pass;
  }

  /** Folds every `%TEAM` row after the first row into the registry. */
  method ExtractMetadata(m: Metadata, data: seq<seq<string>>) returns (outcome: Outcome<Exc>)
    modifies m
    ensures var rows := if |data| == 0 then [] else data[1..];
      m.teams == old(m.teams) + DeclaredTeams(rows).0 &&
      m.people == old(m.people) + AllMembers(DeclaredTeams(rows).0) &&
      outcome == DeclaredTeams(rows).1
  {
    var rows := if |data| == 0 then [] else data[1..];
    outcome := Register(m, Declarations(rows));
  }
}
