/**
 * backend/scheduler.py `get_people`: which people may work on a task, as a sorted list of
 * groups "assign N of these people". The `teams` dictionary is an insertion-ordered list of
 * (team, group) pairs, as a Python dictionary is; the `people` set is the list of distinct
 * names in the order they were first met. Both orders vanish in the final sort.
 */
module OrigPeople {
  import opened Wrappers
  import opened Exceptions
  import opened Text
  import opened OrigTypes

  /** `(N, [people])`: N of the listed people are to be assigned. */
  datatype Group = Group(count: int, people: seq<string>)

  // ---------------------------------------------------------------- the `T(N)` syntax

  /** The index of the first '(' in `s` at or after `i`, or `|s|` when there is none. */
  function ParenFrom(s: string, i: nat): (r: nat)
    requires i <= |s|
    ensures i <= r <= |s|
    ensures r < |s| ==> s[r] == '('
    ensures forall j :: i <= j < r ==> s[j] != '('
    decreases |s| - i
  {
    if i == |s| then |s| else if s[i] == '(' then i else ParenFrom(s, i + 1)
  }

  /**
   * `team_regex.fullmatch(name)` for `([^(]+)\(([0-9]+)\)`: a non-empty team name without
   * '(', then a parenthesised decimal count. The two groups are returned.
   */
  function TeamExpr(name: string): Option<(string, string)> {
    var k := ParenFrom(name, 0);
    if 1 <= k && k + 2 <= |name| && name[|name| - 1] == ')' && IsDigits(name[k + 1..|name| - 1])
    then Some((name[..k], name[k + 1..|name| - 1]))
    else None
  }

  /** A match splits the name into a team without '(' and a digit string. */
  lemma TeamExprSound(name: string)
    requires TeamExpr(name).Some?
    ensures var (team, n) := TeamExpr(name).value;
      name == team + "(" + n + ")" && team != [] && IsDigits(n) && (forall i :: 0 <= i < |team| ==> team[i] != '(')
  {
    var k := ParenFrom(name, 0);
    assert name == name[..k] + "(" + name[k + 1..|name| - 1] + ")";
  }

  /** Every such name matches, with those two groups. */
  lemma TeamExprComplete(team: string, n: string)
    requires team != [] && IsDigits(n) && forall i :: 0 <= i < |team| ==> team[i] != '('
    ensures TeamExpr(team + "(" + n + ")").Some?
    ensures TeamExpr(team + "(" + n + ")").value == (team, n)
  {
    var name := team + "(" + n + ")";
    assert name[|team|] == '(';
    assert forall j :: 0 <= j < |team| ==> name[j] == team[j];
    assert ParenFrom(name, 0) == |team|;
    assert name[..|team|] == team;
    assert name[|team| + 1..|name| - 1] == n;
  }

  // ---------------------------------------------------------------- an insertion-ordered dictionary

  type Teams = seq<(string, Group)>

  /** The position of key `k`, or `|ts|` when it is absent. */
  function IndexOfKey(ts: Teams, k: string): (r: nat)
    ensures r <= |ts|
    ensures r < |ts| ==> ts[r].0 == k
    ensures forall i :: 0 <= i < r ==> ts[i].0 != k
  {
    if |ts| == 0 then 0 else if ts[0].0 == k then 0 else 1 + IndexOfKey(ts[1..], k)
  }

  /** The first position holding `k` (or `|ts|` when none does) is the one `IndexOfKey` finds. */
  lemma IndexOfKeyIs(ts: Teams, k: string, i: nat)
    requires i <= |ts| && (i < |ts| ==> ts[i].0 == k) && forall m :: 0 <= m < i ==> ts[m].0 != k
    ensures IndexOfKey(ts, k) == i
  {
    var x := IndexOfKey(ts, k);
    if x < i {
      assert false;
    } else if x > i {
      assert false;
    }
  }

  /** What a dictionary holds under a key. */
  datatype Slot = Absent | Present(group: Group)

  /** `teams.get(k)`. */
  function Lookup(ts: Teams, k: string): Slot {
    var i := IndexOfKey(ts, k);
    if i < |ts| then Present(ts[i].1) else Absent
  }

  /** `teams[k] = g`: a present key keeps its place, a new one goes last. */
  function SetEntry(ts: Teams, k: string, g: Group): Teams {
    var i := IndexOfKey(ts, k);
    if i < |ts| then ts[i := (k, g)] else ts + [(k, g)]
  }

  predicate DistinctKeys(ts: Teams) {
    forall i, j :: 0 <= i < j < |ts| ==> ts[i].0 != ts[j].0
  }

  lemma LookupSet(ts: Teams, k: string, g: Group, q: string)
    requires DistinctKeys(ts)
    ensures DistinctKeys(SetEntry(ts, k, g))
    ensures Lookup(SetEntry(ts, k, g), q) == if q == k then Present(g) else Lookup(ts, q)
  {
    var i := IndexOfKey(ts, k);
    var r := SetEntry(ts, k, g);
    var j := IndexOfKey(ts, q);
    assert forall m :: 0 <= m < |ts| ==> r[m].0 == ts[m].0;
    if q == k {
      IndexOfKeyIs(r, q, i);
    } else if j < |ts| {
      IndexOfKeyIs(r, q, j);
    } else {
      IndexOfKeyIs(r, q, |r|);
    }
  }

  /** `del teams[k]` of a present key. */
  function DelEntry(ts: Teams, k: string): Teams {
    var i := IndexOfKey(ts, k);
    if i < |ts| then ts[..i] + ts[i + 1..] else ts
  }

  lemma LookupDel(ts: Teams, k: string, q: string)
    requires DistinctKeys(ts)
    ensures DistinctKeys(DelEntry(ts, k))
    ensures Lookup(DelEntry(ts, k), q) == if q == k then Absent else Lookup(ts, q)
  {
    var i := IndexOfKey(ts, k);
    var r := DelEntry(ts, k);
    if i < |ts| {
      assert forall m :: 0 <= m < |r| ==> r[m] == if m < i then ts[m] else ts[m + 1];
      var j := IndexOfKey(ts, q);
      if q == k {
        IndexOfKeyIs(r, q, |r|);
      } else if j < |ts| {
        var jr := if j < i then j else j - 1;
        assert r[jr] == ts[j];
        IndexOfKeyIs(r, q, jr);
      } else {
        IndexOfKeyIs(r, q, |r|);
      }
    }
  }

  // ---------------------------------------------------------------- the first loop

  /** `people.add(name)`. */
  function AddUnique(ps: seq<string>, name: string): (r: seq<string>)
    ensures forall x :: x in r <==> x in ps || x == name
    ensures NoDuplicates(ps) ==> NoDuplicates(r)
  {
    if name in ps then ps else ps + [name]
  }

  /** What the first loop has built: the people set and the teams dictionary. */
  datatype Acc = Acc(people: seq<string>, teams: Teams)

  /** One name of `assigned`: a team expression, a team, a person, or an error. */
  function NameStep(acc: Acc, name: string, reg: Registry): Result<Acc, Exc> {
    match TeamExpr(name)
    case Some((team, n)) =>
      if team !in reg.teams then Err(UnknownTeam(team))
      else
        var count: int := DigitsValue(n);
        var members := reg.teams[team];
        if count < 1 then Err(InvalidTeamExpression(name))
        else Ok(Acc(acc.people, SetEntry(acc.teams, team, Group(if count > |members| then |members| else count, members))))
    case None =>
      if name in reg.teams then Ok(Acc(acc.people, SetEntry(acc.teams, name, Group(1, reg.teams[name]))))
      else if name in reg.people then Ok(Acc(AddUnique(acc.people, name), acc.teams))
      else Err(UnknownName(name))
  }

  /** The first loop over the first `n` names. */
  function Collect(named: seq<string>, reg: Registry, n: nat): Result<Acc, Exc>
    requires n <= |named|
  {
    if n == 0 then Ok(Acc([], []))
    else
      var before := Collect(named, reg, n - 1);
      if before.Err? then before else NameStep(before.value, named[n - 1], reg)
  }

  /** A name `get_people` accepts. */
  predicate Acceptable(name: string, reg: Registry) {
    match TeamExpr(name)
    case Some((team, n)) => team in reg.teams && DigitsValue(n) >= 1
    case None => name in reg.teams || name in reg.people
  }

  /** A name that is a person: not a team expression and not a team. */
  predicate PersonName(name: string, reg: Registry) {
    TeamExpr(name).None? && name !in reg.teams && name in reg.people
  }

  /**
   * What the first loop keeps true: the people set lists registered people once each, and
   * each team entry holds that team's full member list.
   */
  ghost predicate Shaped(acc: Acc, reg: Registry) {
    && NoDuplicates(acc.people)
    && (forall i :: 0 <= i < |acc.people| ==> acc.people[i] in reg.people)
    && DistinctKeys(acc.teams)
    && (forall q :: Lookup(acc.teams, q).Present? ==> q in reg.teams && Lookup(acc.teams, q).group.people == reg.teams[q])
  }

  /** A name fails iff it is not acceptable; a step keeps the shape and adds a person only for a person name. */
  lemma NameStepFacts(acc: Acc, name: string, reg: Registry)
    ensures NameStep(acc, name, reg).Ok? <==> Acceptable(name, reg)
    ensures NameStep(acc, name, reg).Ok? ==>
      NameStep(acc, name, reg).value.people == if PersonName(name, reg) then AddUnique(acc.people, name) else acc.people
    ensures NameStep(acc, name, reg).Ok? && Shaped(acc, reg) ==> Shaped(NameStep(acc, name, reg).value, reg)
  {
    if NameStep(acc, name, reg).Ok? && Shaped(acc, reg) {
      var team := match TeamExpr(name) case Some((t, _)) => t case None => name;
      var g := match TeamExpr(name)
        case Some((_, n)) =>
          var count: int := DigitsValue(n);
          Group(if count > |reg.teams[team]| then |reg.teams[team]| else count, reg.teams[team])
        case None => Group(1, if name in reg.teams then reg.teams[name] else []);
      if TeamExpr(name).Some? || name in reg.teams {
        assert NameStep(acc, name, reg).value == Acc(acc.people, SetEntry(acc.teams, team, g));
        forall q | Lookup(SetEntry(acc.teams, team, g), q).Present?
          ensures q in reg.teams && Lookup(SetEntry(acc.teams, team, g), q).group.people == reg.teams[q]
        {
          LookupSet(acc.teams, team, g, q);
        }
        LookupSet(acc.teams, team, g, team);
      }
    }
  }

  /** The first loop succeeds iff every name is acceptable. */
  lemma {:induction false} CollectOk(named: seq<string>, reg: Registry, n: nat)
    requires n <= |named|
    ensures Collect(named, reg, n).Ok? <==> forall i :: 0 <= i < n ==> Acceptable(named[i], reg)
  {
    if n > 0 {
      CollectOk(named, reg, n - 1);
      var before := Collect(named, reg, n - 1);
      if before.Ok? {
        NameStepFacts(before.value, named[n - 1], reg);
      }
    }
  }

  /** What the first loop returns is shaped. */
  lemma {:induction false} CollectShaped(named: seq<string>, reg: Registry, n: nat)
    requires n <= |named| && Collect(named, reg, n).Ok?
    ensures Shaped(Collect(named, reg, n).value, reg)
  {
    if n > 0 {
      CollectShaped(named, reg, n - 1);
      NameStepFacts(Collect(named, reg, n - 1).value, named[n - 1], reg);
    }
  }

  /** The people set holds exactly the names that are persons. */
  lemma {:induction false} CollectPeople(named: seq<string>, reg: Registry, n: nat, p: string)
    requires n <= |named| && Collect(named, reg, n).Ok?
    ensures p in Collect(named, reg, n).value.people <==> exists i :: 0 <= i < n && named[i] == p && PersonName(p, reg)
  {
    if n > 0 {
      CollectPeople(named, reg, n - 1, p);
      NameStepFacts(Collect(named, reg, n - 1).value, named[n - 1], reg);
    }
  }

  /** A team named by `T(N)` gets its members and the count, clamped to the team's size. */
  lemma TeamExprEntry(acc: Acc, team: string, n: string, reg: Registry)
    requires DistinctKeys(acc.teams) && team != [] && IsDigits(n) && forall i :: 0 <= i < |team| ==> team[i] != '('
    requires team in reg.teams && DigitsValue(n) >= 1
    ensures NameStep(acc, team + "(" + n + ")", reg).Ok?
    ensures Lookup(NameStep(acc, team + "(" + n + ")", reg).value.teams, team) ==
      Present(Group(if DigitsValue(n) > |reg.teams[team]| then |reg.teams[team]| else DigitsValue(n), reg.teams[team]))
  {
    TeamExprComplete(team, n);
    var count: int := DigitsValue(n);
    var members := reg.teams[team];
    LookupSet(acc.teams, team, Group(if count > |members| then |members| else count, members), team);
  }

  /** A team expression with a count below 1 raises. */
  lemma ZeroCountFails(acc: Acc, team: string, n: string, reg: Registry)
    requires team != [] && IsDigits(n) && forall i :: 0 <= i < |team| ==> team[i] != '('
    requires team in reg.teams && DigitsValue(n) == 0
    ensures NameStep(acc, team + "(" + n + ")", reg).Err?
    ensures NameStep(acc, team + "(" + n + ")", reg).error == InvalidTeamExpression(team + "(" + n + ")")
  {
    TeamExprComplete(team, n);
  }

  // ---------------------------------------------------------------- the second loop

  /** `list.remove(p)`: drops the first occurrence. */
  function RemoveFirst(ms: seq<string>, p: string): (r: seq<string>)
    ensures multiset(r) == multiset(ms) - multiset{p}
  {
    if |ms| == 0 then []
    else if ms[0] == p then
      assert ms == [p] + ms[1..];
      ms[1..]
    else
      assert ms == [ms[0]] + ms[1..];
      [ms[0]] + RemoveFirst(ms[1..], p)
  }

  /** One person of the people set: their team, if assigned too, loses them and one from its count. */
  function PersonStep(teams: Teams, p: string, reg: Registry): Result<Teams, Exc> {
    if p !in reg.people then Err(MissingKey(p))
    else
      var team := reg.people[p];
      match Lookup(teams, team)
      case Absent => Ok(teams)
      case Present(g) =>
        if p !in g.people then Err(ValueError("remove"))
        else if g.count - 1 == 0 then Ok(DelEntry(teams, team))
        else Ok(SetEntry(teams, team, Group(g.count - 1, RemoveFirst(g.people, p))))
  }

  /** The second loop over the first `n` people. */
  function Reduce(people: seq<string>, teams: Teams, reg: Registry, n: nat): Result<Teams, Exc>
    requires n <= |people|
  {
    if n == 0 then Ok(teams)
    else
      var before := Reduce(people, teams, reg, n - 1);
      if before.Err? then before else PersonStep(before.value, people[n - 1], reg)
  }

  /** Whether person `p` belongs to `team`. */
  predicate InTeam(p: string, team: string, reg: Registry) {
    p in reg.people && reg.people[p] == team
  }

  /** The people among the first `n` whose team is `team`. */
  function Mine(people: seq<string>, team: string, reg: Registry, n: nat): seq<string>
    requires n <= |people|
  {
    if n == 0 then []
    else Mine(people, team, reg, n - 1) + (if InTeam(people[n - 1], team, reg) then [people[n - 1]] else [])
  }

  /** One person's effect on their team's entry. */
  function SlotStep(s: Slot, p: string): Result<Slot, Exc> {
    match s
    case Absent => Ok(Absent)
    case Present(e) =>
      if p !in e.people then Err(ValueError("remove"))
      else if e.count - 1 == 0 then Ok(Absent)
      else Ok(Present(Group(e.count - 1, RemoveFirst(e.people, p))))
  }

  /** The second loop as seen by one team. */
  function TeamAfter(s: Slot, ps: seq<string>): Result<Slot, Exc> {
    if |ps| == 0 then Ok(s)
    else
      var before := TeamAfter(s, ps[..|ps| - 1]);
      if before.Err? then before else SlotStep(before.value, ps[|ps| - 1])
  }

  /** A person step changes only the person's own team, as the per-team step says. */
  lemma PersonStepByTeam(teams: Teams, p: string, reg: Registry, team: string)
    requires DistinctKeys(teams) && p in reg.people
    ensures PersonStep(teams, p, reg).Ok? <==> SlotStep(Lookup(teams, reg.people[p]), p).Ok?
    ensures PersonStep(teams, p, reg).Ok? ==> DistinctKeys(PersonStep(teams, p, reg).value)
    ensures PersonStep(teams, p, reg).Ok? ==>
      Lookup(PersonStep(teams, p, reg).value, team) == if InTeam(p, team, reg) then SlotStep(Lookup(teams, team), p).value else Lookup(teams, team)
  {
    var own := reg.people[p];
    match Lookup(teams, own)
    case Absent =>
    case Present(g) =>
      if g.count - 1 == 0 {
        LookupDel(teams, own, team);
      } else {
        LookupSet(teams, own, Group(g.count - 1, RemoveFirst(g.people, p)), team);
      }
  }

  /** Each team's final entry is the effect of its own people on it, one after another. */
  lemma {:induction false} ReduceByTeam(people: seq<string>, teams: Teams, reg: Registry, n: nat, team: string)
    requires n <= |people| && DistinctKeys(teams)
    requires forall i :: 0 <= i < |people| ==> people[i] in reg.people
    requires Reduce(people, teams, reg, n).Ok?
    ensures DistinctKeys(Reduce(people, teams, reg, n).value)
    ensures TeamAfter(Lookup(teams, team), Mine(people, team, reg, n)).Ok?
    ensures Lookup(Reduce(people, teams, reg, n).value, team) == TeamAfter(Lookup(teams, team), Mine(people, team, reg, n)).value
  {
    if n > 0 {
      ReduceByTeam(people, teams, reg, n - 1, team);
      var before := Reduce(people, teams, reg, n - 1).value;
      var p := people[n - 1];
      PersonStepByTeam(before, p, reg, team);
      var mine := Mine(people, team, reg, n);
      var base := Mine(people, team, reg, n - 1);
      if InTeam(p, team, reg) {
        assert mine[..|mine| - 1] == base;
        var prev := TeamAfter(Lookup(teams, team), base).value;
        assert TeamAfter(Lookup(teams, team), mine).Ok? ==> TeamAfter(Lookup(teams, team), mine).value == SlotStep(prev, p).value;
      } else {
        assert mine == base;
      }
    }
  }

  /** All of `ps` removed, one after another. */
  function RemoveAll(ms: seq<string>, ps: seq<string>): (r: seq<string>)
    ensures multiset(r) == multiset(ms) - multiset(ps)
  {
    if |ps| == 0 then ms
    else
      assert ps == ps[..|ps| - 1] + [ps[|ps| - 1]];
      RemoveFirst(RemoveAll(ms, ps[..|ps| - 1]), ps[|ps| - 1])
  }

  /**
   * A team assigned with count `c` and also `k` of its own members by name: the team is
   * dropped when the count reaches 0 on the way, and otherwise keeps `c - k` with those
   * members taken out of its pool.
   */
  lemma {:induction false} TeamAfterClosed(c: int, ms: seq<string>, ps: seq<string>)
    requires NoDuplicates(ps) && forall i :: 0 <= i < |ps| ==> ps[i] in ms
    ensures TeamAfter(Present(Group(c, ms)), ps).Ok?
    ensures TeamAfter(Present(Group(c, ms)), ps).value ==
      if 1 <= c <= |ps| then Absent else Present(Group(c - |ps|, RemoveAll(ms, ps)))
  {
    if |ps| > 0 {
      var front := ps[..|ps| - 1];
      var p := ps[|ps| - 1];
      TeamAfterClosed(c, ms, front);
      assert ps[..|ps| - 1] == front;
      var prev := TeamAfter(Present(Group(c, ms)), front);
      assert TeamAfter(Present(Group(c, ms)), ps) == SlotStep(prev.value, p);
      if 1 <= c <= |front| {
        assert prev.value == Absent;
      } else {
        var pool := RemoveAll(ms, front);
        assert prev.value == Present(Group(c - |front|, pool));
        assert p !in front by {
          assert forall i :: 0 <= i < |front| ==> front[i] == ps[i];
        }
        StillThere(ms, front, p);
        assert RemoveAll(ms, ps) == RemoveFirst(pool, p);
      }
    }
  }

  /** A member not among those removed is still in the pool. */
  lemma StillThere(ms: seq<string>, ps: seq<string>, p: string)
    requires p in ms && p !in ps
    ensures p in RemoveAll(ms, ps)
  {
    assert multiset(ps)[p] == 0;
    assert multiset(ms)[p] > 0;
    assert multiset(RemoveAll(ms, ps))[p] > 0;
  }

  // ---------------------------------------------------------------- the output

  /** `[(1, [p]) for p in people] + list(teams.values())`, or Anon alone when that is empty. */
  function Unsorted(people: seq<string>, teams: Teams): (r: seq<Group>)
    ensures |r| == if |people| + |teams| == 0 then 1 else |people| + |teams|
  {
    var out := seq(|people|, i requires 0 <= i < |people| => Group(1, [people[i]])) + seq(|teams|, i requires 0 <= i < |teams| => teams[i].1);
    if |out| == 0 then [Group(1, ["Anon"])] else out
  }

  /** Python's `<=` on strings: code point by code point, a prefix first. */
  predicate StrLe(a: string, b: string) {
    if |a| == 0 then true
    else if |b| == 0 then false
    else if a[0] != b[0] then a[0] < b[0]
    else StrLe(a[1..], b[1..])
  }

  /** Python's `<=` on lists of strings. */
  predicate ListLe(a: seq<string>, b: seq<string>) {
    if |a| == 0 then true
    else if |b| == 0 then false
    else if a[0] != b[0] then StrLe(a[0], b[0])
    else ListLe(a[1..], b[1..])
  }

  /** Python's `<=` on `(count, people)` tuples. */
  predicate GroupLe(g: Group, h: Group) {
    g.count < h.count || (g.count == h.count && ListLe(g.people, h.people))
  }

  lemma {:induction false} StrLeTotal(a: string, b: string)
    ensures StrLe(a, b) || StrLe(b, a)
  {
    if |a| > 0 && |b| > 0 && a[0] == b[0] {
      StrLeTotal(a[1..], b[1..]);
    }
  }

  lemma {:induction false} ListLeTotal(a: seq<string>, b: seq<string>)
    ensures ListLe(a, b) || ListLe(b, a)
  {
    if |a| > 0 && |b| > 0 {
      if a[0] != b[0] {
        StrLeTotal(a[0], b[0]);
      } else {
        ListLeTotal(a[1..], b[1..]);
      }
    }
  }

  lemma GroupLeTotal(g: Group, h: Group)
    ensures GroupLe(g, h) || GroupLe(h, g)
  {
    ListLeTotal(g.people, h.people);
  }

  predicate Sorted(gs: seq<Group>) {
    forall i :: 0 < i < |gs| ==> GroupLe(gs[i - 1], gs[i])
  }

  /** One insertion step of the sort. */
  function Insert(g: Group, gs: seq<Group>): (r: seq<Group>)
    requires Sorted(gs)
    ensures Sorted(r) && multiset(r) == multiset(gs) + multiset{g}
    ensures |r| > 0 && (r[0] == g || (|gs| > 0 && r[0] == gs[0]))
  {
    if |gs| == 0 then [g]
    else if GroupLe(g, gs[0]) then [g] + gs
    else
      GroupLeTotal(g, gs[0]);
      var rest := Insert(g, gs[1..]);
      assert gs == [gs[0]] + gs[1..];
      [gs[0]] + rest
  }

  /** `output.sort()`: the same groups, in ascending order. */
  function SortGroups(gs: seq<Group>): (r: seq<Group>)
    ensures Sorted(r) && multiset(r) == multiset(gs)
  {
    if |gs| == 0 then []
    else
      assert gs == gs[..|gs| - 1] + [gs[|gs| - 1]];
      Insert(gs[|gs| - 1], SortGroups(gs[..|gs| - 1]))
  }

  /** `get_people(assigned, metadata)` on the registry's teams and people. */
  function GetPeopleOf(named: seq<string>, reg: Registry): Result<seq<Group>, Exc> {
    var acc := Collect(named, reg, |named|);
    if acc.Err? then Err(acc.error)
    else
      var teams := Reduce(acc.value.people, acc.value.teams, reg, |acc.value.people|);
      if teams.Err? then Err(teams.error)
      else Ok(SortGroups(Unsorted(acc.value.people, teams.value)))
  }

  /** Nobody assigned means Anon does it. */
  lemma NobodyMeansAnon(reg: Registry)
    ensures GetPeopleOf([], reg).Ok? && GetPeopleOf([], reg).value == [Group(1, ["Anon"])]
  {
  }

  /** The people of a team, as the second loop meets them: distinct members of that team. */
  lemma {:induction false} MineFacts(people: seq<string>, team: string, reg: Registry, n: nat)
    requires n <= |people| && NoDuplicates(people) && OwnTeams(reg)
    ensures NoDuplicates(Mine(people, team, reg, n))
    ensures forall x :: x in Mine(people, team, reg, n) ==> team in reg.teams && x in reg.teams[team]
    ensures forall x :: x in Mine(people, team, reg, n) ==> x in people[..n]
  {
    if n > 0 {
      MineFacts(people, team, reg, n - 1);
      var p := people[n - 1];
      var base := Mine(people, team, reg, n - 1);
      assert people[..n] == people[..n - 1] + [p];
      if InTeam(p, team, reg) {
        assert p !in people[..n - 1];
        var m := Mine(people, team, reg, n);
        assert m == base + [p];
        forall i, j | 0 <= i < j < |m| ensures m[i] != m[j] {
          if j < |base| {
            assert m[i] == base[i] && m[j] == base[j];
          } else {
            assert m[i] == base[i] && base[i] in base;
          }
        }
      }
    }
  }

  /** Each registered person is listed in the team recorded for them, as `add_person` makes sure. */
  predicate OwnTeams(reg: Registry) {
    forall p :: p in reg.people ==> reg.people[p] in reg.teams && p in reg.teams[reg.people[p]]
  }

  /** In a registry `add_person` built, the second loop never fails. */
  lemma {:induction false} ReduceNeverFails(acc: Acc, reg: Registry, n: nat)
    requires OwnTeams(reg) && n <= |acc.people| && Shaped(acc, reg)
    ensures Reduce(acc.people, acc.teams, reg, n).Ok?
  {
    if n > 0 {
      ReduceNeverFails(acc, reg, n - 1);
      NextPersonFits(acc, reg, n - 1);
      ReduceExtends(acc.people, acc.teams, reg, n);
    }
  }

  lemma ReduceExtends(people: seq<string>, teams: Teams, reg: Registry, n: nat)
    requires 0 < n <= |people| && Reduce(people, teams, reg, n - 1).Ok?
    requires PersonStep(Reduce(people, teams, reg, n - 1).value, people[n - 1], reg).Ok?
    ensures Reduce(people, teams, reg, n).Ok?
  {
  }

  /** The person after the first `n` can be taken out of their team's entry. */
  lemma NextPersonFits(acc: Acc, reg: Registry, n: nat)
    requires OwnTeams(reg) && n < |acc.people| && Shaped(acc, reg)
    requires Reduce(acc.people, acc.teams, reg, n).Ok?
    ensures PersonStep(Reduce(acc.people, acc.teams, reg, n).value, acc.people[n], reg).Ok?
  {
    var p := acc.people[n];
    MemberOfOwnTeam(reg, p);
    var team := reg.people[p];
    var before := Reduce(acc.people, acc.teams, reg, n).value;
    ReduceByTeam(acc.people, acc.teams, reg, n, team);
    var mine := Mine(acc.people, team, reg, n);
    MineFacts(acc.people, team, reg, n);
    assert p !in acc.people[..n];
    SlotStaysOk(Lookup(acc.teams, team), mine, p, reg.teams[team]);
    PersonStepByTeam(before, p, reg, team);
  }

  lemma MemberOfOwnTeam(reg: Registry, p: string)
    requires OwnTeams(reg) && p in reg.people
    ensures reg.people[p] in reg.teams && p in reg.teams[reg.people[p]]
  {
  }

  /** A team's entry, after some of its other members, still holds the next one. */
  lemma SlotStaysOk(s0: Slot, mine: seq<string>, p: string, members: seq<string>)
    requires s0.Present? ==> s0.group.people == members
    requires NoDuplicates(mine) && (forall x :: x in mine ==> x in members) && p in members && p !in mine
    ensures TeamAfter(s0, mine).Ok? && SlotStep(TeamAfter(s0, mine).value, p).Ok?
  {
    match s0
    case Absent =>
      TeamAfterAbsent(mine);
    case Present(g) =>
      TeamAfterClosed(g.count, g.people, mine);
      if !(1 <= g.count <= |mine|) {
        StillThere(g.people, mine, p);
      }
  }

  lemma {:induction false} TeamAfterAbsent(ps: seq<string>)
    ensures TeamAfter(Absent, ps).Ok? && TeamAfter(Absent, ps).value == Absent
  {
    if |ps| > 0 {
      TeamAfterAbsent(ps[..|ps| - 1]);
    }
  }

  /**
   * In a registry `add_person` built, `get_people` raises exactly when some name is neither
   * a known team's `T(N)` with N at least 1, nor a team, nor a person.
   */
  lemma GetPeopleFails(named: seq<string>, reg: Registry)
    requires WellFormed(reg)
    ensures GetPeopleOf(named, reg).Ok? <==> forall i :: 0 <= i < |named| ==> Acceptable(named[i], reg)
  {
    CollectOk(named, reg, |named|);
    var acc := Collect(named, reg, |named|);
    if acc.Ok? {
      CollectShaped(named, reg, |named|);
      ReduceNeverFails(acc.value, reg, |acc.value.people|);
    }
  }

  /**
   * `get_people`: the first loop reads the names, the second folds each person into their
   * team, and the groups come back sorted.
   */
  method GetPeople(named: seq<string>, reg: Registry) returns (r: Result<seq<Group>, Exc>)
    ensures r.Ok? <==> GetPeopleOf(named, reg).Ok?
    ensures r.Ok? ==> r.value == GetPeopleOf(named, reg).value
    ensures r.Err? ==> r.error == GetPeopleOf(named, reg).error
  {
    var acc := Acc([], []);
    for i := 0 to |named|
      invariant Collect(named, reg, i).Ok? && Collect(named, reg, i).value == acc
    {
      var step := NameStep(acc, named[i], reg);
      if step.Err? {
        CollectFailureStays(named, reg, i + 1, |named|);
        return Err(step.error);
      }
      acc := step.value;
    }
    var teams := acc.teams;
    for i := 0 to |acc.people|
      invariant Reduce(acc.people, acc.teams, reg, i).Ok? && Reduce(acc.people, acc.teams, reg, i).value == teams
    {
      var step := PersonStep(teams, acc.people[i], reg);
      if step.Err? {
        ReduceFailureStays(acc.people, acc.teams, reg, i + 1, |acc.people|);
        return Err(step.error);
      }
      teams := step.value;
    }
    var output := Unsorted(acc.people, teams);
    return Ok(SortGroups(output));
  }

  lemma {:induction false} CollectFailureStays(named: seq<string>, reg: Registry, n: nat, m: nat)
    requires n <= m <= |named| && Collect(named, reg, n).Err?
    ensures Collect(named, reg, m).Err? && Collect(named, reg, m).error == Collect(named, reg, n).error
    decreases m
  {
    if m > n {
      CollectFailureStays(named, reg, n, m - 1);
    }
  }

  lemma {:induction false} ReduceFailureStays(people: seq<string>, teams: Teams, reg: Registry, n: nat, m: nat)
    requires n <= m <= |people| && Reduce(people, teams, reg, n).Err?
    ensures Reduce(people, teams, reg, m).Err? && Reduce(people, teams, reg, m).error == Reduce(people, teams, reg, n).error
    decreases m
  {
    if m > n {
      ReduceFailureStays(people, teams, reg, n, m - 1);
    }
  }
}
