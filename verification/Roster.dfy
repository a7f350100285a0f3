/**
 The team roster: a relational query (inner join, left join, where, group, counts, order) that reads the
 tables in whatever order the database scans them, and the direct per-team counts it must agree with.
 */
module Roster {
  import opened Common
  import opened AccessControl
  import opened Identity
  import opened IdentityIntegrity

  // ----- Joins

  predicate NoDup<T(==)>(xs: seq<T>) {
    xs == [] || (xs[0] !in xs[1..] && NoDup(xs[1..]))
  }

  function Filter<T>(xs: seq<T>, p: T -> bool): seq<T> {
    if xs == [] then []
    else if p(xs[0]) then [xs[0]] + Filter(xs[1..], p)
    else Filter(xs[1..], p)
  }

  function Map<A, B>(f: A -> B, xs: seq<A>): seq<B> {
    if xs == [] then [] else [f(xs[0])] + Map(f, xs[1..])
  }

  /** Every `x` with each of its matches. */
  function Pairs<A, B>(xs: seq<A>, matches: A -> seq<B>): seq<(A, B)> {
    if xs == [] then [] else Map(y => (xs[0], y), matches(xs[0])) + Pairs(xs[1..], matches)
  }

  function Partners<A, B>(x: A, ys: seq<B>, on: (A, B) -> bool): seq<B> {
    Filter(ys, y => on(x, y))
  }

  function InnerJoin<A, B>(xs: seq<A>, ys: seq<B>, on: (A, B) -> bool): seq<(A, B)> {
    Pairs(xs, x => Partners(x, ys, on))
  }

  /** The matches of `x`, or, when it has none, the null row once. */
  function Matches<A, B>(x: A, ys: seq<B>, on: (A, B) -> bool): seq<Option<B>> {
    var found := Partners(x, ys, on);
    if found == [] then [None] else Map(y => Some(y), found)
  }

  function LeftJoin<A, B>(xs: seq<A>, ys: seq<B>, on: (A, B) -> bool): seq<(A, Option<B>)> {
    Pairs(xs, x => Matches(x, ys, on))
  }

  lemma {:induction false} FilterSelects<T(!new)>(xs: seq<T>, p: T -> bool)
    ensures forall x :: x in Filter(xs, p) <==> x in xs && p(x)
    ensures NoDup(xs) ==> NoDup(Filter(xs, p))
  {
    if xs != [] {
      FilterSelects(xs[1..], p);
      assert xs == [xs[0]] + xs[1..];
    }
  }

  lemma {:induction false} MapHas<A(!new), B(!new)>(f: A -> B, xs: seq<A>)
    ensures forall x :: x in xs ==> f(x) in Map(f, xs)
    ensures forall y :: y in Map(f, xs) ==> exists x :: x in xs && f(x) == y
    ensures NoDup(xs) && (forall a, b :: f(a) == f(b) ==> a == b) ==> NoDup(Map(f, xs))
  {
    if xs != [] {
      MapHas(f, xs[1..]);
      assert xs == [xs[0]] + xs[1..];
    }
  }

  lemma {:induction false} AppendNoDup<T(!new)>(xs: seq<T>, ys: seq<T>)
    requires NoDup(xs) && NoDup(ys) && forall x :: x in xs ==> x !in ys
    ensures NoDup(xs + ys)
  {
    if xs == [] {
      assert xs + ys == ys;
    } else {
      AppendNoDup(xs[1..], ys);
      assert (xs + ys)[1..] == xs[1..] + ys;
    }
  }

  lemma {:induction false} PairsAre<A(!new), B(!new)>(xs: seq<A>, matches: A -> seq<B>)
    ensures forall p :: p in Pairs(xs, matches) <==> p.0 in xs && p.1 in matches(p.0)
    ensures NoDup(xs) && (forall x :: NoDup(matches(x))) ==> NoDup(Pairs(xs, matches))
  {
    if xs != [] {
      var x, rest := xs[0], Pairs(xs[1..], matches);
      var first := Map(y => (x, y), matches(x));
      MapHas(y => (x, y), matches(x));
      PairsAre(xs[1..], matches);
      assert xs == [x] + xs[1..];
      assert Pairs(xs, matches) == first + rest;
      assert forall p :: p in first <==> p.0 == x && p.1 in matches(x);
      if NoDup(xs) && (forall x :: NoDup(matches(x))) {
        AppendNoDup(first, rest);
      }
    }
  }

  lemma PartnersAre<A(!new), B(!new)>(x: A, ys: seq<B>, on: (A, B) -> bool)
    ensures forall y :: y in Partners(x, ys, on) <==> y in ys && on(x, y)
    ensures NoDup(ys) ==> NoDup(Partners(x, ys, on))
  {
    FilterSelects(ys, y => on(x, y));
  }

  lemma InnerJoinIs<A(!new), B(!new)>(xs: seq<A>, ys: seq<B>, on: (A, B) -> bool)
    ensures forall p :: p in InnerJoin(xs, ys, on) <==> p.0 in xs && p.1 in ys && on(p.0, p.1)
    ensures NoDup(xs) && NoDup(ys) ==> NoDup(InnerJoin(xs, ys, on))
  {
    var matches := x => Partners(x, ys, on);
    forall x ensures (forall y :: y in matches(x) <==> y in ys && on(x, y)) && (NoDup(ys) ==> NoDup(matches(x))) {
      PartnersAre(x, ys, on);
    }
    PairsAre(xs, matches);
  }

  lemma MatchesAre<A(!new), B(!new)>(x: A, ys: seq<B>, on: (A, B) -> bool)
    ensures forall m :: m in Matches(x, ys, on) <==>
              if m.Some? then m.value in ys && on(x, m.value) else forall y :: y in ys ==> !on(x, y)
    ensures NoDup(ys) ==> NoDup(Matches(x, ys, on))
  {
    var found := Partners(x, ys, on);
    PartnersAre(x, ys, on);
    MapHas(y => Some(y), found);
    if found != [] {
      assert found[0] in found;
      assert forall m :: m in Matches(x, ys, on) <==> m.Some? && m.value in found;
    }
  }

  lemma LeftJoinIs<A(!new), B(!new)>(xs: seq<A>, ys: seq<B>, on: (A, B) -> bool)
    ensures forall p :: p in LeftJoin(xs, ys, on) <==>
              p.0 in xs && if p.1.Some? then p.1.value in ys && on(p.0, p.1.value) else forall y :: y in ys ==> !on(p.0, y)
    ensures NoDup(xs) && NoDup(ys) ==> NoDup(LeftJoin(xs, ys, on))
  {
    var matches := x => Matches(x, ys, on);
    forall x
      ensures forall m :: m in matches(x) <==>
                if m.Some? then m.value in ys && on(x, m.value) else forall y :: y in ys ==> !on(x, y)
      ensures NoDup(ys) ==> NoDup(matches(x))
    {
      MatchesAre(x, ys, on);
    }
    PairsAre(xs, matches);
  }

  // ----- The query

  /** A joined row: a team, its role, and one member or none. */
  type Row = ((int, int), Option<int>)

  /** An order in which a table is scanned: every id once. */
  ghost predicate IsScan<T>(order: seq<int>, table: map<int, T>) {
    NoDup(order) && forall id :: id in order <==> id in table
  }

  datatype Scans = Scans(roles: seq<int>, teams: seq<int>, users: seq<int>)

  ghost predicate ValidScans(s: Store, o: Scans) {
    IsScan(o.roles, s.roles) && IsScan(o.teams, s.teams) && IsScan(o.users, s.users)
  }

  /** No list, or an empty one, asks for every team. */
  predicate Asked(teamIds: Option<seq<int>>, team: int) {
    teamIds.Some? && teamIds.value != [] ==> team in teamIds.value
  }

  function JoinedRows(s: Store, o: Scans): seq<Row>
  {
    var withRoles := InnerJoin(o.teams, o.roles, (t, r) => t in s.teams && r == s.teams[t].roleId);
    LeftJoin(withRoles, o.users,
             (p: (int, int), u) => u in s.users && s.users[u].teamId == p.0 && !s.users[u].deleted)
  }

  predicate Kept(s: Store, teamIds: Option<seq<int>>, row: Row) {
    ActiveTeam(s, row.0.0) && ActiveRole(s, row.0.1) && Asked(teamIds, row.0.0)
  }

  datatype RosterRow = RosterRow(teamId: int, teamName: string, roleName: string, memberCount: nat, leaderCount: nat)

  predicate HasMember(row: Row) {
    row.1.Some?
  }

  predicate HasLeader(s: Store, row: Row) {
    row.1.Some? && row.1.value in s.users && s.users[row.1.value].position == LEADER
  }

  /** A row of the join belongs to the group with its team id, team name and role name. */
  predicate InGroup(s: Store, g: RosterRow, row: Row) {
    && g.teamId == row.0.0
    && row.0.0 in s.teams && g.teamName == s.teams[row.0.0].name
    && row.0.1 in s.roles && g.roleName == s.roles[row.0.1].name
  }

  function CountRow(s: Store, g: RosterRow, row: Row): RosterRow {
    g.(memberCount := g.memberCount + if HasMember(row) then 1 else 0,
       leaderCount := g.leaderCount + if HasLeader(s, row) then 1 else 0)
  }

  function EmptyGroup(s: Store, row: Row): RosterRow {
    RosterRow(row.0.0,
              if row.0.0 in s.teams then s.teams[row.0.0].name else "",
              if row.0.1 in s.roles then s.roles[row.0.1].name else "", 0, 0)
  }

  /** Counts a row in its group, keeping the groups in the order of team ids. */
  function AddRow(s: Store, groups: seq<RosterRow>, row: Row): seq<RosterRow> {
    if groups == [] || row.0.0 < groups[0].teamId then [CountRow(s, EmptyGroup(s, row), row)] + groups
    else if InGroup(s, groups[0], row) then [CountRow(s, groups[0], row)] + groups[1..]
    else [groups[0]] + AddRow(s, groups[1..], row)
  }

  function GroupRows(s: Store, rows: seq<Row>): seq<RosterRow> {
    if rows == [] then [] else AddRow(s, GroupRows(s, rows[1..]), rows[0])
  }

  function TeamRoster(s: Store, o: Scans, teamIds: Option<seq<int>>): seq<RosterRow> {
    GroupRows(s, Filter(JoinedRows(s, o), row => Kept(s, teamIds, row)))
  }

  // ----- What it must be

  function LeadersOf(s: Store, teamId: int): set<int> {
    set id | id in MembersOf(s, teamId) && s.users[id].position == LEADER
  }

  /** A team's row by the service's own counts. */
  function DirectRow(s: Store, team: int): RosterRow
    requires team in s.teams && s.teams[team].roleId in s.roles
  {
    RosterRow(team, s.teams[team].name, s.roles[s.teams[team].roleId].name,
              CountByTeam(s, team), |LeadersOf(s, team)|)
  }

  predicate Listed(s: Store, teamIds: Option<seq<int>>, team: int) {
    ActiveTeam(s, team) && ActiveRole(s, s.teams[team].roleId) && Asked(teamIds, team)
  }

  predicate Ascending(rows: seq<RosterRow>) {
    rows == [] || ((forall row :: row in rows[1..] ==> rows[0].teamId < row.teamId) && Ascending(rows[1..]))
  }

  function Lookup(rows: seq<RosterRow>, team: int): Option<RosterRow> {
    if rows == [] then None
    else if rows[0].teamId == team then Some(rows[0])
    else Lookup(rows[1..], team)
  }

  // ----- Grouping counts what it should

  /** Rows of the join are those of a team with its role, each once. */
  ghost predicate Proper(s: Store, rows: seq<Row>) {
    && NoDup(rows)
    && forall row :: row in rows ==> row.0.0 in s.teams && row.0.1 == s.teams[row.0.0].roleId && row.0.1 in s.roles
  }

  ghost function MemberRows(rows: seq<Row>, team: int): set<Row> {
    set row | row in rows && row.0.0 == team && HasMember(row)
  }

  ghost function LeaderRows(s: Store, rows: seq<Row>, team: int): set<Row> {
    set row | row in rows && row.0.0 == team && HasLeader(s, row)
  }

  ghost predicate HasRows(rows: seq<Row>, team: int) {
    exists row :: row in rows && row.0.0 == team
  }

  ghost function Summary(s: Store, rows: seq<Row>, team: int): Option<RosterRow> {
    if HasRows(rows, team) && team in s.teams && s.teams[team].roleId in s.roles
    then Some(RosterRow(team, s.teams[team].name, s.roles[s.teams[team].roleId].name,
                        |MemberRows(rows, team)|, |LeaderRows(s, rows, team)|))
    else None
  }

  /** Groups carry the names of their team. */
  ghost predicate Named(s: Store, groups: seq<RosterRow>) {
    forall g :: g in groups ==>
      && g.teamId in s.teams && g.teamName == s.teams[g.teamId].name
      && s.teams[g.teamId].roleId in s.roles && g.roleName == s.roles[s.teams[g.teamId].roleId].name
  }

  lemma {:induction false} AddRowKeepsOrder(s: Store, groups: seq<RosterRow>, row: Row)
    requires Ascending(groups) && Named(s, groups) && Proper(s, [row])
    ensures Ascending(AddRow(s, groups, row)) && Named(s, AddRow(s, groups, row))
    ensures forall g :: g in AddRow(s, groups, row) ==>
              g.teamId == row.0.0 || exists h :: h in groups && h.teamId == g.teamId
  {
    assert row in [row];
    if groups != [] && row.0.0 >= groups[0].teamId {
      assert groups == [groups[0]] + groups[1..];
      if groups[0].teamId != row.0.0 {
        AddRowKeepsOrder(s, groups[1..], row);
      }
    }
  }

  lemma {:induction false} AddRowCounts(s: Store, groups: seq<RosterRow>, row: Row, team: int)
    requires Ascending(groups) && Named(s, groups) && Proper(s, [row])
    ensures Lookup(AddRow(s, groups, row), team) == Counted(s, Lookup(groups, team), row, team)
  {
    assert row in [row];
    if groups != [] {
      assert groups[0] in groups;
      if row.0.0 < groups[0].teamId {
        LookupMisses(groups, row.0.0);
      } else if groups[0].teamId != row.0.0 {
        AddRowCounts(s, groups[1..], row, team);
      }
    }
  }

  /** A team's group after one more row. */
  function Counted(s: Store, g: Option<RosterRow>, row: Row, team: int): Option<RosterRow> {
    if team != row.0.0 then g
    else Some(CountRow(s, if g.Some? then g.value else EmptyGroup(s, row), row))
  }

  lemma {:induction false} LookupMisses(rows: seq<RosterRow>, team: int)
    requires forall g :: g in rows ==> g.teamId != team
    ensures Lookup(rows, team).None?
  {
    if rows != [] { LookupMisses(rows[1..], team); }
  }

  lemma {:induction false} GroupsSummarize(s: Store, rows: seq<Row>)
    requires Proper(s, rows)
    ensures Ascending(GroupRows(s, rows)) && Named(s, GroupRows(s, rows))
    ensures forall team :: Lookup(GroupRows(s, rows), team) == Summary(s, rows, team)
  {
    if rows != [] {
      var row, rest := rows[0], rows[1..];
      GroupsSummarize(s, rest);
      AddRowKeepsOrder(s, GroupRows(s, rest), row);
      forall team ensures Lookup(GroupRows(s, rows), team) == Summary(s, rows, team) {
        AddRowCounts(s, GroupRows(s, rest), row, team);
        SummaryGrows(s, rows, team);
      }
    }
  }

  lemma MemberRowsGrow(rows: seq<Row>, team: int)
    requires NoDup(rows) && rows != []
    ensures |MemberRows(rows, team)| ==
            |MemberRows(rows[1..], team)| + if rows[0].0.0 == team && HasMember(rows[0]) then 1 else 0
  {
    assert rows == [rows[0]] + rows[1..];
    assert MemberRows(rows, team) ==
           MemberRows(rows[1..], team) + if rows[0].0.0 == team && HasMember(rows[0]) then {rows[0]} else {};
  }

  lemma LeaderRowsGrow(s: Store, rows: seq<Row>, team: int)
    requires NoDup(rows) && rows != []
    ensures |LeaderRows(s, rows, team)| ==
            |LeaderRows(s, rows[1..], team)| + if rows[0].0.0 == team && HasLeader(s, rows[0]) then 1 else 0
  {
    assert rows == [rows[0]] + rows[1..];
    assert LeaderRows(s, rows, team) ==
           LeaderRows(s, rows[1..], team) + if rows[0].0.0 == team && HasLeader(s, rows[0]) then {rows[0]} else {};
  }

  lemma NoRowsNoMembers(s: Store, rows: seq<Row>, team: int)
    requires !HasRows(rows, team)
    ensures MemberRows(rows, team) == {} && LeaderRows(s, rows, team) == {}
  {
  }

  lemma SummaryGrows(s: Store, rows: seq<Row>, team: int)
    requires Proper(s, rows) && rows != []
    ensures Summary(s, rows, team) == Counted(s, Summary(s, rows[1..], team), rows[0], team)
  {
    var row, rest := rows[0], rows[1..];
    MemberRowsGrow(rows, team);
    LeaderRowsGrow(s, rows, team);
    assert row in rows && (HasRows(rows, team) <==> row.0.0 == team || HasRows(rest, team)) by {
      assert rows == [row] + rest;
    }
    if !HasRows(rest, team) { NoRowsNoMembers(s, rest, team); }
  }

  // ----- The joined rows of a team are its members

  ghost predicate IsJoined(s: Store, row: Row) {
    && row.0.0 in s.teams && row.0.1 == s.teams[row.0.0].roleId && row.0.1 in s.roles
    && (row.1.Some? ==> row.1.value in MembersOf(s, row.0.0))
    && (row.1.None? ==> MembersOf(s, row.0.0) == {})
  }

  lemma JoinedRowsAre(s: Store, o: Scans)
    requires ValidScans(s, o)
    ensures NoDup(JoinedRows(s, o))
    ensures forall row :: row in JoinedRows(s, o) <==> IsJoined(s, row)
  {
    var ofRole := (t, r) => t in s.teams && r == s.teams[t].roleId;
    var withRoles := InnerJoin(o.teams, o.roles, ofRole);
    InnerJoinIs(o.teams, o.roles, ofRole);
    var member := (p: (int, int), u) => u in s.users && s.users[u].teamId == p.0 && !s.users[u].deleted;
    LeftJoinIs(withRoles, o.users, member);
    forall row: Row ensures row in LeftJoin(withRoles, o.users, member) <==> IsJoined(s, row) {
      MembersAreMatches(s, o, row.0.0);
      assert forall u :: u in o.users && member(row.0, u) <==> u in MembersOf(s, row.0.0);
      assert row.0 in withRoles <==>
             row.0.0 in s.teams && row.0.1 in s.roles && row.0.1 == s.teams[row.0.0].roleId;
      if row.1.None? && MembersOf(s, row.0.0) != {} {
        var u := SomeElement(MembersOf(s, row.0.0));
        assert u in o.users && member(row.0, u);
      }
    }
  }

  lemma MembersAreMatches(s: Store, o: Scans, team: int)
    requires ValidScans(s, o)
    ensures forall u :: u in MembersOf(s, team) <==>
              u in o.users && u in s.users && s.users[u].teamId == team && !s.users[u].deleted
  {
  }

  /** The rows that stand for the users of `ids` in one team. */
  ghost function RowsFor(pair: (int, int), ids: set<int>): set<Row> {
    set id | id in ids :: (pair, Some(id))
  }

  lemma {:induction false} AsManyRows(pair: (int, int), ids: set<int>)
    ensures |RowsFor(pair, ids)| == |ids|
    ensures forall row :: row in RowsFor(pair, ids) <==> row.0 == pair && row.1.Some? && row.1.value in ids
  {
    if |ids| > 0 {
      var id := SomeElement(ids);
      AsManyRows(pair, ids - {id});
      assert RowsFor(pair, ids) == RowsFor(pair, ids - {id}) + {(pair, Some(id))};
    } else {
      assert RowsFor(pair, ids) == {};
    }
  }

  /**
   The query agrees with the direct counts, in whatever order the tables are scanned: the rows come in
   the order of team ids, one for each team that is active, has an active role and is asked for, with the
   count of its members that guards deletion and the count of its leaders.
   */
  lemma RosterIsTheDirectCounts(s: Store, o: Scans, teamIds: Option<seq<int>>)
    requires ValidScans(s, o)
    ensures Ascending(TeamRoster(s, o, teamIds))
    ensures forall team :: Lookup(TeamRoster(s, o, teamIds), team) ==
              if Listed(s, teamIds, team) then Some(DirectRow(s, team)) else None
  {
    JoinedRowsAre(s, o);
    var kept := row => Kept(s, teamIds, row);
    var rows := Filter(JoinedRows(s, o), kept);
    FilterSelects(JoinedRows(s, o), kept);
    forall row: Row ensures row in rows <==> IsJoined(s, row) && Kept(s, teamIds, row) {
      assert row in JoinedRows(s, o) <==> IsJoined(s, row);
    }
    GroupsSummarize(s, rows);
    forall team ensures Lookup(TeamRoster(s, o, teamIds), team) ==
                        if Listed(s, teamIds, team) then Some(DirectRow(s, team)) else None {
      if Listed(s, teamIds, team) {
        TeamSummary(s, rows, teamIds, team);
      }
    }
  }

  lemma TeamSummary(s: Store, rows: seq<Row>, teamIds: Option<seq<int>>, team: int)
    requires forall row :: row in rows <==> IsJoined(s, row) && Kept(s, teamIds, row)
    requires Listed(s, teamIds, team)
    ensures Summary(s, rows, team) == Some(DirectRow(s, team))
  {
    var pair := (team, s.teams[team].roleId);
    AsManyRows(pair, MembersOf(s, team));
    AsManyRows(pair, LeadersOf(s, team));
    assert forall row: Row :: row.0.0 == team && IsJoined(s, row) ==> row.0 == pair;
    assert MemberRows(rows, team) == RowsFor(pair, MembersOf(s, team));
    assert LeaderRows(s, rows, team) == RowsFor(pair, LeadersOf(s, team));
    if MembersOf(s, team) == {} {
      assert (pair, None) in rows;
    } else {
      var id :| id in MembersOf(s, team);
      assert (pair, Some(id)) in rows;
    }
  }

  // ----- What follows

  /** An ascending roster is determined by its rows. */
  lemma {:induction false} SameLookupsSameRoster(a: seq<RosterRow>, b: seq<RosterRow>)
    requires Ascending(a) && Ascending(b) && forall team :: Lookup(a, team) == Lookup(b, team)
    ensures a == b
  {
    if a == [] && b != [] {
      FirstIsFound(b);
      assert false;
    } else if a != [] && b == [] {
      FirstIsFound(a);
      assert false;
    } else if a != [] {
      FirstIsFound(a);
      FirstIsFound(b);
      FirstIsSmallest(a, b[0].teamId);
      FirstIsSmallest(b, a[0].teamId);
      forall team ensures Lookup(a[1..], team) == Lookup(b[1..], team) {
        assert Lookup(a, team) == Lookup(b, team);
        if team == a[0].teamId {
          LookupMisses(a[1..], team);
          LookupMisses(b[1..], team);
        }
      }
      SameLookupsSameRoster(a[1..], b[1..]);
    }
  }

  lemma FirstIsFound(rows: seq<RosterRow>)
    requires rows != []
    ensures Lookup(rows, rows[0].teamId) == Some(rows[0])
  {
  }

  lemma {:induction false} FirstIsSmallest(rows: seq<RosterRow>, team: int)
    requires Ascending(rows) && Lookup(rows, team).Some?
    ensures rows != [] && rows[0].teamId <= team
  {
    if rows[0].teamId != team {
      FirstIsSmallest(rows[1..], team);
    }
  }

  /** The order in which the database scans its tables does not show. */
  lemma ScanOrderDoesNotMatter(s: Store, o: Scans, p: Scans, teamIds: Option<seq<int>>)
    requires ValidScans(s, o) && ValidScans(s, p)
    ensures TeamRoster(s, o, teamIds) == TeamRoster(s, p, teamIds)
  {
    RosterIsTheDirectCounts(s, o, teamIds);
    RosterIsTheDirectCounts(s, p, teamIds);
    SameLookupsSameRoster(TeamRoster(s, o, teamIds), TeamRoster(s, p, teamIds));
  }

  lemma {:induction false} FilteredLookup(rows: seq<RosterRow>, p: RosterRow -> bool, team: int)
    requires Ascending(rows)
    ensures Ascending(Filter(rows, p))
    ensures Lookup(Filter(rows, p), team) ==
            if Lookup(rows, team).Some? && p(Lookup(rows, team).value) then Lookup(rows, team) else None
  {
    if rows != [] {
      FilteredLookup(rows[1..], p, team);
      FilterSelects(rows[1..], p);
      if rows[0].teamId == team && !p(rows[0]) {
        LookupMisses(rows[1..], team);
      }
    }
  }

  /** An empty list of ids asks for every team, as no list does. */
  lemma AskingForNothingIsAskingForAll(s: Store, o: Scans)
    requires ValidScans(s, o)
    ensures TeamRoster(s, o, Some([])) == TeamRoster(s, o, None)
  {
    RosterIsTheDirectCounts(s, o, Some([]));
    RosterIsTheDirectCounts(s, o, None);
    forall team ensures Lookup(TeamRoster(s, o, Some([])), team) == Lookup(TeamRoster(s, o, None), team) {}
    SameLookupsSameRoster(TeamRoster(s, o, Some([])), TeamRoster(s, o, None));
  }

  /** Asking for some teams is the same as picking their rows from the full roster. */
  lemma AskingIsFiltering(s: Store, o: Scans, ids: seq<int>)
    requires ValidScans(s, o) && ids != []
    ensures TeamRoster(s, o, Some(ids)) == Filter(TeamRoster(s, o, None), (row: RosterRow) => row.teamId in ids)
  {
    RosterIsTheDirectCounts(s, o, None);
    RosterIsTheDirectCounts(s, o, Some(ids));
    var full, p := TeamRoster(s, o, None), (row: RosterRow) => row.teamId in ids;
    FilteredLookup(full, p, 0);
    forall team ensures Lookup(TeamRoster(s, o, Some(ids)), team) == Lookup(Filter(full, p), team) {
      FilteredLookup(full, p, team);
    }
    SameLookupsSameRoster(TeamRoster(s, o, Some(ids)), Filter(full, p));
  }

  // ----- The counts add up

  function TotalMembers(rows: seq<RosterRow>): nat {
    if rows == [] then 0 else rows[0].memberCount + TotalMembers(rows[1..])
  }

  function ActiveUsers(s: Store): set<int> {
    set id | id in s.users && !s.users[id].deleted
  }

  ghost predicate DirectlyCounted(s: Store, rows: seq<RosterRow>) {
    forall row :: row in rows ==> row.memberCount == CountByTeam(s, row.teamId)
  }

  ghost function UsersIn(s: Store, rows: seq<RosterRow>): set<int> {
    set id | id in ActiveUsers(s) && Lookup(rows, s.users[id].teamId).Some?
  }

  lemma {:induction false} TotalIsUsersIn(s: Store, rows: seq<RosterRow>)
    requires Ascending(rows) && DirectlyCounted(s, rows)
    ensures TotalMembers(rows) == |UsersIn(s, rows)|
  {
    if rows == [] {
      if UsersIn(s, rows) != {} {
        var id := SomeElement(UsersIn(s, rows));
        assert false;
      }
    } else {
      var rest := rows[1..];
      assert rows == [rows[0]] + rest;
      TotalIsUsersIn(s, rest);
      LookupMisses(rest, rows[0].teamId);
      assert rows[0] in rows;
      var first, later := MembersOf(s, rows[0].teamId), UsersIn(s, rest);
      forall id ensures id in UsersIn(s, rows) <==> id in first + later {
        assert id in UsersIn(s, rows) <==> id in ActiveUsers(s) && Lookup(rows, s.users[id].teamId).Some?;
      }
      assert UsersIn(s, rows) == first + later;
      assert MembersOf(s, rows[0].teamId) !! UsersIn(s, rest);
    }
  }

  lemma {:induction false} LookupFinds(rows: seq<RosterRow>, row: RosterRow)
    requires Ascending(rows) && row in rows
    ensures Lookup(rows, row.teamId) == Some(row)
  {
    if rows[0] != row {
      assert rows == [rows[0]] + rows[1..];
      LookupFinds(rows[1..], row);
    }
  }

  /**
   In every reachable state the roster has exactly the active teams, no team has more leaders than members,
   and the member counts add up to the number of active users.
   */
  lemma RosterCountsEveryUserOnce(s: Store, o: Scans)
    requires Integrity(s) && ValidScans(s, o)
    ensures forall team :: Lookup(TeamRoster(s, o, None), team).Some? <==> ActiveTeam(s, team)
    ensures forall row :: row in TeamRoster(s, o, None) ==> row.leaderCount <= row.memberCount
    ensures TotalMembers(TeamRoster(s, o, None)) == |ActiveUsers(s)|
  {
    var rows := TeamRoster(s, o, None);
    RosterIsTheDirectCounts(s, o, None);
    forall row | row in rows
      ensures row.memberCount == CountByTeam(s, row.teamId) && row.leaderCount <= row.memberCount
    {
      LookupFinds(rows, row);
      assert LeadersOf(s, row.teamId) <= MembersOf(s, row.teamId);
      SubsetIsSmaller(LeadersOf(s, row.teamId), MembersOf(s, row.teamId));
    }
    TotalIsUsersIn(s, rows);
    assert UsersIn(s, rows) == ActiveUsers(s) by {
      forall id | id in ActiveUsers(s) ensures id in UsersIn(s, rows) {
        assert ActiveUser(s, id);
      }
    }
  }
}
