/** What lists and counts of the repositories contain. */
module Listing {
  import opened Common
  import opened AccessControl
  import opened Identity

  /** The users a query is about: active, with a matching name, in a team of the scope. */
  function Selected(s: Store, q: Query, scope: Option<set<int>>): set<int> {
    set id | id in s.users && !s.users[id].deleted
             && (q.keyword.Some? ==> q.keyword.value(s.users[id].name))
             && (scope.Some? ==> s.users[id].teamId in scope.value)
  }

  /** How many of `count` rows are on a page. */
  function Length(count: nat, offset: nat, limit: nat): nat {
    if count <= offset then 0 else Min(count - offset, limit)
  }

  /**
   The page counts all selected users and lists as many as it has room for: each once, each with its own
   data, the newest first, and all of them when they fit.
   */
  ghost predicate Shows(s: Store, q: Query, scope: Option<set<int>>, page: Page) {
    var users := Selected(s, q, scope);
    && page.count == |users|
    && |page.list| == Length(page.count, q.offset, q.limit)
    && (forall i :: 0 <= i < |page.list| ==>
          var id := page.list[i].id;
          id in users
          && page.list[i] == UserData(id, s.users[id].email, s.users[id].name, s.users[id].teamId, s.users[id].position))
    && (forall i, j :: 0 <= i < j < |page.list| ==> page.list[i].id != page.list[j].id)
    && (forall i, j :: 0 <= i < j < |page.list| ==>
          s.users[page.list[i].id].createdAt >= s.users[page.list[j].id].createdAt)
    && (q.offset == 0 && page.count <= q.limit ==>
          forall id :: id in users ==> exists i :: 0 <= i < |page.list| && page.list[i].id == id)
  }

  lemma {:induction false} AsManyIds(ids: seq<int>, all: set<int>)
    requires forall i, j :: 0 <= i < j < |ids| ==> ids[i] != ids[j]
    requires forall id :: id in ids <==> id in all
    ensures |ids| == |all|
  {
    if ids == [] {
      if all != {} {
        var id := SomeElement(all);
        assert false;
      }
    } else {
      assert ids == [ids[0]] + ids[1..];
      AsManyIds(ids[1..], all - {ids[0]});
    }
  }

  /** A page is a stretch of the whole order. */
  lemma PageIsStretch(rows: map<int, UserRow>, q: Query)
    ensures var all, list := q.order(rows), PageOf(rows, q).list;
            && NewestFirst(rows, all) && |all| == |rows|
            && |list| == Length(|rows|, q.offset, q.limit)
            && forall i :: 0 <= i < |list| ==> list[i] == ToData(all[q.offset + i], rows[all[q.offset + i]])
  {
    var all := q.order(rows);
    assert NewestFirst(rows, all);
    AsManyIds(all, rows.Keys);
    assert |rows.Keys| == |rows|;
  }

  lemma PageShows(s: Store, q: Query, scope: Option<set<int>>)
    ensures Shows(s, q, scope, PageOf(SearchRows(s, q.keyword, scope), q))
  {
    var rows := SearchRows(s, q.keyword, scope);
    assert rows.Keys == Selected(s, q, scope) && |rows.Keys| == |rows|;
    PageIsStretch(rows, q);
    StretchIsOrdered(rows, q);
    assert forall id :: id in rows ==> rows[id] == s.users[id];
  }

  lemma StretchIsOrdered(rows: map<int, UserRow>, q: Query)
    ensures var list := PageOf(rows, q).list;
            && (forall i :: 0 <= i < |list| ==> list[i].id in rows && list[i] == ToData(list[i].id, rows[list[i].id]))
            && (forall i, j :: 0 <= i < j < |list| ==> list[i].id != list[j].id)
            && (forall i, j :: 0 <= i < j < |list| ==> rows[list[i].id].createdAt >= rows[list[j].id].createdAt)
            && (q.offset == 0 && |rows| <= q.limit ==>
                  forall id :: id in rows ==> exists i :: 0 <= i < |list| && list[i].id == id)
  {
    PageIsStretch(rows, q);
    var all, list := q.order(rows), PageOf(rows, q).list;
    assert forall i :: 0 <= i < |list| ==> list[i].id == all[q.offset + i];
    if q.offset == 0 && |rows| <= q.limit {
      forall id | id in rows ensures exists i :: 0 <= i < |list| && list[i].id == id {
        var i :| 0 <= i < |all| && all[i] == id;
        assert list[i].id == id;
      }
    }
  }

  lemma ConsecutiveStretches(rows: map<int, UserRow>, q: Query, more: nat)
    ensures PageOf(rows, q).list + PageOf(rows, q.(offset := q.offset + q.limit, limit := more)).list
            == PageOf(rows, q.(limit := q.limit + more)).list
  {
    PageIsStretch(rows, q);
    PageIsStretch(rows, q.(offset := q.offset + q.limit, limit := more));
    PageIsStretch(rows, q.(limit := q.limit + more));
  }

  /** The scope of an actor's lists: everything for SUPER, otherwise its own teams. */
  function ScopeOf(actor: Subject): Option<set<int>> {
    if IsSuper(actor) then None else Some(TeamIds(actor.teams))
  }

  /**
   An actor's list shows, and counts, exactly the active users with a matching name that are in the actor's
   teams, or all of them for SUPER; each is the user that a single read would return.
   */
  lemma UserListShowsExactlyColleagues(s: Store, actor: Subject, q: Query)
    ensures Shows(s, q, ScopeOf(actor), GetUserList(s, actor, q))
    ensures forall id :: id in Selected(s, q, ScopeOf(actor)) <==>
              && ActiveUser(s, id) && (q.keyword.Some? ==> q.keyword.value(s.users[id].name))
              && GetUser(s, actor, id) ==
                 Success(UserData(id, s.users[id].email, s.users[id].name, s.users[id].teamId, s.users[id].position))
  {
    PageShows(s, q, ScopeOf(actor));
    if !IsSuper(actor) && actor.teams == [] {
      assert TeamIds(actor.teams) == {};
      assert Selected(s, q, ScopeOf(actor)) == {};
    }
    forall id | id in s.users ensures FindMembership(actor.teams, s.users[id].teamId).Some?
                                      <==> s.users[id].teamId in TeamIds(actor.teams) {
      MembershipMeansTeam(actor.teams, s.users[id].teamId);
    }
  }

  lemma {:induction false} MembershipMeansTeam(teams: seq<Membership>, teamId: int)
    ensures FindMembership(teams, teamId).Some? <==> teamId in TeamIds(teams)
  {
    if teams != [] {
      MembershipMeansTeam(teams[1..], teamId);
      assert teams == [teams[0]] + teams[1..];
    }
  }

  // ----- One query after the other: each may order equal creation times in its own way

  predicate NoTies(rows: map<int, UserRow>) {
    forall a, b :: a in rows && b in rows && a != b ==> rows[a].createdAt != rows[b].createdAt
  }

  /** Without equal times there is only one order. */
  lemma {:induction false} OneOrder(rows: map<int, UserRow>, x: seq<int>, y: seq<int>)
    requires NoTies(rows) && NewestFirst(rows, x) && NewestFirst(rows, y)
    ensures x == y
    decreases |x|
  {
    AsManyIds(x, rows.Keys);
    AsManyIds(y, rows.Keys);
    if x != [] {
      FirstIsNewest(rows, x, y);
      RestIsNewestFirst(rows, x);
      RestIsNewestFirst(rows, y);
      OneOrder(rows - {x[0]}, x[1..], y[1..]);
    }
  }

  lemma FirstIsNewest(rows: map<int, UserRow>, x: seq<int>, y: seq<int>)
    requires NoTies(rows) && NewestFirst(rows, x) && NewestFirst(rows, y) && x != [] && y != []
    ensures x[0] == y[0]
  {
    assert x[0] in y && y[0] in x;
    var i :| 0 <= i < |y| && y[i] == x[0];
    var j :| 0 <= j < |x| && x[j] == y[0];
    assert rows[x[0]].createdAt == rows[y[0]].createdAt;
  }

  lemma RestIsNewestFirst(rows: map<int, UserRow>, x: seq<int>)
    requires NewestFirst(rows, x) && x != []
    ensures NewestFirst(rows - {x[0]}, x[1..])
  {
    assert x == [x[0]] + x[1..];
  }

  /** `x` with `a` and `b` in each other's places. */
  function Swapped(x: seq<int>, a: int, b: int): seq<int> {
    seq(|x|, i requires 0 <= i < |x| => if x[i] == a then b else if x[i] == b then a else x[i])
  }

  lemma SwappedIsOrder(rows: map<int, UserRow>, x: seq<int>, a: int, b: int)
    requires NewestFirst(rows, x) && a in rows && b in rows && rows[a].createdAt == rows[b].createdAt
    ensures NewestFirst(rows, Swapped(x, a, b))
  {
    var y := Swapped(x, a, b);
    forall id | id in rows ensures id in y {
      var from := if id == a then b else if id == b then a else id;
      var i :| 0 <= i < |x| && x[i] == from;
      assert y[i] == id;
    }
  }

  /** An order that lists `rows` as `ids`. */
  ghost function OrderWith(rows: map<int, UserRow>, ids: seq<int>): (f: Order)
    requires NewestFirst(rows, ids)
    ensures f(rows) == ids
  {
    var f := (other: map<int, UserRow>) => if other == rows then ids else AnyOrder(other);
    f
  }

  /** The selected rows of an actor's list. */
  function ListedRows(s: Store, actor: Subject, keyword: Option<string -> bool>): map<int, UserRow> {
    SearchRows(s, keyword, ScopeOf(actor))
  }

  lemma ListOf(s: Store, actor: Subject, q: Query)
    ensures GetUserList(s, actor, q).list == PageOf(ListedRows(s, actor, q.keyword), q).list
  {
    if !IsSuper(actor) && actor.teams == [] {
      assert TeamIds(actor.teams) == {};
      assert ListedRows(s, actor, q.keyword) == map[];
      PageIsStretch(map[], q);
    }
  }

  /** Three queries, each ordered by the database as it likes: two neighbouring pages and the page of both. */
  ghost predicate Fit(s: Store, actor: Subject, keyword: Option<string -> bool>, f: Order, g: Order, h: Order,
                      offset: nat, limit: nat, more: nat) {
    GetUserList(s, actor, Query(keyword, f, offset, limit)).list
    + GetUserList(s, actor, Query(keyword, g, offset + limit, more)).list
    == GetUserList(s, actor, Query(keyword, h, offset, limit + more)).list
  }

  /** Without ties the order of the query makes no difference to its page. */
  lemma SamePage(rows: map<int, UserRow>, keyword: Option<string -> bool>, f: Order, h: Order, offset: nat, limit: nat)
    requires NoTies(rows)
    ensures PageOf(rows, Query(keyword, f, offset, limit)) == PageOf(rows, Query(keyword, h, offset, limit))
  {
    OneOrder(rows, f(rows), h(rows));
  }

  lemma StretchesFit(rows: map<int, UserRow>, keyword: Option<string -> bool>, f: Order, g: Order, h: Order,
                     offset: nat, limit: nat, more: nat)
    requires NoTies(rows)
    ensures PageOf(rows, Query(keyword, f, offset, limit)).list + PageOf(rows, Query(keyword, g, offset + limit, more)).list
            == PageOf(rows, Query(keyword, h, offset, limit + more)).list
  {
    SamePage(rows, keyword, f, h, offset, limit);
    SamePage(rows, keyword, g, h, offset + limit, more);
    ConsecutiveStretches(rows, Query(keyword, h, offset, limit), more);
  }

  lemma PagesFitWithoutTies(s: Store, actor: Subject, keyword: Option<string -> bool>, f: Order, g: Order, h: Order,
                            offset: nat, limit: nat, more: nat)
    requires NoTies(ListedRows(s, actor, keyword))
    ensures Fit(s, actor, keyword, f, g, h, offset, limit, more)
  {
    ListOf(s, actor, Query(keyword, f, offset, limit));
    ListOf(s, actor, Query(keyword, g, offset + limit, more));
    ListOf(s, actor, Query(keyword, h, offset, limit + more));
    StretchesFit(ListedRows(s, actor, keyword), keyword, f, g, h, offset, limit, more);
  }

  lemma WholePage(s: Store, actor: Subject, keyword: Option<string -> bool>, f: Order, i: nat)
    requires i < |ListedRows(s, actor, keyword)|
    ensures var rows := ListedRows(s, actor, keyword);
            var list := GetUserList(s, actor, Query(keyword, f, 0, |rows|)).list;
            |f(rows)| == |list| == |rows| && list[i].id == f(rows)[i]
  {
    var q := Query(keyword, f, 0, |ListedRows(s, actor, keyword)|);
    ListOf(s, actor, q);
    PageIsStretch(ListedRows(s, actor, keyword), q);
  }

  lemma TiesBreakPages(s: Store, actor: Subject, keyword: Option<string -> bool>, a: int, b: int)
    requires var rows := ListedRows(s, actor, keyword);
             a in rows && b in rows && a != b && rows[a].createdAt == rows[b].createdAt
    ensures exists f: Order, g: Order, h: Order, more: nat :: !Fit(s, actor, keyword, f, g, h, 0, 0, more)
  {
    var rows := ListedRows(s, actor, keyword);
    var x := AnyOrder(rows);
    SwappedIsOrder(rows, x, a, b);
    var f, g := OrderWith(rows, x), OrderWith(rows, Swapped(x, a, b));
    var i :| 0 <= i < |x| && x[i] == a;
    AsManyIds(x, rows.Keys);
    WholePage(s, actor, keyword, f, i);
    WholePage(s, actor, keyword, g, i);
    ListOf(s, actor, Query(keyword, f, 0, 0));
    assert GetUserList(s, actor, Query(keyword, f, 0, 0)).list == [];
    assert !Fit(s, actor, keyword, f, f, g, 0, 0, |rows|);
  }

  /**
   Pages fetched one after the other fit together, nobody shown twice or left out in between, in whatever way
   the database orders each query, if and only if no two of the listed users were created at the same time.
   */
  lemma PagesFitExactlyWithoutTies(s: Store, actor: Subject, keyword: Option<string -> bool>)
    ensures (forall f: Order, g: Order, h: Order, offset: nat, limit: nat, more: nat ::
               Fit(s, actor, keyword, f, g, h, offset, limit, more))
            <==> NoTies(ListedRows(s, actor, keyword))
  {
    var rows := ListedRows(s, actor, keyword);
    if NoTies(rows) {
      forall f: Order, g: Order, h: Order, offset: nat, limit: nat, more: nat
        ensures Fit(s, actor, keyword, f, g, h, offset, limit, more)
      {
        PagesFitWithoutTies(s, actor, keyword, f, g, h, offset, limit, more);
      }
    } else {
      var a, b :| a in rows && b in rows && a != b && rows[a].createdAt == rows[b].createdAt;
      TiesBreakPages(s, actor, keyword, a, b);
    }
  }

  /** With two users of equal time, the first page and the second can both show the one and never the other. */
  lemma TiedUserIsNeverShown(s: Store, actor: Subject, keyword: Option<string -> bool>, a: int, b: int)
    returns (f: Order, g: Order)
    requires var rows := ListedRows(s, actor, keyword);
             rows.Keys == {a, b} && a != b && rows[a].createdAt == rows[b].createdAt
    ensures var shown := [ToData(a, s.users[a])];
            && GetUserList(s, actor, Query(keyword, f, 0, 1)).list == shown
            && GetUserList(s, actor, Query(keyword, g, 1, 1)).list == shown
  {
    var rows := ListedRows(s, actor, keyword);
    assert |rows| == |rows.Keys| == 2;
    f, g := OrderWith(rows, [a, b]), OrderWith(rows, [b, a]);
    ListOf(s, actor, Query(keyword, f, 0, 1));
    ListOf(s, actor, Query(keyword, g, 1, 1));
    PageIsStretch(rows, Query(keyword, f, 0, 1));
    PageIsStretch(rows, Query(keyword, g, 1, 1));
  }

  // ----- Counts

  lemma NoMembers(s: Store, teamId: int)
    ensures CountByTeam(s, teamId) == 0 <==> forall id :: ActiveUser(s, id) ==> s.users[id].teamId != teamId
  {
    if CountByTeam(s, teamId) > 0 {
      var id := SomeElement(MembersOf(s, teamId));
      assert ActiveUser(s, id);
    }
    forall id | ActiveUser(s, id) && s.users[id].teamId == teamId ensures CountByTeam(s, teamId) > 0 {
      assert id in MembersOf(s, teamId);
    }
  }

  lemma NoTeams(s: Store, roleId: int)
    ensures CountByRole(s, roleId) == 0 <==> forall id :: ActiveTeam(s, id) ==> s.teams[id].roleId != roleId
  {
    if CountByRole(s, roleId) > 0 {
      var id := SomeElement(TeamsOf(s, roleId));
      assert ActiveTeam(s, id);
    }
    forall id | ActiveTeam(s, id) && s.teams[id].roleId == roleId ensures CountByRole(s, roleId) > 0 {
      assert id in TeamsOf(s, roleId);
    }
  }
}
