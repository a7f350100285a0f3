/** What coalitions can do and see over whole runs, with tokens that may be stale. */
module Confinement {
  import opened Common
  import opened AccessControl
  import opened Text
  import opened Identity
  import opened IdentityIntegrity
  import opened Listing

  // ----- Tokens

  /** A token's team and global roles are its user's, however old it is; only the position may differ. */
  predicate TokenFits(s: Store, c: Subject) {
    && c.id in s.users
    && c.globalRoles == s.users[c.id].globalRoles
    && |c.teams| == 1 && c.teams[0].teamId == s.users[c.id].teamId
  }

  ghost predicate TokensFit(s: State) {
    forall c :: c in s.tokens ==> TokenFits(s.store, c)
  }

  lemma FitSurvives(s: Store, t: Store, c: Subject)
    requires TokenFits(s, c) && Evolves(s, t)
    ensures TokenFits(t, c)
  {
  }

  lemma StepTokensFit(s: State, e: Event)
    requires IdsBelow(s.store) && TokensFit(s) && Enabled(s, e)
    ensures TokensFit(Step(s, e))
  {
    if e.Call? {
      HandleEvolves(s.store, e.token, e.req);
      var t := Handle(s.store, e.token, e.req);
      forall c | c in s.tokens ensures TokenFits(t, c) {
        FitSurvives(s.store, t, c);
      }
    }
  }

  lemma {:induction false} RunTokensFit(r: seq<State>, es: seq<Event>, n: nat)
    requires IsRun(r, es) && n < |r| && Integrity(r[0].store) && TokensFit(r[0])
    ensures TokensFit(r[n])
    decreases n
  {
    if n > 0 {
      RunTokensFit(r, es, n - 1);
      ReachableStatesHaveIntegrity(r, es, n - 1);
      assert EventAt(es, n - 1);
      StepTokensFit(r[n - 1], es[n - 1]);
    }
  }

  /** Tables with one role, one team and its leader, who is SUPER: the least with which anyone can begin. */
  function Seed(roleName: string, teamName: string, email: string, hash: string, name: string, now: int): Store {
    Store(map[1 := RoleRow(roleName, false)],
          map[1 := TeamRow(teamName, 1, false)],
          map[1 := UserRow(email, hash, name, 1, LEADER, {SUPER}, false, now)],
          2, 2, 2)
  }

  /** From such tables and no tokens on, every state has integrity and fitting tokens, and no second SUPER user. */
  lemma RunsFromSeed(
    r: seq<State>, es: seq<Event>, n: nat,
    roleName: string, teamName: string, email: string, hash: string, name: string, now: int)
    requires IsRun(r, es) && n < |r| && r[0] == State(Seed(roleName, teamName, email, hash, name, now), {})
    ensures Integrity(r[n].store) && TokensFit(r[n])
    ensures forall id :: id in r[n].store.users && SUPER in r[n].store.users[id].globalRoles ==> id == 1
  {
    ReachableStatesHaveIntegrity(r, es, n);
    RunTokensFit(r, es, n);
    RunEvolves(r, es, 0, n);
  }

  // ----- What both tiers grant together

  lemma SingleTeam(actor: Subject, m: Membership, teamId: int)
    requires actor.teams == [m]
    ensures FindMembership(actor.teams, teamId) == if m.teamId == teamId then Some(m) else None
  {
  }

  /** The role is named like this, letter by letter, in small letters or capitals. */
  predicate HasRole(actor: Subject, name: string) {
    actor.roleName.Some? && SameLetters(actor.roleName.value, name)
  }

  lemma RoleGrants(actor: Subject, action: Act, resourceType: string)
    ensures Can(IDENTITY_ROLE_MATRIX, actor, action, resourceType) <==>
            resourceType == "user" && (HasRole(actor, "RED") || (HasRole(actor, "BLUE") && action == Read))
  {
    var roles := ResolveAccessRoles(actor);
    if actor.roleName.Some? {
      var name := actor.roleName.value;
      EqualButForCase(name, "RED");
      EqualButForCase(name, "BLUE");
      assert UpperCase("RED") == "RED" && UpperCase("BLUE") == "BLUE";
      if name != "" {
        assert roles == [UpperCase(name)] && roles[0] in roles;
        RowGrants(UpperCase(name), action, resourceType);
      }
    }
  }

  /** Three spellings of one role, and a name that differs in a letter. */
  lemma SpellingsOfRed(actor: Subject)
    ensures actor.roleName in {Some("Red"), Some("red"), Some("RED")} ==>
              Can(IDENTITY_ROLE_MATRIX, actor, Delete, "user")
    ensures actor.roleName == Some("Rod") ==> !Can(IDENTITY_ROLE_MATRIX, actor, Read, "user")
  {
    RoleGrants(actor, Delete, "user");
    RoleGrants(actor, Read, "user");
    assert !SameLetter("Rod"[1], "RED"[1]) && |"Rod"| != |"BLUE"|;
  }

  lemma RowGrants(role: string, action: Act, resourceType: string)
    ensures RoleAllows(IDENTITY_ROLE_MATRIX, role, action, resourceType) <==>
            resourceType == "user" && (role == "RED" || (role == "BLUE" && action == Read))
  {
    assert "RED" != "BLUE" by { assert |"RED"| != |"BLUE"|; }
    assert "user" != "*" by { assert |"user"| != |"*"|; }
    if role == "RED" {
      assert IDENTITY_ROLE_MATRIX[role] == map["user" := [Manage]];
    } else if role == "BLUE" {
      assert IDENTITY_ROLE_MATRIX[role] == map["user" := [Read]];
    }
  }

  /**
   Over every run, the token signed at event `n` gets through the guard exactly by the user's global roles or by the
   name of the role above the user's team, as the tables have them at that moment: RED for everything on users, BLUE
   for reading them, in any spelling. Nothing else opens tier 1, not the name of the team.
   */
  lemma FreshTokenPassesByRole(r: seq<State>, es: seq<Event>, n: nat, id: int, req: Req)
    requires IsRun(r, es) && n < |es| && Integrity(r[0].store) && es[n] == Mint(id)
    ensures ActiveUser(r[n].store, id)
    ensures var s := r[n].store;
            var u := s.users[id];
            && u.teamId in s.teams && s.teams[u.teamId].roleId in s.roles
            && var role := s.roles[s.teams[u.teamId].roleId].name;
               exists c :: r[n + 1].tokens == r[n].tokens + {c} && c.id == id && c.roleName == Some(role)
                           && (Passes(c, req) <==>
                                 || SUPER in u.globalRoles
                                 || (Requirement(req).1 == "user"
                                     && (SameLetters(role, "RED")
                                         || (SameLetters(role, "BLUE") && Requirement(req).0 == Read))))
  {
    assert EventAt(es, n);
    ReachableStatesHaveIntegrity(r, es, n);
    ActiveUsersHaveIdentities(r[n].store, id);
    var c := GetIdentity(r[n].store, id).value;
    assert r[n + 1].tokens == r[n].tokens + {c};
    RoleGrants(c, Requirement(req).0, Requirement(req).1);
  }

  /**
   The two tiers together, for a subject of one team without SUPER: creating and deleting users takes a
   leader of that team with the role RED, reading a colleague takes RED or BLUE, updating takes RED and
   being the team's leader or the user itself, and nothing of teams or roles is open at all.
   */
  lemma EffectivePermissions(s: Store, actor: Subject, m: Membership, id: int, dto: NewUser, now: int)
    requires SUPER !in actor.globalRoles && actor.teams == [m] && ActiveUser(s, id)
    ensures var res := Resource(id, s.users[id].teamId);
            && (Passes(actor, PostUser(dto, now)) && AuthorizeCreate(actor, dto.teamId) <==>
                  HasRole(actor, "RED") && m == Membership(dto.teamId, LEADER))
            && (Passes(actor, GetUserById(id)) && Authorize(actor, Read, res) <==>
                  (HasRole(actor, "RED") || HasRole(actor, "BLUE")) && m.teamId == s.users[id].teamId)
            && (Passes(actor, PatchUser(id, None, None)) && Authorize(actor, Update, res) <==>
                  HasRole(actor, "RED") && (m == Membership(s.users[id].teamId, LEADER) || actor.id == id))
            && (Passes(actor, PatchUser(id, None, Some(LEADER))) && AuthorizeChangeRole(actor, res) <==>
                  HasRole(actor, "RED") && m == Membership(s.users[id].teamId, LEADER) && actor.id != id)
            && (Passes(actor, RemoveUser(id)) && Authorize(actor, Delete, res) <==>
                  HasRole(actor, "RED") && m == Membership(s.users[id].teamId, LEADER) && actor.id != id)
  {
    RoleGrants(actor, Create, "user");
    RoleGrants(actor, Read, "user");
    RoleGrants(actor, Update, "user");
    RoleGrants(actor, Delete, "user");
    SingleTeam(actor, m, dto.teamId);
    SingleTeam(actor, m, s.users[id].teamId);
  }

  /** Lists are open to RED and BLUE. */
  lemma ListsAreForBoth(actor: Subject)
    requires SUPER !in actor.globalRoles
    ensures Passes(actor, ListUsers) <==> HasRole(actor, "RED") || HasRole(actor, "BLUE")
  {
    RoleGrants(actor, Read, "user");
  }

  /** Only SUPER gets through to teams and roles. */
  lemma StructureIsForSuper(actor: Subject, req: Req)
    requires Requirement(req).1 != "user"
    ensures Passes(actor, req) <==> SUPER in actor.globalRoles
  {
    RoleGrants(actor, Requirement(req).0, Requirement(req).1);
  }

  /** What SUPER asks of teams is done, each request by its own operation. */
  lemma TeamRequestsApply(s: Store, actor: Subject, id: int, name: string, roleId: int)
    requires SUPER in actor.globalRoles && Integrity(s)
    ensures ActiveRole(s, roleId) && (forall x :: ActiveTeam(s, x) ==> s.teams[x].name != name) ==>
              Handle(s, actor, PostTeam(name, roleId)).teams == s.teams[s.nextTeam := TeamRow(name, roleId, false)]
    ensures ActiveTeam(s, id) ==>
              (ActiveTeam(Handle(s, actor, RemoveTeam(id)), id) <==> exists u :: ActiveUser(s, u) && s.users[u].teamId == id)
  {
    CreateTeamSucceedsExactly(s, name, roleId);
    DeleteTeamSucceedsExactly(s, id);
  }

  lemma RenamesApply(s: Store, actor: Subject, id: int, name: Option<string>)
    requires SUPER in actor.globalRoles
    ensures Handle(s, actor, PatchTeam(id, name)) == UpdateTeam(s, id, name).0
    ensures Handle(s, actor, PatchRole(id, name)) == UpdateRole(s, id, name).0
  {
  }

  /** What SUPER asks of roles likewise. */
  lemma RoleRequestsApply(s: Store, actor: Subject, id: int, name: string)
    requires SUPER in actor.globalRoles && Integrity(s)
    ensures (forall x :: ActiveRole(s, x) ==> s.roles[x].name != name) ==>
              Handle(s, actor, PostRole(name)).roles == s.roles[s.nextRole := RoleRow(name, false)]
    ensures ActiveRole(s, id) ==>
              (ActiveRole(Handle(s, actor, RemoveRole(id)), id) <==> exists x :: ActiveTeam(s, x) && s.teams[x].roleId == id)
  {
    CreateRoleSucceedsExactly(s, name);
    DeleteRoleSucceedsExactly(s, id);
  }

  // ----- Confinement to one team

  /** From `s` to `t` nothing changed outside team `team`, and the new users joined that team. */
  ghost predicate ConfinedTo(s: Store, t: Store, team: int) {
    && t.teams == s.teams && t.roles == s.roles
    && (forall id :: id in s.users ==> id in t.users && (s.users[id].teamId != team ==> t.users[id] == s.users[id]))
    && (forall id :: id in t.users && id !in s.users ==> t.users[id].teamId == team)
    && (forall id :: id in s.users ==> t.users[id].teamId == s.users[id].teamId)
  }

  lemma CallIsConfined(s: Store, c: Subject, req: Req)
    requires IdsBelow(s) && TokenFits(s, c) && SUPER !in c.globalRoles
    ensures ConfinedTo(s, Handle(s, c, req), s.users[c.id].teamId)
  {
    if req.PostUser? {
      SingleTeam(c, c.teams[0], req.dto.teamId);
    } else if req.PatchUser? || req.RemoveUser? {
      ChangeIsConfined(s, c, req);
    } else {
      StayingIsConfined(s, c, req);
    }
  }

  lemma ChangeIsConfined(s: Store, c: Subject, req: Req)
    requires TokenFits(s, c) && SUPER !in c.globalRoles && (req.PatchUser? || req.RemoveUser?)
    ensures ConfinedTo(s, Handle(s, c, req), s.users[c.id].teamId)
  {
    if req.id in s.users { SingleTeam(c, c.teams[0], s.users[req.id].teamId); }
  }

  lemma StayingIsConfined(s: Store, c: Subject, req: Req)
    requires c.id in s.users && SUPER !in c.globalRoles && !req.PostUser? && !req.PatchUser? && !req.RemoveUser?
    ensures Handle(s, c, req) == s
  {
    if Requirement(req).1 != "user" { StructureIsForSuper(c, req); }
  }

  /** All requests between `i` and `j` are made by the coalition. */
  ghost predicate OnlyActs(es: seq<Event>, i: nat, j: nat, coalition: set<int>) {
    forall k {:trigger EventAt(es, k)} :: EventAt(es, k) && i <= k < j && es[k].Call? ==> es[k].token.id in coalition
  }

  /** A coalition of users of one team, none of them SUPER. */
  ghost predicate TeamCoalition(s: Store, coalition: set<int>, team: int) {
    forall id :: id in coalition && id in s.users ==> s.users[id].teamId == team && SUPER !in s.users[id].globalRoles
  }

  /**
   Coalition confinement. While only users of team `team` without SUPER make requests, with tokens as old
   as they like, no row of another team, no team and no role changes, and every new user is in `team`.
   */
  lemma {:induction false} CoalitionsAreConfined(
    r: seq<State>, es: seq<Event>, i: nat, j: nat, coalition: set<int>, team: int)
    requires IsRun(r, es) && i <= j < |r| && Integrity(r[0].store) && TokensFit(r[0])
    requires TeamCoalition(r[j].store, coalition, team) && OnlyActs(es, i, j, coalition)
    ensures ConfinedTo(r[i].store, r[j].store, team)
    decreases j
  {
    if i < j {
      var s, t := r[j - 1].store, r[j].store;
      RunEvolves(r, es, j - 1, j);
      assert EventAt(es, j - 1);
      CoalitionsAreConfined(r, es, i, j - 1, coalition, team);
      if es[j - 1].Call? {
        ReachableStatesHaveIntegrity(r, es, j - 1);
        RunTokensFit(r, es, j - 1);
        CallIsConfined(s, es[j - 1].token, es[j - 1].req);
        ConfinedTransitively(r[i].store, s, t, team);
      }
    }
  }

  lemma ConfinedTransitively(a: Store, b: Store, c: Store, team: int)
    requires ConfinedTo(a, b, team) && ConfinedTo(b, c, team)
    ensures ConfinedTo(a, c, team)
  {
  }

  // ----- Members without any leader

  predicate MemberToken(c: Subject) {
    SUPER !in c.globalRoles && |c.teams| == 1 && c.teams[0].role == MEMBER
  }

  /** Between the two states at most the names of users in `who` changed. */
  ghost predicate OnlyNamesOf(s: Store, t: Store, who: set<int>) {
    && t.teams == s.teams && t.roles == s.roles
    && t.users.Keys == s.users.Keys
    && forall id :: id in s.users ==>
         t.users[id] == s.users[id].(name := t.users[id].name) && (id !in who ==> t.users[id] == s.users[id])
  }

  lemma MemberCallChangesOwnName(s: Store, c: Subject, req: Req)
    requires MemberToken(c)
    ensures OnlyNamesOf(s, Handle(s, c, req), {c.id})
  {
    if req.PostUser? {
      SingleTeam(c, c.teams[0], req.dto.teamId);
    } else if req.PatchUser? || req.RemoveUser? {
      MemberChangesOwnName(s, c, req);
    } else if Requirement(req).1 != "user" {
      StructureIsForSuper(c, req);
    }
  }

  lemma MemberChangesOwnName(s: Store, c: Subject, req: Req)
    requires MemberToken(c) && (req.PatchUser? || req.RemoveUser?)
    ensures OnlyNamesOf(s, Handle(s, c, req), {c.id})
  {
    if req.id in s.users { SingleTeam(c, c.teams[0], s.users[req.id].teamId); }
  }

  /** The coalition's users are plain members, and so say all the tokens they hold. */
  ghost predicate PlainMembers(s: State, coalition: set<int>) {
    && (forall id :: id in coalition && id in s.store.users ==>
          s.store.users[id].position == MEMBER && SUPER !in s.store.users[id].globalRoles)
    && (forall c :: c in s.tokens && c.id in coalition ==> MemberToken(c))
  }

  /**
   While only plain members make requests, and their tokens, those signed on the way included, say MEMBER
   too, the set of users and all their positions, teams, emails and deletion marks stay as they are; at most
   the acting users' own names change.
   */
  lemma {:induction false} MembersChangeOnlyTheirNames(r: seq<State>, es: seq<Event>, i: nat, j: nat, coalition: set<int>)
    requires IsRun(r, es) && i <= j < |r| && PlainMembers(r[i], coalition) && OnlyActs(es, i, j, coalition)
    ensures OnlyNamesOf(r[i].store, r[j].store, coalition) && PlainMembers(r[j], coalition)
    decreases j
  {
    if i < j {
      MembersChangeOnlyTheirNames(r, es, i, j - 1, coalition);
      assert EventAt(es, j - 1);
      var s, t := r[j - 1].store, r[j].store;
      if es[j - 1].Call? {
        MemberCallChangesOwnName(s, es[j - 1].token, es[j - 1].req);
      }
    }
  }

  // ----- The condition on tokens is needed

  /**
   A leader who was demoted keeps the powers of a token signed before: whoever is SUPER demotes the leader
   of a RED team, and the old token still deletes a team-mate.
   */
  lemma DemotedLeaderStillDeletes(s: State, admin: Subject, leader: int, target: int)
    returns (r: seq<State>, es: seq<Event>)
    requires Integrity(s.store) && admin in s.tokens && SUPER in admin.globalRoles
    requires ActiveUser(s.store, leader) && ActiveUser(s.store, target) && leader != target
    requires var u := s.store.users[leader];
             && u.position == LEADER && u.teamId == s.store.users[target].teamId && u.globalRoles == {}
             && HasRole(GetIdentity(s.store, leader).value, "RED")
    ensures IsRun(r, es) && |r| == 4 && r[0] == s && OnlyActs(es, 2, 3, {leader})
    ensures leader in r[2].store.users && r[2].store.users[leader].position == MEMBER
    ensures ActiveUser(r[2].store, target) && !ActiveUser(r[3].store, target)
  {
    ActiveUsersHaveIdentities(s.store, leader);
    var c := GetIdentity(s.store, leader).value;
    var signed := Step(s, Mint(leader));
    var demote, remove := Call(admin, PatchUser(leader, None, Some(MEMBER))), Call(c, RemoveUser(target));
    var demoted := Step(signed, demote);
    UpdateUserSucceedsExactly(s.store, admin, leader, None, Some(MEMBER));
    var left := Step(demoted, remove);
    RoleGrants(c, Delete, "user");
    SingleTeam(c, c.teams[0], s.store.users[target].teamId);
    DeleteUserSucceedsExactly(demoted.store, c, target);
    r, es := [s, signed, demoted, left], [Mint(leader), demote, remove];
    assert forall i :: EventAt(es, i) ==> i in {0, 1, 2};
  }

  lemma {:induction false} UnusedEmail(ids: set<int>, users: map<int, UserRow>) returns (email: string)
    ensures forall id :: id in ids && id in users ==> |users[id].email| < |email|
  {
    if |ids| == 0 {
      email := "";
    } else {
      assert ids != {};
      var id := SomeElement(ids);
      email := UnusedEmail(ids - {id}, users);
      if id in users { email := email + users[id].email + "@"; }
    }
  }

  lemma OthersChangeNothing(s: Store, c: Subject, req: Req)
    requires Integrity(s) && TokenFits(s, c) && SUPER !in c.globalRoles
    requires !HasRole(c, "RED") || !ActiveTeam(s, c.teams[0].teamId)
    ensures OnlyNamesOf(s, Handle(s, c, req), {c.id})
  {
    RoleGrants(c, Requirement(req).0, Requirement(req).1);
    if req.PostUser? {
      SingleTeam(c, c.teams[0], req.dto.teamId);
    } else if (req.PatchUser? || req.RemoveUser?) && ActiveUser(s, req.id) {
      SingleTeam(c, c.teams[0], s.users[req.id].teamId);
    }
  }

  /**
   What makes a token harmless, exactly: no request with it changes anything but its user's own name, if and
   only if it does not say LEADER, or not RED, or its team has been deleted. The user's present position does
   not matter.
   */
  lemma TokenIsHarmlessExactly(s: Store, c: Subject)
    requires Integrity(s) && TokenFits(s, c) && SUPER !in c.globalRoles
    ensures (forall req :: OnlyNamesOf(s, Handle(s, c, req), {c.id}))
            <==> !(HasRole(c, "RED") && c.teams[0].role == LEADER && ActiveTeam(s, c.teams[0].teamId))
  {
    var team := c.teams[0].teamId;
    if HasRole(c, "RED") && c.teams[0].role == LEADER && ActiveTeam(s, team) {
      var email := UnusedEmail(s.users.Keys, s.users);
      var dto := NewUser(email, "", "", team, MEMBER);
      RoleGrants(c, Create, "user");
      SingleTeam(c, c.teams[0], team);
      CreateUserSucceedsExactly(s, c, dto, 0);
      assert !OnlyNamesOf(s, Handle(s, c, PostUser(dto, 0)), {c.id});
    } else {
      forall req ensures OnlyNamesOf(s, Handle(s, c, req), {c.id}) {
        if c.teams[0].role == MEMBER {
          MemberCallChangesOwnName(s, c, req);
        } else {
          OthersChangeNothing(s, c, req);
        }
      }
    }
  }

  // ----- Reading

  /** The stores have the same rows in the given teams, deleted ones included. */
  ghost predicate AgreeOn(s: Store, t: Store, teams: set<int>) {
    forall id ::
      (id in s.users && s.users[id].teamId in teams) || (id in t.users && t.users[id].teamId in teams) ==>
        id in s.users && id in t.users && s.users[id] == t.users[id]
  }

  lemma SameRowsFound(s: Store, t: Store, keyword: Option<string -> bool>, teams: set<int>)
    requires AgreeOn(s, t, teams)
    ensures SearchRows(s, keyword, Some(teams)) == SearchRows(t, keyword, Some(teams))
  {
    var a, b := SearchRows(s, keyword, Some(teams)), SearchRows(t, keyword, Some(teams));
    forall id ensures id in a <==> id in b {
      assert id in a <==> ActiveUser(s, id) && (keyword.Some? ==> keyword.value(s.users[id].name)) && s.users[id].teamId in teams;
      assert id in b <==> ActiveUser(t, id) && (keyword.Some? ==> keyword.value(t.users[id].name)) && t.users[id].teamId in teams;
    }
    assert forall id :: id in a ==> a[id] == s.users[id] && b[id] == s.users[id];
    assert a == b;
  }

  /**
   Read noninterference. What an actor without SUPER is shown depends on the rows of its own teams only: a
   single user, found or reported missing, and any list with its count, under any keyword, order and page.
   */
  lemma ReadsShowOnlyOwnTeams(s: Store, t: Store, actor: Subject, id: int, q: Query)
    requires SUPER !in actor.globalRoles && AgreeOn(s, t, TeamIds(actor.teams))
    ensures GetUser(s, actor, id) == GetUser(t, actor, id)
    ensures GetUserList(s, actor, q) == GetUserList(t, actor, q)
  {
    if id in s.users { MembershipMeansTeam(actor.teams, s.users[id].teamId); }
    if id in t.users { MembershipMeansTeam(actor.teams, t.users[id].teamId); }
    SameRowsFound(s, t, q.keyword, TeamIds(actor.teams));
  }

  /**
   Both halves together, over runs: whatever a coalition of another team does, it never shows in what an
   actor without SUPER reads.
   */
  lemma OtherTeamsLeaveReadsAlone(
    r: seq<State>, es: seq<Event>, i: nat, j: nat, coalition: set<int>, team: int, reader: Subject, id: int, q: Query)
    requires IsRun(r, es) && i <= j < |r| && Integrity(r[0].store) && TokensFit(r[0])
    requires TeamCoalition(r[j].store, coalition, team) && OnlyActs(es, i, j, coalition)
    requires SUPER !in reader.globalRoles && team !in TeamIds(reader.teams)
    ensures GetUser(r[j].store, reader, id) == GetUser(r[i].store, reader, id)
    ensures GetUserList(r[j].store, reader, q) == GetUserList(r[i].store, reader, q)
  {
    CoalitionsAreConfined(r, es, i, j, coalition, team);
    ReadsShowOnlyOwnTeams(r[i].store, r[j].store, reader, id, q);
  }

  /** The answer is a user of the actor's own teams or a missing user; a denial is never told apart. */
  lemma GetUserShowsExactlyColleagues(s: Store, actor: Subject, id: int)
    ensures GetUser(s, actor, id) ==
            if ActiveUser(s, id) && (SUPER in actor.globalRoles || s.users[id].teamId in TeamIds(actor.teams))
            then Success(UserData(id, s.users[id].email, s.users[id].name, s.users[id].teamId, s.users[id].position))
            else Failure(UserNotFound)
  {
    if id in s.users { MembershipMeansTeam(actor.teams, s.users[id].teamId); }
  }
}
