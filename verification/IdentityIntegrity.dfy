/** Referential integrity and uniqueness in every reachable state, and what no request ever changes. */
module IdentityIntegrity {
  import opened Common
  import opened AccessControl
  import opened Identity
  import opened Listing

  ghost predicate UsersHaveTeams(s: Store) {
    forall id :: ActiveUser(s, id) ==> ActiveTeam(s, s.users[id].teamId)
  }

  ghost predicate TeamsHaveRoles(s: Store) {
    forall id :: ActiveTeam(s, id) ==> ActiveRole(s, s.teams[id].roleId)
  }

  ghost predicate EmailsUnique(s: Store) {
    forall a, b :: ActiveUser(s, a) && ActiveUser(s, b) && s.users[a].email == s.users[b].email ==> a == b
  }

  ghost predicate TeamNamesUnique(s: Store) {
    forall a, b :: ActiveTeam(s, a) && ActiveTeam(s, b) && s.teams[a].name == s.teams[b].name ==> a == b
  }

  ghost predicate RoleNamesUnique(s: Store) {
    forall a, b :: ActiveRole(s, a) && ActiveRole(s, b) && s.roles[a].name == s.roles[b].name ==> a == b
  }

  ghost predicate IdsBelow(s: Store) {
    && (forall id :: id in s.users ==> id < s.nextUser)
    && (forall id :: id in s.teams ==> id < s.nextTeam)
    && (forall id :: id in s.roles ==> id < s.nextRole)
  }

  ghost predicate Integrity(s: Store) {
    && UsersHaveTeams(s) && TeamsHaveRoles(s)
    && EmailsUnique(s) && TeamNamesUnique(s) && RoleNamesUnique(s)
    && IdsBelow(s)
  }

  lemma UserOpsKeepIntegrity(s: Store, actor: Subject, req: Req)
    requires Integrity(s) && (req.PostUser? || req.PatchUser? || req.RemoveUser?)
    ensures Integrity(Handle(s, actor, req))
  {
    var t := Handle(s, actor, req);
    assert t.teams == s.teams && t.roles == s.roles;
    assert forall id :: ActiveTeam(t, id) == ActiveTeam(s, id);
    assert forall id :: ActiveRole(t, id) == ActiveRole(s, id);
    forall id | ActiveUser(t, id) ensures ActiveTeam(t, t.users[id].teamId) {
      if id in s.users { assert ActiveUser(s, id); }
    }
    forall a, b | ActiveUser(t, a) && ActiveUser(t, b) && t.users[a].email == t.users[b].email ensures a == b {
      if a in s.users { assert ActiveUser(s, a); }
      if b in s.users { assert ActiveUser(s, b); }
    }
  }

  lemma TeamOpsKeepIntegrity(s: Store, actor: Subject, req: Req)
    requires Integrity(s) && (req.PostTeam? || req.PatchTeam? || req.RemoveTeam?)
    ensures Integrity(Handle(s, actor, req))
  {
    var t := Handle(s, actor, req);
    assert t.users == s.users && t.roles == s.roles;
    assert forall id :: ActiveRole(t, id) == ActiveRole(s, id);
    forall id | ActiveUser(t, id) ensures ActiveTeam(t, t.users[id].teamId) {
      assert ActiveUser(s, id) && ActiveTeam(s, s.users[id].teamId);
      if req.RemoveTeam? && CountByTeam(s, req.id) == 0 { NoMembers(s, req.id); }
    }
    forall id | ActiveTeam(t, id) ensures ActiveRole(t, t.teams[id].roleId) {
      if id in s.teams { assert ActiveTeam(s, id); }
    }
    forall a, b | ActiveTeam(t, a) && ActiveTeam(t, b) && t.teams[a].name == t.teams[b].name ensures a == b {
      if a in s.teams { assert ActiveTeam(s, a); }
      if b in s.teams { assert ActiveTeam(s, b); }
    }
  }

  lemma RoleOpsKeepIntegrity(s: Store, actor: Subject, req: Req)
    requires Integrity(s) && (req.PostRole? || req.PatchRole? || req.RemoveRole?)
    ensures Integrity(Handle(s, actor, req))
  {
    var t := Handle(s, actor, req);
    assert t.users == s.users && t.teams == s.teams;
    assert forall id :: ActiveTeam(t, id) == ActiveTeam(s, id);
    forall id | ActiveTeam(t, id) ensures ActiveRole(t, t.teams[id].roleId) {
      assert ActiveTeam(s, id) && ActiveRole(s, s.teams[id].roleId);
      if req.RemoveRole? && CountByRole(s, req.id) == 0 { NoTeams(s, req.id); }
    }
    forall a, b | ActiveRole(t, a) && ActiveRole(t, b) && t.roles[a].name == t.roles[b].name ensures a == b {
      if a in s.roles { assert ActiveRole(s, a); }
      if b in s.roles { assert ActiveRole(s, b); }
    }
    forall id | ActiveUser(t, id) ensures ActiveTeam(t, t.users[id].teamId) {
      assert ActiveUser(s, id);
    }
  }

  /** Every request keeps integrity, whoever makes it and with whatever token. */
  lemma HandleKeepsIntegrity(s: Store, actor: Subject, req: Req)
    requires Integrity(s)
    ensures Integrity(Handle(s, actor, req))
  {
    if req.PostUser? || req.PatchUser? || req.RemoveUser? {
      UserOpsKeepIntegrity(s, actor, req);
    } else if req.PostTeam? || req.PatchTeam? || req.RemoveTeam? {
      TeamOpsKeepIntegrity(s, actor, req);
    } else if req.PostRole? || req.PatchRole? || req.RemoveRole? {
      RoleOpsKeepIntegrity(s, actor, req);
    }
  }

  /**
   From tables with integrity on, in every reachable state each active user's team is active, each active
   team's role is active, and names and emails are unique among the active rows.
   */
  lemma {:induction false} ReachableStatesHaveIntegrity(r: seq<State>, es: seq<Event>, n: nat)
    requires IsRun(r, es) && n < |r| && Integrity(r[0].store)
    ensures Integrity(r[n].store)
    decreases n
  {
    if n > 0 {
      ReachableStatesHaveIntegrity(r, es, n - 1);
      assert EventAt(es, n - 1);
      if es[n - 1].Call? {
        HandleKeepsIntegrity(r[n - 1].store, es[n - 1].token, es[n - 1].req);
      }
    }
  }

  /** A value that only deleted rows carry is free again: creation succeeds exactly under these conditions. */
  lemma CreateUserSucceedsExactly(s: Store, actor: Subject, dto: NewUser, now: int)
    requires Integrity(s)
    ensures var (t, r) := CreateUser(s, actor, dto, now);
            && (r.Success? <==>
                  && (SUPER in actor.globalRoles || IsTeamOwner(actor, dto.teamId))
                  && ActiveTeam(s, dto.teamId)
                  && forall id :: ActiveUser(s, id) ==> s.users[id].email != dto.email)
            && (r.Failure? ==>
                  && t == s
                  && r.error == if !(SUPER in actor.globalRoles || IsTeamOwner(actor, dto.teamId)) then Forbidden
                                else if exists id :: ActiveUser(s, id) && s.users[id].email == dto.email then EmailDuplicated
                                else TeamNotFound)
            && (r.Success? ==>
                  && r.value == UserData(r.value.id, dto.email, dto.name, dto.teamId, dto.position)
                  && r.value.id !in s.users && t.teams == s.teams && t.roles == s.roles
                  && t.users == s.users[r.value.id :=
                       UserRow(dto.email, dto.passwordHash, dto.name, dto.teamId, dto.position, {}, false, now)])
  {
    if forall id :: ActiveUser(s, id) ==> s.users[id].email != dto.email {
      assert forall id :: id in s.users && !s.users[id].deleted ==> ActiveUser(s, id);
    }
  }

  /**
   An update takes effect exactly when the user is active and the actor may edit it and, if a position is
   asked for, may change positions; otherwise nothing changes, not even the name.
   */
  lemma UpdateUserSucceedsExactly(s: Store, actor: Subject, id: int, name: Option<string>, position: Option<Position>)
    requires Integrity(s)
    ensures var (t, r) := UpdateUser(s, actor, id, name, position);
            && (r.Success? <==>
                  && ActiveUser(s, id)
                  && (SUPER in actor.globalRoles || IsTeamOwner(actor, s.users[id].teamId) || actor.id == id)
                  && (position.Some? ==> SUPER in actor.globalRoles || (IsTeamOwner(actor, s.users[id].teamId) && actor.id != id)))
            && (r.Failure? ==>
                  && t == s
                  && r.error == if !ActiveUser(s, id) then UserNotFound
                                else if SUPER in actor.globalRoles || IsTeamOwner(actor, s.users[id].teamId) || actor.id == id
                                then RoleChangeForbidden else Forbidden)
            && (r.Success? ==>
                  var u := s.users[id];
                  && id in t.users && t == s.(users := s.users[id := t.users[id]])
                  && t.users[id] == u.(name := if name.Some? then name.value else u.name,
                                       position := if position.Some? then position.value else u.position)
                  && r.value == UserData(id, u.email, t.users[id].name, u.teamId, t.users[id].position))
  {
    if ActiveUser(s, id) {
      forall x | x in s.users && x != id && !s.users[x].deleted ensures s.users[x].email != s.users[id].email {
        assert ActiveUser(s, x);
      }
    }
  }

  /** A deletion hides the user, and only the user, exactly when the actor leads its team and is somebody else. */
  lemma DeleteUserSucceedsExactly(s: Store, actor: Subject, id: int)
    ensures var (t, r) := DeleteUser(s, actor, id);
            && (r.Success? <==>
                  ActiveUser(s, id)
                  && (SUPER in actor.globalRoles || (IsTeamOwner(actor, s.users[id].teamId) && actor.id != id)))
            && (r.Failure? ==> t == s && r.error == if ActiveUser(s, id) then Forbidden else UserNotFound)
            && (r.Success? ==>
                  && t == s.(users := t.users) && t.users.Keys == s.users.Keys && !ActiveUser(t, id)
                  && forall x :: x in s.users && x != id ==> t.users[x] == s.users[x])
  {
  }

  /** A team can be created exactly under an active role and with a name that no active team has. */
  lemma CreateTeamSucceedsExactly(s: Store, name: string, roleId: int)
    requires Integrity(s)
    ensures var (t, r) := CreateTeam(s, name, roleId);
            && (r.Success? <==> ActiveRole(s, roleId) && forall id :: ActiveTeam(s, id) ==> s.teams[id].name != name)
            && (r.Failure? ==> t == s && r.error == if ActiveRole(s, roleId) then TeamNameDuplicated else RoleNotFound)
            && (r.Success? ==>
                  && r.value == TeamData(r.value.id, name, roleId) && r.value.id !in s.teams
                  && t.teams == s.teams[r.value.id := TeamRow(name, roleId, false)]
                  && t.users == s.users && t.roles == s.roles)
  {
    forall id | id in s.teams && !s.teams[id].deleted && s.teams[id].name == name ensures ActiveTeam(s, id) {}
  }

  /** A role can be created exactly with a name that no active role has. */
  lemma CreateRoleSucceedsExactly(s: Store, name: string)
    requires Integrity(s)
    ensures var (t, r) := CreateRole(s, name);
            && (r.Success? <==> forall id :: ActiveRole(s, id) ==> s.roles[id].name != name)
            && (r.Failure? ==> t == s && r.error == RoleNameDuplicated)
            && (r.Success? ==>
                  && r.value == RoleData(r.value.id, name) && r.value.id !in s.roles
                  && t.roles == s.roles[r.value.id := RoleRow(name, false)]
                  && t.users == s.users && t.teams == s.teams)
  {
    forall id | id in s.roles && !s.roles[id].deleted && s.roles[id].name == name ensures ActiveRole(s, id) {}
  }

  /** A team can be deleted exactly when no active user is left in it. */
  lemma DeleteTeamSucceedsExactly(s: Store, id: int)
    ensures var (t, r) := DeleteTeam(s, id);
            && (r.Success? <==> ActiveTeam(s, id) && forall u :: ActiveUser(s, u) ==> s.users[u].teamId != id)
            && (r.Failure? ==> t == s && r.error == if ActiveTeam(s, id) then TeamHasMembers else TeamNotFound)
            && (r.Success? ==> !ActiveTeam(t, id) && t.users == s.users && t.roles == s.roles)
  {
    NoMembers(s, id);
  }

  /** A role can be deleted exactly when no active team is left under it. */
  lemma DeleteRoleSucceedsExactly(s: Store, id: int)
    ensures var (t, r) := DeleteRole(s, id);
            && (r.Success? <==> ActiveRole(s, id) && forall x :: ActiveTeam(s, x) ==> s.teams[x].roleId != id)
            && (r.Failure? ==> t == s && r.error == if ActiveRole(s, id) then RoleHasTeams else RoleNotFound)
            && (r.Success? ==> !ActiveRole(t, id) && t.users == s.users && t.teams == s.teams)
  {
    NoTeams(s, id);
  }

  /**
   A team is renamed exactly when no other active team has the name. The service does not look first: the
   index rejects the write, and the caller sees its error instead of the one that creation reports.
   */
  lemma RenameTeamSucceedsExactly(s: Store, id: int, name: string)
    requires ActiveTeam(s, id)
    ensures var (t, r) := UpdateTeam(s, id, Some(name));
            if forall x :: ActiveTeam(s, x) && x != id ==> s.teams[x].name != name
            then t == s.(teams := s.teams[id := s.teams[id].(name := name)])
                 && r == Success(TeamData(id, name, s.teams[id].roleId))
            else t == s && r == Failure(UniqueViolation)
    ensures ActiveRole(s, s.teams[id].roleId) && s.teams[id].name == name ==>
              CreateTeam(s, name, s.teams[id].roleId) == (s, Failure(TeamNameDuplicated))
  {
    if x :| ActiveTeam(s, x) && x != id && s.teams[x].name == name {
      assert TeamNameTaken(s, name, Some(id));
    }
    if TeamNameTaken(s, name, Some(id)) {
      var x :| x in s.teams && Some(x) != Some(id) && !s.teams[x].deleted && s.teams[x].name == name;
      assert ActiveTeam(s, x);
    }
  }

  /** Without a name nothing changes, and what is not active cannot be updated. */
  lemma UnnamedUpdates(s: Store, id: int, name: Option<string>)
    requires Integrity(s)
    ensures ActiveTeam(s, id) ==>
              UpdateTeam(s, id, None) == (s, Success(TeamData(id, s.teams[id].name, s.teams[id].roleId)))
    ensures ActiveRole(s, id) ==> UpdateRole(s, id, None) == (s, Success(RoleData(id, s.roles[id].name)))
    ensures !ActiveTeam(s, id) ==> UpdateTeam(s, id, name) == (s, Failure(TeamNotFound))
    ensures !ActiveRole(s, id) ==> UpdateRole(s, id, name) == (s, Failure(RoleNotFound))
  {
    if ActiveTeam(s, id) {
      forall x | x in s.teams && x != id && !s.teams[x].deleted ensures s.teams[x].name != s.teams[id].name {
        assert ActiveTeam(s, x);
      }
      assert s.teams[id := s.teams[id]] == s.teams;
    }
    if ActiveRole(s, id) {
      forall x | x in s.roles && x != id && !s.roles[x].deleted ensures s.roles[x].name != s.roles[id].name {
        assert ActiveRole(s, x);
      }
      assert s.roles[id := s.roles[id]] == s.roles;
    }
  }

  /** Roles are renamed in the same way. */
  lemma RenameRoleSucceedsExactly(s: Store, id: int, name: string)
    requires ActiveRole(s, id)
    ensures var (t, r) := UpdateRole(s, id, Some(name));
            if forall x :: ActiveRole(s, x) && x != id ==> s.roles[x].name != name
            then t == s.(roles := s.roles[id := RoleRow(name, false)]) && r == Success(RoleData(id, name))
            else t == s && r == Failure(UniqueViolation)
    ensures s.roles[id].name == name ==> CreateRole(s, name) == (s, Failure(RoleNameDuplicated))
  {
    if x :| ActiveRole(s, x) && x != id && s.roles[x].name == name {
      assert RoleNameTaken(s, name, Some(id));
    }
    if RoleNameTaken(s, name, Some(id)) {
      var x :| x in s.roles && Some(x) != Some(id) && !s.roles[x].deleted && s.roles[x].name == name;
      assert ActiveRole(s, x);
    }
  }

  /** After a deletion a team's name can be given again, under any active role. */
  lemma DeletedTeamNameIsFree(s: Store, id: int, roleId: int)
    requires Integrity(s) && DeleteTeam(s, id).1.Success? && ActiveRole(s, roleId)
    ensures CreateTeam(DeleteTeam(s, id).0, s.teams[id].name, roleId).1 ==
            Success(TeamData(s.nextTeam, s.teams[id].name, roleId))
  {
    var t := DeleteTeam(s, id).0;
    assert ActiveTeam(s, id);
    forall x | x in t.teams && !t.teams[x].deleted ensures t.teams[x].name != s.teams[id].name {
      assert ActiveTeam(s, x);
    }
  }

  /** After a deletion a role's name can be given again. */
  lemma DeletedRoleNameIsFree(s: Store, id: int)
    requires Integrity(s) && DeleteRole(s, id).1.Success?
    ensures CreateRole(DeleteRole(s, id).0, s.roles[id].name).1 == Success(RoleData(s.nextRole, s.roles[id].name))
  {
    var t := DeleteRole(s, id).0;
    assert ActiveRole(s, id);
    forall x | x in t.roles && !t.roles[x].deleted ensures t.roles[x].name != s.roles[id].name {
      assert ActiveRole(s, x);
    }
  }

  /** After a deletion the email can be registered again, by anyone who may add members to an active team. */
  lemma DeletedEmailIsFree(s: Store, actor: Subject, id: int, creator: Subject, dto: NewUser, now: int)
    requires Integrity(s) && DeleteUser(s, actor, id).1.Success? && dto.email == s.users[id].email
    requires (SUPER in creator.globalRoles || IsTeamOwner(creator, dto.teamId)) && ActiveTeam(s, dto.teamId)
    ensures CreateUser(DeleteUser(s, actor, id).0, creator, dto, now).1.Success?
  {
    var t := DeleteUser(s, actor, id).0;
    assert ActiveUser(s, id);
    forall x | x in t.users && !t.users[x].deleted ensures t.users[x].email != dto.email {
      assert ActiveUser(s, x);
    }
  }

  // ----- Logging in

  /** Some active user has the email, and that user's own hash verifies the password. */
  predicate Knows(s: Store, email: string, password: string, verify: (string, string) -> bool, id: int) {
    ActiveUser(s, id) && s.users[id].email == email && verify(s.users[id].password, password)
  }

  /** Whom a login with these credentials identifies. */
  ghost function Credentials(s: Store, email: string, password: string, verify: (string, string) -> bool): Option<Subject> {
    if id :| Knows(s, email, password, verify, id) then GetIdentity(s, id) else None
  }

  lemma CredentialsIdentify(s: Store, email: string, password: string, verify: (string, string) -> bool, id: int)
    requires Integrity(s) && Knows(s, email, password, verify, id)
    ensures Credentials(s, email, password, verify) == GetIdentity(s, id) && GetIdentity(s, id).Some?
  {
    ActiveUsersHaveIdentities(s, id);
  }

  /**
   A user who was created logs in with exactly the passwords that the given hash verifies, under its email, and
   nobody else's login changes.
   */
  lemma NewUserLogsIn(
    s: Store, actor: Subject, dto: NewUser, now: int, email: string, password: string, verify: (string, string) -> bool)
    requires Integrity(s) && CreateUser(s, actor, dto, now).1.Success?
    ensures var (t, r) := CreateUser(s, actor, dto, now);
            && (verify(dto.passwordHash, password) ==>
                  && Credentials(t, dto.email, password, verify).Some?
                  && Credentials(t, dto.email, password, verify).value.id == r.value.id)
            && (!verify(dto.passwordHash, password) ==> Credentials(t, dto.email, password, verify).None?)
            && (email != dto.email ==> Credentials(t, email, password, verify) == Credentials(s, email, password, verify))
  {
    var (t, r) := CreateUser(s, actor, dto, now);
    CreateUserSucceedsExactly(s, actor, dto, now);
    HandleKeepsIntegrity(s, actor, PostUser(dto, now));
    CreationKeepsIntegrity(s, actor, dto, now);
    if verify(dto.passwordHash, password) {
      assert Knows(t, dto.email, password, verify, r.value.id);
      CredentialsIdentify(t, dto.email, password, verify, r.value.id);
    }
    forall id | Knows(t, dto.email, password, verify, id) ensures id == r.value.id {
      assert ActiveUser(t, id) && ActiveUser(t, r.value.id);
    }
    if email != dto.email {
      forall id ensures Knows(t, email, password, verify, id) <==> Knows(s, email, password, verify, id) {}
      if id :| Knows(s, email, password, verify, id) {
        CredentialsIdentify(s, email, password, verify, id);
        CredentialsIdentify(t, email, password, verify, id);
      }
    }
  }

  lemma CreationKeepsIntegrity(s: Store, actor: Subject, dto: NewUser, now: int)
    requires Integrity(s)
    ensures Integrity(CreateUser(s, actor, dto, now).0)
  {
  }

  /** A deleted user cannot log in. */
  lemma DeletedUserIsUnknown(s: Store, actor: Subject, id: int, password: string, verify: (string, string) -> bool)
    requires Integrity(s) && DeleteUser(s, actor, id).1.Success?
    ensures Credentials(DeleteUser(s, actor, id).0, s.users[id].email, password, verify).None?
  {
    var t := DeleteUser(s, actor, id).0;
    DeleteUserSucceedsExactly(s, actor, id);
    forall x ensures !Knows(t, s.users[id].email, password, verify, x) {
      if ActiveUser(t, x) {
        assert ActiveUser(s, x) && ActiveUser(s, id);
      }
    }
  }

  // ----- What no request changes

  /** Rows stay, and a user's team, email and global roles are those it was created with. */
  ghost predicate Evolves(s: Store, t: Store) {
    && (forall id :: id in s.users ==> id in t.users && Lasting(s.users[id], t.users[id]))
    && (forall id :: id in t.users && id !in s.users ==> t.users[id].globalRoles == {})
  }

  predicate Lasting(u: UserRow, v: UserRow) {
    && v.teamId == u.teamId && v.email == u.email && v.password == u.password && v.globalRoles == u.globalRoles && v.createdAt == u.createdAt
    && (u.deleted ==> v == u)
  }

  lemma HandleEvolves(s: Store, actor: Subject, req: Req)
    requires IdsBelow(s)
    ensures Evolves(s, Handle(s, actor, req))
  {
  }

  lemma {:induction false} RunEvolves(r: seq<State>, es: seq<Event>, i: nat, j: nat)
    requires IsRun(r, es) && i <= j < |r| && Integrity(r[0].store)
    ensures Evolves(r[i].store, r[j].store)
    decreases j
  {
    if i < j {
      RunEvolves(r, es, i, j - 1);
      ReachableStatesHaveIntegrity(r, es, j - 1);
      assert EventAt(es, j - 1);
      if es[j - 1].Call? {
        HandleEvolves(r[j - 1].store, es[j - 1].token, es[j - 1].req);
      }
    }
  }

  /** No user ever gains SUPER, whoever acts: the SUPER users are always those of the first state. */
  lemma NobodyBecomesSuper(r: seq<State>, es: seq<Event>, i: nat, j: nat, id: int)
    requires IsRun(r, es) && i <= j < |r| && Integrity(r[0].store)
    requires id in r[j].store.users && SUPER in r[j].store.users[id].globalRoles
    ensures id in r[i].store.users && SUPER in r[i].store.users[id].globalRoles
  {
    RunEvolves(r, es, i, j);
  }

  /** In every reachable state an active user has an identity to sign into a token, and nobody else does. */
  lemma ActiveUsersHaveIdentities(s: Store, id: int)
    requires Integrity(s)
    ensures GetIdentity(s, id).Some? <==> ActiveUser(s, id)
    ensures ActiveUser(s, id) ==>
              var u := s.users[id];
              && u.teamId in s.teams && s.teams[u.teamId].roleId in s.roles
              && GetIdentity(s, id) ==
                 Some(Subject(id, u.globalRoles, [Membership(u.teamId, u.position)],
                              Some(s.roles[s.teams[u.teamId].roleId].name)))
  {
    if ActiveUser(s, id) {
      assert ActiveTeam(s, s.users[id].teamId);
    }
  }
}
