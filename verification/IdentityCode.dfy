/**
 The identity services as they are written: entities whose methods assign fields, repositories that write
 them to the tables, and service methods that load, authorize, change and save. Each is proved equal to its
 function in Identity; a change to a loaded entity reaches the tables only when it is saved.
 */
module IdentityCode {
  import opened Common
  import opened AccessControl
  import Identity
  import IdentityIntegrity
  import Listing

  // ----- Entities; the id is assigned by the first save

  class User {
    var id: Option<int>
    var email: string
    var password: string
    var name: string
    var teamId: int
    var position: Position
    var globalRoles: set<GlobalRole>
    var deleted: bool
    var createdAt: int

    constructor Create(
      email: string, passwordHash: string, name: string, teamId: int, position: Position,
      globalRoles: Option<set<GlobalRole>>, now: int)
      ensures id.None?
      ensures Row() == Identity.UserRow(email, passwordHash, name, teamId, position,
                                        if globalRoles.Some? then globalRoles.value else {}, false, now)
    {
      this.id := None;
      this.email := email;
      this.password := passwordHash;
      this.name := name;
      this.teamId := teamId;
      this.position := position;
      this.globalRoles := if globalRoles.Some? then globalRoles.value else {};
      this.deleted := false;
      this.createdAt := now;
    }

    constructor Load(id: int, row: Identity.UserRow)
      ensures this.id == Some(id) && Row() == row
    {
      this.id := Some(id);
      this.email := row.email;
      this.password := row.password;
      this.name := row.name;
      this.teamId := row.teamId;
      this.position := row.position;
      this.globalRoles := row.globalRoles;
      this.deleted := row.deleted;
      this.createdAt := row.createdAt;
    }

    function Row(): Identity.UserRow
      reads this
    {
      Identity.UserRow(email, password, name, teamId, position, globalRoles, deleted, createdAt)
    }

    method UpdateProfile(name: string)
      modifies this`name
      ensures Row() == old(Row()).(name := name)
    {
      this.name := name;
    }

    method ChangePosition(position: Position)
      modifies this`position
      ensures Row() == old(Row()).(position := position)
    {
      this.position := position;
    }

    method ChangePassword(passwordHash: string)
      modifies this`password
      ensures Row() == old(Row()).(password := passwordHash)
    {
      this.password := passwordHash;
    }

    method SoftDelete()
      modifies this`deleted
      ensures Row() == old(Row()).(deleted := true)
    {
      this.deleted := true;
    }
  }

  class Team {
    var id: Option<int>
    var name: string
    var roleId: int
    var deleted: bool

    constructor Create(name: string, roleId: int)
      ensures id.None? && Row() == Identity.TeamRow(name, roleId, false)
    {
      this.id := None;
      this.name := name;
      this.roleId := roleId;
      this.deleted := false;
    }

    constructor Load(id: int, row: Identity.TeamRow)
      ensures this.id == Some(id) && Row() == row
    {
      this.id := Some(id);
      this.name := row.name;
      this.roleId := row.roleId;
      this.deleted := row.deleted;
    }

    function Row(): Identity.TeamRow
      reads this
    {
      Identity.TeamRow(name, roleId, deleted)
    }

    method Rename(name: string)
      modifies this`name
      ensures Row() == old(Row()).(name := name)
    {
      this.name := name;
    }

    method SoftDelete()
      modifies this`deleted
      ensures Row() == old(Row()).(deleted := true)
    {
      this.deleted := true;
    }
  }

  class Role {
    var id: Option<int>
    var name: string
    var deleted: bool

    constructor Create(name: string)
      ensures id.None? && Row() == Identity.RoleRow(name, false)
    {
      this.id := None;
      this.name := name;
      this.deleted := false;
    }

    constructor Load(id: int, row: Identity.RoleRow)
      ensures this.id == Some(id) && Row() == row
    {
      this.id := Some(id);
      this.name := row.name;
      this.deleted := row.deleted;
    }

    function Row(): Identity.RoleRow
      reads this
    {
      Identity.RoleRow(name, deleted)
    }

    method Rename(name: string)
      modifies this`name
      ensures Row() == old(Row()).(name := name)
    {
      this.name := name;
    }

    method SoftDelete()
      modifies this`deleted
      ensures Row() == old(Row()).(deleted := true)
    {
      this.deleted := true;
    }
  }

  // ----- Repositories over the shared tables

  class Database {
    var store: Identity.Store

    constructor (store: Identity.Store)
      ensures this.store == store
    {
      this.store := store;
    }
  }

  /** The conditions of a list query; a missing one restricts nothing. */
  datatype Where = Where(name: Option<string -> bool>, team: Option<set<int>>)

  class UserRepository {
    const db: Database

    constructor (db: Database)
      ensures this.db == db
    {
      this.db := db;
    }

    method FindById(id: int) returns (user: User?)
      ensures user != null <==> Identity.ActiveUser(db.store, id)
      ensures user != null ==> fresh(user) && user.id == Some(id) && user.Row() == db.store.users[id]
    {
      if Identity.ActiveUser(db.store, id) {
        user := new User.Load(id, db.store.users[id]);
      } else {
        user := null;
      }
    }

    method FindByEmail(email: string) returns (user: User?)
      ensures user != null <==> Identity.EmailTaken(db.store, email, None)
      ensures user != null ==>
                && fresh(user) && user.email == email && user.id.Some?
                && Identity.ActiveUser(db.store, user.id.value) && user.Row() == db.store.users[user.id.value]
    {
      if id :| id in db.store.users && !db.store.users[id].deleted && db.store.users[id].email == email {
        user := new User.Load(id, db.store.users[id]);
      } else {
        user := null;
      }
    }

    method CountByTeam(teamId: int) returns (n: nat)
      ensures n == Identity.CountByTeam(db.store, teamId)
      ensures n == 0 <==> forall id :: Identity.ActiveUser(db.store, id) ==> db.store.users[id].teamId != teamId
    {
      n := |Identity.MembersOf(db.store, teamId)|;
      Listing.NoMembers(db.store, teamId);
    }

    /** The condition is built field by field: the keyword, if there is one, and the teams, if there is a scope. */
    method SearchPage(q: Identity.Query, scope: Option<set<int>>) returns (page: Identity.Page)
      ensures Listing.Shows(db.store, q, scope, page)
      ensures page == Identity.PageOf(Identity.SearchRows(db.store, q.keyword, scope), q)
    {
      var where := Where(None, None);
      if q.keyword.Some? {
        where := where.(name := q.keyword);
      }
      if scope.Some? {
        where := where.(team := scope);
      }
      page := FindPage(where, q);
      Listing.PageShows(db.store, q, scope);
    }

    method FindPage(where: Where, q: Identity.Query) returns (page: Identity.Page)
      ensures page == Identity.PageOf(Identity.SearchRows(db.store, where.name, where.team), q)
    {
      var users := db.store.users;
      var rows := map id | id in users && !users[id].deleted
                          && (match where.name case None => true case Some(matches) => matches(users[id].name))
                          && (match where.team case None => true case Some(teams) => users[id].teamId in teams)
                  :: users[id];
      assert rows == Identity.SearchRows(db.store, where.name, where.team);
      page := Identity.PageOf(rows, q);
    }

    /** Inserts a new entity and gives it an id, updates a stored one, or fails and writes nothing. */
    method Save(user: User) returns (r: Result<(), Identity.Error>)
      modifies db, user`id
      ensures var s, id := old(db.store), if old(user.id).Some? then old(user.id).value else old(db.store).nextUser;
              && (r.Failure? <==>
                    !user.deleted && exists x :: x != id && Identity.ActiveUser(s, x) && s.users[x].email == user.email)
              && (r.Failure? ==> r.error == Identity.UniqueViolation && db.store == s && user.id == old(user.id))
              && (r.Success? ==>
                    && r == Success(()) && user.id == Some(id)
                    && db.store == s.(users := s.users[id := user.Row()],
                                      nextUser := if old(user.id).Some? then s.nextUser else id + 1))
    {
      var isNew := user.id.None?;
      var id := if isNew then db.store.nextUser else user.id.value;
      match Identity.SaveUser(db.store, id, user.Row()) {
        case Failure(e) => return Failure(e);
        case Success(t) =>
          db.store := if isNew then t.(nextUser := id + 1) else t;
          user.id := Some(id);
          return Success(());
      }
    }
  }

  class TeamRepository {
    const db: Database

    constructor (db: Database)
      ensures this.db == db
    {
      this.db := db;
    }

    method FindById(id: int) returns (team: Team?)
      ensures team != null <==> Identity.ActiveTeam(db.store, id)
      ensures team != null ==> fresh(team) && team.id == Some(id) && team.Row() == db.store.teams[id]
    {
      if Identity.ActiveTeam(db.store, id) {
        team := new Team.Load(id, db.store.teams[id]);
      } else {
        team := null;
      }
    }

    method FindByName(name: string) returns (team: Team?)
      ensures team != null <==> Identity.TeamNameTaken(db.store, name, None)
      ensures team != null ==> fresh(team) && team.name == name && !team.deleted
    {
      if id :| id in db.store.teams && !db.store.teams[id].deleted && db.store.teams[id].name == name {
        team := new Team.Load(id, db.store.teams[id]);
      } else {
        team := null;
      }
    }

    method CountByRole(roleId: int) returns (n: nat)
      ensures n == Identity.CountByRole(db.store, roleId)
      ensures n == 0 <==> forall id :: Identity.ActiveTeam(db.store, id) ==> db.store.teams[id].roleId != roleId
    {
      n := |Identity.TeamsOf(db.store, roleId)|;
      Listing.NoTeams(db.store, roleId);
    }

    method Save(team: Team) returns (r: Result<(), Identity.Error>)
      modifies db, team`id
      ensures var s, id := old(db.store), if old(team.id).Some? then old(team.id).value else old(db.store).nextTeam;
              && (r.Failure? <==>
                    !team.deleted && exists x :: x != id && Identity.ActiveTeam(s, x) && s.teams[x].name == team.name)
              && (r.Failure? ==> r.error == Identity.UniqueViolation && db.store == s && team.id == old(team.id))
              && (r.Success? ==>
                    && r == Success(()) && team.id == Some(id)
                    && db.store == s.(teams := s.teams[id := team.Row()],
                                      nextTeam := if old(team.id).Some? then s.nextTeam else id + 1))
    {
      var isNew := team.id.None?;
      var id := if isNew then db.store.nextTeam else team.id.value;
      match Identity.SaveTeam(db.store, id, team.Row()) {
        case Failure(e) => return Failure(e);
        case Success(t) =>
          db.store := if isNew then t.(nextTeam := id + 1) else t;
          team.id := Some(id);
          return Success(());
      }
    }
  }

  class RoleRepository {
    const db: Database

    constructor (db: Database)
      ensures this.db == db
    {
      this.db := db;
    }

    method FindById(id: int) returns (role: Role?)
      ensures role != null <==> Identity.ActiveRole(db.store, id)
      ensures role != null ==> fresh(role) && role.id == Some(id) && role.Row() == db.store.roles[id]
    {
      if Identity.ActiveRole(db.store, id) {
        role := new Role.Load(id, db.store.roles[id]);
      } else {
        role := null;
      }
    }

    method FindByName(name: string) returns (role: Role?)
      ensures role != null <==> Identity.RoleNameTaken(db.store, name, None)
      ensures role != null ==> fresh(role) && role.name == name && !role.deleted
    {
      if id :| id in db.store.roles && !db.store.roles[id].deleted && db.store.roles[id].name == name {
        role := new Role.Load(id, db.store.roles[id]);
      } else {
        role := null;
      }
    }

    method Save(role: Role) returns (r: Result<(), Identity.Error>)
      modifies db, role`id
      ensures var s, id := old(db.store), if old(role.id).Some? then old(role.id).value else old(db.store).nextRole;
              && (r.Failure? <==>
                    !role.deleted && exists x :: x != id && Identity.ActiveRole(s, x) && s.roles[x].name == role.name)
              && (r.Failure? ==> r.error == Identity.UniqueViolation && db.store == s && role.id == old(role.id))
              && (r.Success? ==>
                    && r == Success(()) && role.id == Some(id)
                    && db.store == s.(roles := s.roles[id := role.Row()],
                                      nextRole := if old(role.id).Some? then s.nextRole else id + 1))
    {
      var isNew := role.id.None?;
      var id := if isNew then db.store.nextRole else role.id.value;
      match Identity.SaveRole(db.store, id, role.Row()) {
        case Failure(e) => return Failure(e);
        case Success(t) =>
          db.store := if isNew then t.(nextRole := id + 1) else t;
          role.id := Some(id);
          return Success(());
      }
    }
  }

  // ----- Services

  class UserService {
    const users: UserRepository
    const teams: TeamRepository

    constructor (users: UserRepository, teams: TeamRepository)
      requires users.db == teams.db
      ensures this.users == users && this.teams == teams
    {
      this.users := users;
      this.teams := teams;
    }

    method CreateUser(actor: Subject, dto: Identity.NewUser, now: int) returns (r: Result<Identity.UserData, Identity.Error>)
      requires users.db == teams.db
      modifies users.db
      ensures (users.db.store, r) == Identity.CreateUser(old(users.db.store), actor, dto, now)
    {
      if !AuthorizeCreate(actor, dto.teamId) {
        return Failure(Identity.Forbidden);
      }
      var existing := users.FindByEmail(dto.email);
      if existing != null {
        return Failure(Identity.EmailDuplicated);
      }
      var team := teams.FindById(dto.teamId);
      if team == null {
        return Failure(Identity.TeamNotFound);
      }
      var user := new User.Create(dto.email, dto.passwordHash, dto.name, dto.teamId, dto.position, None, now);
      var saved := users.Save(user);
      r := match saved
           case Failure(e) => Failure(e)
           case Success(_) => Success(Identity.ToData(user.id.value, user.Row()));
    }

    method GetUserOrThrow(id: int) returns (r: Result<User, Identity.Error>)
      ensures Identity.ActiveUser(users.db.store, id) <==> r.Success?
      ensures r.Success? ==>
                fresh(r.value) && r.value.id == Some(id) && r.value.Row() == users.db.store.users[id]
      ensures r.Failure? ==> r.error == Identity.UserNotFound
    {
      var user := users.FindById(id);
      if user == null {
        return Failure(Identity.UserNotFound);
      }
      return Success(user);
    }

    method LoadAndAuthorize(actor: Subject, action: Act, id: int, denial: Identity.Error)
      returns (r: Result<User, Identity.Error>)
      ensures match Identity.LoadAndAuthorize(users.db.store, actor, action, id, denial)
              case Failure(e) => r == Failure(e)
              case Success(row) => r.Success? && fresh(r.value) && r.value.id == Some(id) && r.value.Row() == row
    {
      r := GetUserOrThrow(id);
      if r.Success? && !Authorize(actor, action, Resource(id, r.value.teamId)) {
        r := Failure(denial);
      }
    }

    method GetUser(actor: Subject, id: int) returns (r: Result<Identity.UserData, Identity.Error>)
      ensures r == Identity.GetUser(users.db.store, actor, id)
    {
      var loaded := LoadAndAuthorize(actor, Read, id, Identity.UserNotFound);
      if loaded.Failure? {
        return Failure(loaded.error);
      }
      return Success(Identity.ToData(id, loaded.value.Row()));
    }

    method GetUserList(actor: Subject, q: Identity.Query) returns (page: Identity.Page)
      ensures page == Identity.GetUserList(users.db.store, actor, q)
    {
      if IsSuper(actor) {
        page := users.SearchPage(q, None);
        return;
      }
      var teamIds := Identity.TeamIds(actor.teams);
      if |actor.teams| == 0 {
        return Identity.Page([], 0);
      }
      page := users.SearchPage(q, Some(teamIds));
    }

    /** The name is assigned before the position is authorized; a denial leaves the tables as they were. */
    method UpdateUser(actor: Subject, id: int, name: Option<string>, position: Option<Position>)
      returns (r: Result<Identity.UserData, Identity.Error>)
      modifies users.db
      ensures (users.db.store, r) == Identity.UpdateUser(old(users.db.store), actor, id, name, position)
    {
      var loaded := LoadAndAuthorize(actor, Update, id, Identity.Forbidden);
      if loaded.Failure? {
        return Failure(loaded.error);
      }
      var user := loaded.value;
      if name.Some? {
        user.UpdateProfile(name.value);
      }
      if position.Some? {
        if !AuthorizeChangeRole(actor, Resource(id, user.teamId)) {
          return Failure(Identity.RoleChangeForbidden);
        }
        user.ChangePosition(position.value);
      }
      var saved := users.Save(user);
      if saved.Failure? {
        return Failure(saved.error);
      }
      return Success(Identity.ToData(id, user.Row()));
    }

    method DeleteUser(actor: Subject, id: int) returns (r: Result<(), Identity.Error>)
      modifies users.db
      ensures (users.db.store, r) == Identity.DeleteUser(old(users.db.store), actor, id)
    {
      var loaded := LoadAndAuthorize(actor, Delete, id, Identity.Forbidden);
      if loaded.Failure? {
        return Failure(loaded.error);
      }
      loaded.value.SoftDelete();
      r := users.Save(loaded.value);
    }
  }

  class TeamService {
    const teams: TeamRepository
    const roles: RoleRepository
    const users: UserRepository

    constructor (teams: TeamRepository, roles: RoleRepository, users: UserRepository)
      requires teams.db == roles.db == users.db
      ensures this.teams == teams && this.roles == roles && this.users == users
    {
      this.teams := teams;
      this.roles := roles;
      this.users := users;
    }

    method CreateTeam(name: string, roleId: int) returns (r: Result<Identity.TeamData, Identity.Error>)
      requires teams.db == roles.db == users.db
      modifies teams.db
      ensures (teams.db.store, r) == Identity.CreateTeam(old(teams.db.store), name, roleId)
    {
      var role := roles.FindById(roleId);
      if role == null {
        return Failure(Identity.RoleNotFound);
      }
      var existing := teams.FindByName(name);
      if existing != null {
        return Failure(Identity.TeamNameDuplicated);
      }
      var team := new Team.Create(name, roleId);
      var saved := teams.Save(team);
      r := match saved
           case Failure(e) => Failure(e)
           case Success(_) => Success(Identity.ToTeamData(team.id.value, team.Row()));
    }

    method UpdateTeam(id: int, name: Option<string>) returns (r: Result<Identity.TeamData, Identity.Error>)
      modifies teams.db
      ensures (teams.db.store, r) == Identity.UpdateTeam(old(teams.db.store), id, name)
    {
      var team := teams.FindById(id);
      if team == null {
        return Failure(Identity.TeamNotFound);
      }
      if name.Some? {
        team.Rename(name.value);
      }
      var saved := teams.Save(team);
      if saved.Failure? {
        return Failure(saved.error);
      }
      return Success(Identity.ToTeamData(id, team.Row()));
    }

    method DeleteTeam(id: int) returns (r: Result<(), Identity.Error>)
      requires teams.db == roles.db == users.db
      modifies teams.db
      ensures (teams.db.store, r) == Identity.DeleteTeam(old(teams.db.store), id)
    {
      var team := teams.FindById(id);
      if team == null {
        return Failure(Identity.TeamNotFound);
      }
      var members := users.CountByTeam(id);
      if members > 0 {
        return Failure(Identity.TeamHasMembers);
      }
      team.SoftDelete();
      r := teams.Save(team);
    }
  }

  class RoleService {
    const roles: RoleRepository
    const teams: TeamRepository

    constructor (roles: RoleRepository, teams: TeamRepository)
      requires roles.db == teams.db
      ensures this.roles == roles && this.teams == teams
    {
      this.roles := roles;
      this.teams := teams;
    }

    method CreateRole(name: string) returns (r: Result<Identity.RoleData, Identity.Error>)
      modifies roles.db
      ensures (roles.db.store, r) == Identity.CreateRole(old(roles.db.store), name)
    {
      var existing := roles.FindByName(name);
      if existing != null {
        return Failure(Identity.RoleNameDuplicated);
      }
      var role := new Role.Create(name);
      var saved := roles.Save(role);
      r := match saved
           case Failure(e) => Failure(e)
           case Success(_) => Success(Identity.RoleData(role.id.value, role.name));
    }

    method UpdateRole(id: int, name: Option<string>) returns (r: Result<Identity.RoleData, Identity.Error>)
      modifies roles.db
      ensures (roles.db.store, r) == Identity.UpdateRole(old(roles.db.store), id, name)
    {
      var role := roles.FindById(id);
      if role == null {
        return Failure(Identity.RoleNotFound);
      }
      if name.Some? {
        role.Rename(name.value);
      }
      var saved := roles.Save(role);
      if saved.Failure? {
        return Failure(saved.error);
      }
      return Success(Identity.RoleData(id, role.name));
    }

    method DeleteRole(id: int) returns (r: Result<(), Identity.Error>)
      requires roles.db == teams.db
      modifies roles.db
      ensures (roles.db.store, r) == Identity.DeleteRole(old(roles.db.store), id)
    {
      var role := roles.FindById(id);
      if role == null {
        return Failure(Identity.RoleNotFound);
      }
      var count := teams.CountByRole(id);
      if count > 0 {
        return Failure(Identity.RoleHasTeams);
      }
      role.SoftDelete();
      r := roles.Save(role);
    }
  }

  /** A populated relation that leads to no row. */
  datatype Broken = Broken

  /** Claims come from the rows: the user, its team, and the team's role. */
  class UserCredentialAdapter {
    const users: UserRepository

    constructor (users: UserRepository)
      ensures this.users == users
    {
      this.users := users;
    }

    /** Throws exactly when an active user's team or role has no row. */
    method GetIdentity(userId: int) returns (r: Result<Option<Subject>, Broken>)
      ensures r.Failure? <==> Identity.ActiveUser(users.db.store, userId) && Identity.GetIdentity(users.db.store, userId).None?
      ensures r.Success? ==> r.value == Identity.GetIdentity(users.db.store, userId)
    {
      var user := users.FindById(userId);
      if user == null {
        return Success(None);
      }
      var identity := ToIdentity(user);
      return match identity case Failure(e) => Failure(e) case Success(subject) => Success(Some(subject));
    }

    method ToIdentity(user: User) returns (r: Result<Subject, Broken>)
      requires user.id.Some? && Identity.ActiveUser(users.db.store, user.id.value)
      requires user.Row() == users.db.store.users[user.id.value]
      ensures r.Success? <==> Identity.GetIdentity(users.db.store, user.id.value).Some?
      ensures r.Success? ==> Some(r.value) == Identity.GetIdentity(users.db.store, user.id.value)
    {
      var s := users.db.store;
      if user.teamId !in s.teams || s.teams[user.teamId].roleId !in s.roles {
        return Failure(Broken);
      }
      var role := s.roles[s.teams[user.teamId].roleId];
      return Success(Subject(user.id.value, user.globalRoles, [Membership(user.teamId, user.position)], Some(role.name)));
    }

    /**
     `verify` is the hash function's check of a hash and a password, `dummy` the hash that is verified when
     nobody has the email, so that both cases take the same time. Someone is identified exactly when an active
     user has the email and that user's own hash verifies; what `dummy` verifies does not matter.
     */
    method ValidateCredentials(email: string, password: string, verify: (string, string) -> bool, dummy: string)
      returns (r: Result<Option<Subject>, Broken>)
      requires IdentityIntegrity.Integrity(users.db.store)
      ensures r == Success(IdentityIntegrity.Credentials(users.db.store, email, password, verify))
      ensures r.value.Some? <==>
                exists id :: Identity.ActiveUser(users.db.store, id) && users.db.store.users[id].email == email
                             && verify(users.db.store.users[id].password, password)
      ensures r.value.Some? ==>
                var id := r.value.value.id;
                Identity.ActiveUser(users.db.store, id) && users.db.store.users[id].email == email
    {
      ghost var s := users.db.store;
      var user := users.FindByEmail(email);
      var ok := verify(if user != null then user.password else dummy, password);
      if user == null || !ok {
        NobodyKnows(s, email, password, verify, if user == null then None else user.id);
        return Success(None);
      }
      assert IdentityIntegrity.Knows(s, email, password, verify, user.id.value);
      IdentityIntegrity.CredentialsIdentify(s, email, password, verify, user.id.value);
      IdentityIntegrity.ActiveUsersHaveIdentities(s, user.id.value);
      var identity := ToIdentity(user);
      return match identity case Failure(e) => Failure(e) case Success(subject) => Success(Some(subject));
    }

    /** If the one user with the email, or nobody, does not verify the password, nobody does. */
    lemma NobodyKnows(s: Identity.Store, email: string, password: string, verify: (string, string) -> bool, found: Option<int>)
      requires IdentityIntegrity.Integrity(s)
      requires match found
               case None => !Identity.EmailTaken(s, email, None)
               case Some(id) =>
                 && Identity.ActiveUser(s, id) && s.users[id].email == email
                 && !verify(s.users[id].password, password)
      ensures forall id :: !IdentityIntegrity.Knows(s, email, password, verify, id)
    {
      forall id ensures !IdentityIntegrity.Knows(s, email, password, verify, id) {
        if Identity.ActiveUser(s, id) && s.users[id].email == email && found.Some? {
          assert Identity.ActiveUser(s, found.value);
        }
      }
    }
  }
}
