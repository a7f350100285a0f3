/**
 Users, teams and roles with soft delete: the tables, the service operations as functions from one state
 of the tables to the next, and the requests that reach them through both tiers of authorization.
 */
module Identity {
  import opened Common
  import opened AccessControl

  datatype RoleRow = RoleRow(name: string, deleted: bool)

  datatype TeamRow = TeamRow(name: string, roleId: int, deleted: bool)

  /** `password` is the stored hash. */
  datatype UserRow = UserRow(
    email: string,
    password: string,
    name: string,
    teamId: int,
    position: Position,
    globalRoles: set<GlobalRole>,
    deleted: bool,
    createdAt: int)

  /** Ids come from sequences; rows are never removed. */
  datatype Store = Store(
    roles: map<int, RoleRow>,
    teams: map<int, TeamRow>,
    users: map<int, UserRow>,
    nextRole: int,
    nextTeam: int,
    nextUser: int)

  datatype Error =
    | Unauthenticated
    | Forbidden
    | UserNotFound
    | TeamNotFound
    | RoleNotFound
    | EmailDuplicated
    | TeamNameDuplicated
    | RoleNameDuplicated
    | RoleChangeForbidden
    | TeamHasMembers
    | RoleHasTeams
    | UniqueViolation

  datatype UserData = UserData(id: int, email: string, name: string, teamId: int, position: Position)

  function ToData(id: int, u: UserRow): UserData {
    UserData(id, u.email, u.name, u.teamId, u.position)
  }

  datatype TeamData = TeamData(id: int, name: string, roleId: int)

  function ToTeamData(id: int, t: TeamRow): TeamData {
    TeamData(id, t.name, t.roleId)
  }

  datatype RoleData = RoleData(id: int, name: string)

  // ----- What the repositories see: the soft delete filter hides deleted rows

  predicate ActiveUser(s: Store, id: int) {
    id in s.users && !s.users[id].deleted
  }

  predicate ActiveTeam(s: Store, id: int) {
    id in s.teams && !s.teams[id].deleted
  }

  predicate ActiveRole(s: Store, id: int) {
    id in s.roles && !s.roles[id].deleted
  }

  /** Some active row, other than `except` if there is one, has the value; the partial unique indexes forbid two. */
  predicate EmailTaken(s: Store, email: string, except: Option<int>) {
    exists id :: id in s.users && Some(id) != except && !s.users[id].deleted && s.users[id].email == email
  }

  predicate TeamNameTaken(s: Store, name: string, except: Option<int>) {
    exists id :: id in s.teams && Some(id) != except && !s.teams[id].deleted && s.teams[id].name == name
  }

  predicate RoleNameTaken(s: Store, name: string, except: Option<int>) {
    exists id :: id in s.roles && Some(id) != except && !s.roles[id].deleted && s.roles[id].name == name
  }

  function MembersOf(s: Store, teamId: int): set<int> {
    set id | id in s.users && !s.users[id].deleted && s.users[id].teamId == teamId
  }

  function TeamsOf(s: Store, roleId: int): set<int> {
    set id | id in s.teams && !s.teams[id].deleted && s.teams[id].roleId == roleId
  }

  function CountByTeam(s: Store, teamId: int): nat {
    |MembersOf(s, teamId)|
  }

  function CountByRole(s: Store, roleId: int): nat {
    |TeamsOf(s, roleId)|
  }

  /** Writing a row fails on the unique index, and then writes nothing. */
  function SaveUser(s: Store, id: int, row: UserRow): Result<Store, Error> {
    if !row.deleted && EmailTaken(s, row.email, Some(id)) then Failure(UniqueViolation)
    else Success(s.(users := s.users[id := row]))
  }

  function SaveTeam(s: Store, id: int, row: TeamRow): Result<Store, Error> {
    if !row.deleted && TeamNameTaken(s, row.name, Some(id)) then Failure(UniqueViolation)
    else Success(s.(teams := s.teams[id := row]))
  }

  function SaveRole(s: Store, id: int, row: RoleRow): Result<Store, Error> {
    if !row.deleted && RoleNameTaken(s, row.name, Some(id)) then Failure(UniqueViolation)
    else Success(s.(roles := s.roles[id := row]))
  }

  // ----- User service

  /** A request to create a user, with its password already hashed. */
  datatype NewUser = NewUser(email: string, passwordHash: string, name: string, teamId: int, position: Position)

  function CreateUser(s: Store, actor: Subject, dto: NewUser, now: int): (Store, Result<UserData, Error>) {
    if !AuthorizeCreate(actor, dto.teamId) then (s, Failure(Forbidden))
    else if EmailTaken(s, dto.email, None) then (s, Failure(EmailDuplicated))
    else if !ActiveTeam(s, dto.teamId) then (s, Failure(TeamNotFound))
    else
      var row := UserRow(dto.email, dto.passwordHash, dto.name, dto.teamId, dto.position, {}, false, now);
      match SaveUser(s, s.nextUser, row)
      case Failure(e) => (s, Failure(e))
      case Success(t) => (t.(nextUser := s.nextUser + 1), Success(ToData(s.nextUser, row)))
  }

  /** Loads and authorizes; a denial looks like `denial`. */
  function LoadAndAuthorize(s: Store, actor: Subject, action: Act, id: int, denial: Error): Result<UserRow, Error> {
    if !ActiveUser(s, id) then Failure(UserNotFound)
    else if !Authorize(actor, action, Resource(id, s.users[id].teamId)) then Failure(denial)
    else Success(s.users[id])
  }

  /** Reading masks a denial as a missing row. */
  function GetUser(s: Store, actor: Subject, id: int): Result<UserData, Error> {
    match LoadAndAuthorize(s, actor, Read, id, UserNotFound)
    case Failure(e) => Failure(e)
    case Success(row) => Success(ToData(id, row))
  }

  /** The active rows whose name matches the keyword and whose team is in the scope, if there are any. */
  function SearchRows(s: Store, keyword: Option<string -> bool>, scope: Option<set<int>>): map<int, UserRow> {
    map id | id in s.users && !s.users[id].deleted
             && (keyword.Some? ==> keyword.value(s.users[id].name))
             && (scope.Some? ==> s.users[id].teamId in scope.value) :: s.users[id]
  }

  /** `ids` lists every row once, the newest first. */
  ghost predicate NewestFirst(rows: map<int, UserRow>, ids: seq<int>) {
    && (forall i, j :: 0 <= i < j < |ids| ==> ids[i] != ids[j])
    && (forall id :: id in ids <==> id in rows)
    && (forall i, j :: 0 <= i < j < |ids| ==> rows[ids[i]].createdAt >= rows[ids[j]].createdAt)
  }

  lemma {:induction false} SomeNewest(rows: map<int, UserRow>) returns (id: int)
    requires rows != map[]
    ensures id in rows && forall x :: x in rows ==> rows[x].createdAt <= rows[id].createdAt
    decreases rows
  {
    assert rows.Keys != {};
    id := SomeElement(rows.Keys);
    var rest := rows - {id};
    assert forall x :: x in rows && x != id ==> x in rest;
    if rest != map[] {
      var other := SomeNewest(rest);
      if rows[id].createdAt < rows[other].createdAt { id := other; }
    }
  }

  lemma {:induction false} SomeOrder(rows: map<int, UserRow>) returns (ids: seq<int>)
    ensures NewestFirst(rows, ids)
    decreases rows
  {
    if rows == map[] {
      ids := [];
    } else {
      var id := SomeNewest(rows);
      var rest := SomeOrder(rows - {id});
      ids := [id] + rest;
    }
  }

  lemma OrderExists(rows: map<int, UserRow>)
    ensures exists ids :: NewestFirst(rows, ids)
  {
    var ids := SomeOrder(rows);
  }

  ghost function AnyOrder(rows: map<int, UserRow>): (ids: seq<int>)
    ensures NewestFirst(rows, ids)
  {
    OrderExists(rows);
    var ids :| NewestFirst(rows, ids); ids
  }

  /** How the database lists the rows a query selects: newest first, with its own choice among equal times. */
  type Order = f: map<int, UserRow> -> seq<int> | forall rows :: NewestFirst(rows, f(rows))
    ghost witness rows => AnyOrder(rows)

  datatype Query = Query(keyword: Option<string -> bool>, order: Order, offset: nat, limit: nat)

  datatype Page = Page(list: seq<UserData>, count: nat)

  function Min(a: nat, b: nat): nat {
    if a <= b then a else b
  }

  /** The ids on the page: `limit` of them at most, after the first `offset`. */
  function PageIds(rows: map<int, UserRow>, q: Query): (ids: seq<int>)
    ensures forall id :: id in ids ==> id in rows
  {
    var all := q.order(rows);
    all[Min(q.offset, |all|)..Min(q.offset + q.limit, |all|)]
  }

  function PageOf(rows: map<int, UserRow>, q: Query): Page {
    var ids := PageIds(rows, q);
    Page(seq(|ids|, i requires 0 <= i < |ids| => ToData(ids[i], rows[ids[i]])), |rows|)
  }

  function TeamIds(teams: seq<Membership>): set<int> {
    set m | m in teams :: m.teamId
  }

  function GetUserList(s: Store, actor: Subject, q: Query): Page {
    if IsSuper(actor) then PageOf(SearchRows(s, q.keyword, None), q)
    else if actor.teams == [] then Page([], 0)
    else PageOf(SearchRows(s, q.keyword, Some(TeamIds(actor.teams))), q)
  }

  function UpdateUser(s: Store, actor: Subject, id: int, name: Option<string>, position: Option<Position>)
    : (Store, Result<UserData, Error>)
  {
    match LoadAndAuthorize(s, actor, Update, id, Forbidden)
    case Failure(e) => (s, Failure(e))
    case Success(row) =>
      var renamed := if name.Some? then row.(name := name.value) else row;
      if position.Some? && !AuthorizeChangeRole(actor, Resource(id, row.teamId)) then (s, Failure(RoleChangeForbidden))
      else
        var changed := if position.Some? then renamed.(position := position.value) else renamed;
        match SaveUser(s, id, changed)
        case Failure(e) => (s, Failure(e))
        case Success(t) => (t, Success(ToData(id, changed)))
  }

  function DeleteUser(s: Store, actor: Subject, id: int): (Store, Result<(), Error>) {
    match LoadAndAuthorize(s, actor, Delete, id, Forbidden)
    case Failure(e) => (s, Failure(e))
    case Success(row) =>
      match SaveUser(s, id, row.(deleted := true))
      case Failure(e) => (s, Failure(e))
      case Success(t) => (t, Success(()))
  }

  // ----- Team service

  function CreateTeam(s: Store, name: string, roleId: int): (Store, Result<TeamData, Error>) {
    if !ActiveRole(s, roleId) then (s, Failure(RoleNotFound))
    else if TeamNameTaken(s, name, None) then (s, Failure(TeamNameDuplicated))
    else
      var row := TeamRow(name, roleId, false);
      match SaveTeam(s, s.nextTeam, row)
      case Failure(e) => (s, Failure(e))
      case Success(t) => (t.(nextTeam := s.nextTeam + 1), Success(ToTeamData(s.nextTeam, row)))
  }

  function UpdateTeam(s: Store, id: int, name: Option<string>): (Store, Result<TeamData, Error>) {
    if !ActiveTeam(s, id) then (s, Failure(TeamNotFound))
    else
      var row := if name.Some? then s.teams[id].(name := name.value) else s.teams[id];
      match SaveTeam(s, id, row)
      case Failure(e) => (s, Failure(e))
      case Success(t) => (t, Success(ToTeamData(id, row)))
  }

  function DeleteTeam(s: Store, id: int): (Store, Result<(), Error>) {
    if !ActiveTeam(s, id) then (s, Failure(TeamNotFound))
    else if CountByTeam(s, id) > 0 then (s, Failure(TeamHasMembers))
    else
      match SaveTeam(s, id, s.teams[id].(deleted := true))
      case Failure(e) => (s, Failure(e))
      case Success(t) => (t, Success(()))
  }

  // ----- Role service

  function CreateRole(s: Store, name: string): (Store, Result<RoleData, Error>) {
    if RoleNameTaken(s, name, None) then (s, Failure(RoleNameDuplicated))
    else
      match SaveRole(s, s.nextRole, RoleRow(name, false))
      case Failure(e) => (s, Failure(e))
      case Success(t) => (t.(nextRole := s.nextRole + 1), Success(RoleData(s.nextRole, name)))
  }

  function UpdateRole(s: Store, id: int, name: Option<string>): (Store, Result<RoleData, Error>) {
    if !ActiveRole(s, id) then (s, Failure(RoleNotFound))
    else
      var row := if name.Some? then s.roles[id].(name := name.value) else s.roles[id];
      match SaveRole(s, id, row)
      case Failure(e) => (s, Failure(e))
      case Success(t) => (t, Success(RoleData(id, row.name)))
  }

  function DeleteRole(s: Store, id: int): (Store, Result<(), Error>) {
    if !ActiveRole(s, id) then (s, Failure(RoleNotFound))
    else if CountByRole(s, id) > 0 then (s, Failure(RoleHasTeams))
    else
      match SaveRole(s, id, s.roles[id].(deleted := true))
      case Failure(e) => (s, Failure(e))
      case Success(t) => (t, Success(()))
  }

  // ----- Claims

  /** The identity behind a token: an active user with its team and that team's role. */
  function GetIdentity(s: Store, id: int): Option<Subject> {
    if ActiveUser(s, id) && s.users[id].teamId in s.teams && s.teams[s.users[id].teamId].roleId in s.roles then
      var u := s.users[id];
      var role := s.roles[s.teams[u.teamId].roleId];
      Some(Subject(id, u.globalRoles, [Membership(u.teamId, u.position)], Some(role.name)))
    else None
  }

  // ----- Requests

  datatype Req =
    | PostUser(dto: NewUser, now: int)
    | GetUserById(id: int)
    | ListUsers
    | PatchUser(id: int, name: Option<string>, position: Option<Position>)
    | RemoveUser(id: int)
    | PostTeam(teamName: string, roleId: int)
    | PatchTeam(id: int, name: Option<string>)
    | RemoveTeam(id: int)
    | PostRole(roleName: string)
    | PatchRole(id: int, name: Option<string>)
    | RemoveRole(id: int)
    | ReadStructure(resource: string)

  /** The capability each controller method declares. */
  function Requirement(req: Req): (Act, string) {
    match req
    case PostUser(_, _) => (Create, "user")
    case GetUserById(_) => (Read, "user")
    case ListUsers => (Read, "user")
    case PatchUser(_, _, _) => (Update, "user")
    case RemoveUser(_) => (Delete, "user")
    case PostTeam(_, _) => (Create, "team")
    case PatchTeam(_, _) => (Update, "team")
    case RemoveTeam(_) => (Delete, "team")
    case PostRole(_) => (Create, "role")
    case PatchRole(_, _) => (Update, "role")
    case RemoveRole(_) => (Delete, "role")
    case ReadStructure(resource) => (Read, resource)
  }

  predicate Passes(actor: Subject, req: Req) {
    PolicyGuard(IDENTITY_ROLE_MATRIX, Route(false, Some(Requirement(req))), Some(actor))
  }

  /** The tables after a request by `actor`, through the policy guard and the service. */
  function Handle(s: Store, actor: Subject, req: Req): Store {
    if !Passes(actor, req) then s
    else match req
      case PostUser(dto, now) => CreateUser(s, actor, dto, now).0
      case PatchUser(id, name, position) => UpdateUser(s, actor, id, name, position).0
      case RemoveUser(id) => DeleteUser(s, actor, id).0
      case PostTeam(name, roleId) => CreateTeam(s, name, roleId).0
      case PatchTeam(id, name) => UpdateTeam(s, id, name).0
      case RemoveTeam(id) => DeleteTeam(s, id).0
      case PostRole(name) => CreateRole(s, name).0
      case PatchRole(id, name) => UpdateRole(s, id, name).0
      case RemoveRole(id) => DeleteRole(s, id).0
      case _ => s
  }

  // ----- Runs

  /** The tables and every access token signed so far; tokens keep the claims of their signing. */
  datatype State = State(store: Store, tokens: set<Subject>)

  /** A login or refresh of user `id`, or a request with a token that may be old. */
  datatype Event = Mint(id: int) | Call(token: Subject, req: Req)

  predicate Enabled(s: State, e: Event) {
    match e
    case Mint(id) => GetIdentity(s.store, id).Some?
    case Call(token, _) => token in s.tokens
  }

  function Step(s: State, e: Event): State
    requires Enabled(s, e)
  {
    match e
    case Mint(id) => s.(tokens := s.tokens + {GetIdentity(s.store, id).value})
    case Call(token, req) => s.(store := Handle(s.store, token, req))
  }

  predicate EventAt(es: seq<Event>, i: int) {
    0 <= i < |es|
  }

  /** `r[i]` is the state before event `es[i]`. */
  ghost predicate IsRun(r: seq<State>, es: seq<Event>) {
    && |r| == |es| + 1
    && forall i {:trigger EventAt(es, i)} :: EventAt(es, i) ==> Enabled(r[i], es[i]) && r[i + 1] == Step(r[i], es[i])
  }
}
