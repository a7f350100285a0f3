/** Tier 1 (role capabilities) and Tier 2 (ownership of the instance) of the authorization rules. */
module AccessControl {
  import opened Common
  import opened Text

  datatype Position = LEADER | MEMBER

  datatype GlobalRole = SUPER

  datatype Act = Create | Read | Update | Delete | Manage | Custom(name: string)

  datatype Membership = Membership(teamId: int, role: Position)

  /** The authenticated subject, built from the claims of its access token. */
  datatype Subject = Subject(id: int, globalRoles: set<GlobalRole>, teams: seq<Membership>, roleName: Option<string>)

  predicate IsSuper(actor: Subject) {
    SUPER in actor.globalRoles
  }

  /** The first membership in the team. */
  function FindMembership(teams: seq<Membership>, teamId: int): Option<Membership> {
    if teams == [] then None
    else if teams[0].teamId == teamId then Some(teams[0])
    else FindMembership(teams[1..], teamId)
  }

  // ----- Tier 2: the policy for user rows

  predicate IsTeamMember(actor: Subject, teamId: int) {
    FindMembership(actor.teams, teamId).Some?
  }

  predicate IsTeamOwner(actor: Subject, teamId: int) {
    var m := FindMembership(actor.teams, teamId);
    m.Some? && m.value.role == LEADER
  }

  /** What the policy looks at in a user row. */
  datatype Resource = Resource(id: int, teamId: int)

  predicate IsSelf(actor: Subject, resource: Resource) {
    actor.id == resource.id
  }

  predicate CanCreate(actor: Subject, teamId: int) {
    IsTeamOwner(actor, teamId)
  }

  predicate CanRead(actor: Subject, resource: Resource) {
    IsTeamMember(actor, resource.teamId)
  }

  predicate CanUpdate(actor: Subject, resource: Resource) {
    IsTeamOwner(actor, resource.teamId) || IsSelf(actor, resource)
  }

  predicate CanDelete(actor: Subject, resource: Resource) {
    IsTeamOwner(actor, resource.teamId) && !IsSelf(actor, resource)
  }

  predicate Authorize(actor: Subject, action: Act, resource: Resource) {
    IsSuper(actor) ||
    match action
    case Read => CanRead(actor, resource)
    case Update => CanUpdate(actor, resource)
    case Delete => CanDelete(actor, resource)
    case _ => false
  }

  predicate AuthorizeCreate(actor: Subject, teamId: int) {
    IsSuper(actor) || CanCreate(actor, teamId)
  }

  predicate AuthorizeChangeRole(actor: Subject, resource: Resource) {
    IsSuper(actor) || (IsTeamOwner(actor, resource.teamId) && !IsSelf(actor, resource))
  }

  // ----- Tier 1: the capability matrix

  type Matrix = map<string, map<string, seq<Act>>>

  const IDENTITY_ROLE_MATRIX: Matrix := map["RED" := map["user" := [Manage]], "BLUE" := map["user" := [Read]]]

  /** The matrix keys of a subject: its role name in capitals, if it has one. */
  function ResolveAccessRoles(subject: Subject): seq<string> {
    if subject.roleName.Some? && subject.roleName.value != "" then [UpperCase(subject.roleName.value)] else []
  }

  /** A role's actions on a resource type; the type `*` stands in for types that are not listed. */
  predicate RoleAllows(matrix: Matrix, role: string, action: Act, resourceType: string) {
    role in matrix &&
    var byResource := matrix[role];
    var actions := if resourceType in byResource then Some(byResource[resourceType])
                   else if "*" in byResource then Some(byResource["*"]) else None;
    actions.Some? && (action in actions.value || Manage in actions.value || Custom("*") in actions.value)
  }

  predicate Can(matrix: Matrix, subject: Subject, action: Act, resourceType: string) {
    exists role :: role in ResolveAccessRoles(subject) && RoleAllows(matrix, role, action, resourceType)
  }

  datatype Route = Route(isPublic: bool, requirement: Option<(Act, string)>)

  /** Routes that declare nothing are closed; SUPER passes every declared one. */
  predicate PolicyGuard(matrix: Matrix, route: Route, user: Option<Subject>) {
    route.isPublic ||
    (&& route.requirement.Some?
     && user.Some?
     && (IsSuper(user.value) || Can(matrix, user.value, route.requirement.value.0, route.requirement.value.1)))
  }

  // ----- What the parts mean, said without them

  /** The first membership counts: a later one for the same team changes nothing. */
  lemma {:induction false} FirstMembershipCounts(teams: seq<Membership>, teamId: int)
    ensures FindMembership(teams, teamId).None? <==> forall m :: m in teams ==> m.teamId != teamId
    ensures forall role ::
              FindMembership(teams, teamId) == Some(Membership(teamId, role)) <==>
              exists i :: 0 <= i < |teams| && teams[i] == Membership(teamId, role)
                          && forall j :: 0 <= j < i ==> teams[j].teamId != teamId
  {
    if teams != [] {
      var rest := teams[1..];
      FirstMembershipCounts(rest, teamId);
      assert teams == [teams[0]] + rest;
      forall role ensures
        (exists i :: 0 <= i < |teams| && teams[i] == Membership(teamId, role)
                     && forall j :: 0 <= j < i ==> teams[j].teamId != teamId)
        <==> FindMembership(teams, teamId) == Some(Membership(teamId, role))
      {
        if teams[0].teamId != teamId {
          if i :| 0 <= i < |rest| && rest[i] == Membership(teamId, role) && forall j :: 0 <= j < i ==> rest[j].teamId != teamId {
            assert teams[i + 1] == rest[i];
            assert forall j :: 0 <= j < i + 1 ==> teams[j].teamId != teamId;
          }
          if i :| 0 <= i < |teams| && teams[i] == Membership(teamId, role) && forall j :: 0 <= j < i ==> teams[j].teamId != teamId {
            assert i > 0 && rest[i - 1] == teams[i];
            assert forall j :: 0 <= j < i - 1 ==> rest[j].teamId == teams[j + 1].teamId;
          }
        } else if FindMembership(teams, teamId) == Some(Membership(teamId, role)) {
          assert teams[0] == Membership(teamId, role);
        }
      }
    }
  }

  /** A team is owned by those whose first membership in it is that of a leader. */
  lemma OwnersLead(actor: Subject, teamId: int)
    ensures IsTeamOwner(actor, teamId) <==>
            exists i :: 0 <= i < |actor.teams| && actor.teams[i] == Membership(teamId, LEADER)
                        && forall j :: 0 <= j < i ==> actor.teams[j].teamId != teamId
  {
    FirstMembershipCounts(actor.teams, teamId);
    FoundIsOfTeam(actor.teams, teamId);
  }

  lemma {:induction false} FoundIsOfTeam(teams: seq<Membership>, teamId: int)
    ensures var m := FindMembership(teams, teamId); m.Some? ==> m.value.teamId == teamId
  {
    if teams != [] { FoundIsOfTeam(teams[1..], teamId); }
  }

  /** In any matrix, a listed type hides the wildcard type, and managing or the wildcard action allows every action. */
  lemma Wildcards(matrix: Matrix, role: string, action: Act, resourceType: string)
    ensures role !in matrix ==> !RoleAllows(matrix, role, action, resourceType)
    ensures role in matrix && resourceType in matrix[role] ==>
              (RoleAllows(matrix, role, action, resourceType) <==>
                 exists a :: a in matrix[role][resourceType] && (a == action || a == Manage || a == Custom("*")))
    ensures role in matrix && resourceType !in matrix[role] && "*" in matrix[role] ==>
              (RoleAllows(matrix, role, action, resourceType) <==>
                 exists a :: a in matrix[role]["*"] && (a == action || a == Manage || a == Custom("*")))
    ensures role in matrix && resourceType !in matrix[role] && "*" !in matrix[role] ==>
              !RoleAllows(matrix, role, action, resourceType)
  {
  }

  /** Public routes are open to everyone; a route that declares nothing is closed even to SUPER; nobody passes unknown. */
  lemma RoutesAreClosedByDefault(matrix: Matrix, requirement: Option<(Act, string)>, user: Option<Subject>)
    ensures PolicyGuard(matrix, Route(true, requirement), user)
    ensures !PolicyGuard(matrix, Route(false, None), user)
    ensures !PolicyGuard(matrix, Route(false, requirement), None)
    ensures requirement.Some? && user.Some? && SUPER in user.value.globalRoles ==>
              PolicyGuard(matrix, Route(false, requirement), user)
  {
  }
}
