/** What the service signs into its tokens, and what the guard makes of a verified payload. */
module Tokens {
  import opened Common
  import opened AccessControl
  import opened Sessions
  import Identity
  import IdentityIntegrity

  /** A verified JWT payload; the fields an issuer may have left out are options. */
  datatype Payload = Payload(
    sub: int,
    jti: Option<string>,
    typ: Option<string>,
    epoch: Option<int>,
    globalRoles: Option<set<GlobalRole>>,
    teams: Option<seq<Membership>>,
    roleName: Option<string>,
    iat: nat)

  // ----- Signing

  function SignAccess(identity: Subject, at: AccessToken): Payload {
    Payload(identity.id, Some(at.jti), Some("access"), Some(at.epoch),
            Some(identity.globalRoles), Some(identity.teams), identity.roleName, at.iat)
  }

  function SignRefresh(rt: RefreshToken, iat: nat): Payload {
    Payload(rt.sub, Some(rt.jti), Some("refresh"), None, None, None, None, iat)
  }

  // ----- Reading

  /** An access token as the service issues it. */
  predicate WellTyped(p: Payload) {
    p.typ == Some("access") && p.jti.Some? && p.jti.value != ""
  }

  /** The epoch of a payload without one counts as 0. */
  function AsToken(p: Payload): AccessToken
    requires WellTyped(p)
  {
    AccessToken(p.sub, p.jti.value, if p.epoch.Some? then p.epoch.value else 0, p.iat)
  }

  /** The authenticated subject and the jti of its token. */
  datatype Authenticated = Authenticated(subject: Subject, jti: string)

  /** Missing roles and teams count as none. */
  function SubjectOf(p: Payload): Authenticated
    requires WellTyped(p)
  {
    Authenticated(
      Subject(p.sub,
              if p.globalRoles.Some? then p.globalRoles.value else {},
              if p.teams.Some? then p.teams.value else [],
              p.roleName),
      p.jti.value)
  }

  // ----- Both together

  /** What was signed for an identity is read back as that very identity and that very token. */
  lemma SignedTokenReadsBack(identity: Subject, at: AccessToken)
    requires at.sub == identity.id && at.jti != ""
    ensures WellTyped(SignAccess(identity, at))
    ensures AsToken(SignAccess(identity, at)) == at
    ensures SubjectOf(SignAccess(identity, at)) == Authenticated(identity, at.jti)
  {
  }

  /**
   From the tables to the request: on tables with integrity, the token signed for an active user authenticates
   that user, with the global roles, team and position of its row and the name of the role above its team.
   */
  lemma AuthenticatedIsTheRow(s: Identity.Store, id: int, at: AccessToken)
    requires IdentityIntegrity.Integrity(s) && Identity.ActiveUser(s, id) && at.sub == id && at.jti != ""
    ensures Identity.GetIdentity(s, id).Some?
    ensures var u, p := s.users[id], SignAccess(Identity.GetIdentity(s, id).value, at);
            && u.teamId in s.teams && s.teams[u.teamId].roleId in s.roles
            && WellTyped(p) && AsToken(p) == at
            && SubjectOf(p) ==
               Authenticated(Subject(id, u.globalRoles, [Membership(u.teamId, u.position)],
                                     Some(s.roles[s.teams[u.teamId].roleId].name)), at.jti)
  {
    IdentityIntegrity.ActiveUsersHaveIdentities(s, id);
    SignedTokenReadsBack(Identity.GetIdentity(s, id).value, at);
  }

  /** A refresh token never passes for an access token, nor does a payload without type or jti. */
  lemma OnlyAccessTokensAreWellTyped(p: Payload, rt: RefreshToken, iat: nat)
    ensures !WellTyped(SignRefresh(rt, iat))
    ensures p.typ.None? || p.jti.None? || p.jti == Some("") ==> !WellTyped(p)
  {
    assert "refresh" != "access" by { assert |"refresh"| != |"access"|; }
  }
}
