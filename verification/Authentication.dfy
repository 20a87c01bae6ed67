/**
 Sessions and refresh-token rotation: login, refresh, logout, revoke-all and organization
 suspension, as functions from one table state to the next.

 Identifiers are drawn from a counter, so a new one names no existing row. A raw refresh
 token is created fresh and its hash is injective, so a raw token is named here by the id
 of the row it was issued for; a raw token that was never issued names no row.
 */
module Authentication {
  import opened Wrappers

  type Id = nat
  type Time = int

  datatype UserStatus = ActiveUser | InactiveUser | SuspendedUser | LockedUser

  datatype User = User(status: UserStatus, deleted: bool, isSuperAdmin: bool, organization: Option<Id>)

  datatype OrganizationStatus = PendingActivation | ActiveOrganization | SuspendedOrganization | ArchivedOrganization

  datatype Organization = Organization(status: OrganizationStatus, deleted: bool) {
    predicate IsActive() {
      !deleted && status.ActiveOrganization?
    }
  }

  datatype SessionRow = SessionRow(
    userId: Id, createdAt: Time, updatedAt: Time, lastActivityAt: Time, revokedAt: Option<Time>)
  {
    predicate IsActive() {
      revokedAt.None?
    }

    function Revoked(at: Time): SessionRow {
      this.(revokedAt := Some(at), updatedAt := at)
    }
  }

  datatype RevokeReason = Rotated | LoggedOut | SessionRevoked | OrganizationSuspended | ReuseDetected

  datatype TokenRow = TokenRow(
    sessionId: Id, familyId: Id, expiresAt: Time, createdAt: Time,
    rotatedFrom: Option<Id>, usedAt: Option<Time>, revokedAt: Option<Time>,
    revokedReason: Option<RevokeReason>, reuseDetectedAt: Option<Time>)
  {
    predicate IsUsed() {
      usedAt.Some?
    }

    predicate IsRevoked() {
      revokedAt.Some?
    }

    predicate IsExpired(at: Time) {
      expiresAt <= at
    }

    predicate IsUsable(at: Time) {
      !IsRevoked() && !IsUsed() && !IsExpired(at)
    }

    function Revoked(at: Time, reason: RevokeReason): TokenRow {
      this.(revokedAt := Some(at), revokedReason := Some(reason))
    }
  }

  datatype State = State(
    users: map<Id, User>,
    organizations: map<Id, Organization>,
    sessions: map<Id, SessionRow>,
    tokens: map<Id, TokenRow>,
    nextId: Id)

  datatype AuthError =
    | InvalidCredentials
    | UserNotActive
    | UserLocked
    | InvalidRefreshToken
    | RevokedRefreshToken
    | ExpiredRefreshToken

  /** A new token pair: the raw refresh token and the claims of the access token. */
  datatype TokenPair = TokenPair(refreshToken: Id, claims: AccessClaims)

  datatype AccessClaims = AccessClaims(sub: Id, sid: Id, exp: Time)

  datatype Policy = Policy(refreshSeconds: int, accessSeconds: int)

  // ---- lookups and guards

  /** A user row as the repository returns it: soft-deleted users are not found. */
  function FindUser(s: State, u: Id): Option<User> {
    if u in s.users && !s.users[u].deleted then Some(s.users[u]) else None
  }

  function CannotAuthenticate(user: User): Option<AuthError> {
    if user.deleted || user.status.InactiveUser? then Some(UserNotActive)
    else if user.status.LockedUser? || user.status.SuspendedUser? then Some(UserLocked)
    else None
  }

  predicate OrganizationAllows(s: State, user: User) {
    user.isSuperAdmin || user.organization.None? ||
    (user.organization.value in s.organizations && s.organizations[user.organization.value].IsActive())
  }

  // ---- revocation

  function RevokeTokens(tokens: map<Id, TokenRow>, ids: set<Id>, at: Time, reason: RevokeReason): map<Id, TokenRow> {
    map id | id in tokens :: if id in ids then tokens[id].Revoked(at, reason) else tokens[id]
  }

  function RevokeSessions(sessions: map<Id, SessionRow>, ids: set<Id>, at: Time): map<Id, SessionRow> {
    map id | id in sessions :: if id in ids then sessions[id].Revoked(at) else sessions[id]
  }

  function SessionsOf(s: State, owners: set<Id>): set<Id> {
    set id | id in s.sessions && s.sessions[id].IsActive() && s.sessions[id].userId in owners
  }

  function TokensOf(s: State, owners: set<Id>, now: Time): set<Id> {
    set id | id in s.tokens && s.tokens[id].IsUsable(now) &&
             s.tokens[id].sessionId in s.sessions && s.sessions[s.tokens[id].sessionId].userId in owners
  }

  function RevokeOwners(s: State, owners: set<Id>, now: Time, reason: RevokeReason): State {
    s.(tokens := RevokeTokens(s.tokens, TokensOf(s, owners, now), now, reason),
       sessions := RevokeSessions(s.sessions, SessionsOf(s, owners), now))
  }

  function RevokeAllUserSessions(s: State, u: Id, now: Time): State {
    RevokeOwners(s, {u}, now, SessionRevoked)
  }

  /** The users the organization query joins: not super admins and not soft-deleted. */
  function ReachableMembers(s: State, org: Id): set<Id> {
    set u | u in s.users && s.users[u].organization == Some(org) && !s.users[u].isSuperAdmin && !s.users[u].deleted
  }

  function RevokeOrganizationSessions(s: State, org: Id, now: Time): State {
    RevokeOwners(s, ReachableMembers(s, org), now, OrganizationSuspended)
  }

  function RevokeSessionIfActive(s: State, sid: Id, now: Time): State {
    if sid in s.sessions && s.sessions[sid].IsActive()
    then s.(sessions := s.sessions[sid := s.sessions[sid].Revoked(now)])
    else s
  }

  // ---- use cases

  function Issue(s: State, u: Id, sid: Id, family: Id, rotatedFrom: Option<Id>, now: Time, policy: Policy)
    : (State, TokenPair)
  {
    var token := TokenRow(sid, family, now + policy.refreshSeconds, now, rotatedFrom, None, None, None, None);
    (s.(tokens := s.tokens[s.nextId := token], nextId := s.nextId + 1),
     TokenPair(s.nextId, AccessClaims(u, sid, now + policy.accessSeconds)))
  }

  /** A new session with the first token of a new family. */
  function OpenSession(s: State, u: Id, now: Time, policy: Policy): (State, TokenPair) {
    var sid, family := s.nextId, s.nextId + 1;
    var started := s.(
      sessions := s.sessions[sid := SessionRow(u, now, now, now, None)],
      nextId := s.nextId + 2);
    Issue(started, u, sid, family, None, now, policy)
  }

  /** The token is used up and its successor issued in the same session and family. */
  function Rotate(s: State, raw: Id, now: Time, policy: Policy): (State, TokenPair)
    requires raw in s.tokens && s.tokens[raw].sessionId in s.sessions
  {
    var token := s.tokens[raw];
    var session := s.sessions[token.sessionId];
    var rotated := s.(
      tokens := s.tokens[raw := token.(usedAt := Some(now)).Revoked(now, Rotated)],
      sessions := s.sessions[token.sessionId := session.(lastActivityAt := now, updatedAt := now)]);
    Issue(rotated, session.userId, token.sessionId, token.familyId, Some(raw), now, policy)
  }

  function Login(s: State, u: Id, hasPassword: bool, passwordMatches: bool, now: Time, policy: Policy)
    : (State, Result<TokenPair, AuthError>)
  {
    var user := FindUser(s, u);
    if user.None? || !hasPassword then (s, Err(InvalidCredentials))
    else if CannotAuthenticate(user.value).Some? then (s, Err(CannotAuthenticate(user.value).value))
    else if !OrganizationAllows(s, user.value) || !passwordMatches then (s, Err(InvalidCredentials))
    else
      var (issued, pair) := OpenSession(RevokeAllUserSessions(s, u, now), u, now, policy);
      (issued, Ok(pair))
  }

  function MarkReuse(token: TokenRow, now: Time): TokenRow {
    if token.reuseDetectedAt.None?
    then token.(reuseDetectedAt := Some(now)).Revoked(now, ReuseDetected) else token
  }

  function Refresh(s: State, raw: Id, now: Time, policy: Policy): (State, Result<TokenPair, AuthError>) {
    if raw !in s.tokens then (s, Err(InvalidRefreshToken))
    else
      var token := s.tokens[raw];
      var sid := token.sessionId;
      if token.IsUsed() || token.IsRevoked() then
        (RevokeSessionIfActive(s.(tokens := s.tokens[raw := MarkReuse(token, now)]), sid, now),
         Err(RevokedRefreshToken))
      else if token.IsExpired(now) then (s, Err(ExpiredRefreshToken))
      else if sid !in s.sessions || !s.sessions[sid].IsActive() then (s, Err(InvalidRefreshToken))
      else
        var u := s.sessions[sid].userId;
        var user := FindUser(s, u);
        if user.None? then (s, Err(InvalidRefreshToken))
        else if CannotAuthenticate(user.value).Some? then (s, Err(CannotAuthenticate(user.value).value))
        else if !OrganizationAllows(s, user.value) then
          var revoked := s.(tokens := s.tokens[raw := token.Revoked(now, OrganizationSuspended)]);
          (RevokeSessionIfActive(revoked, sid, now), Err(InvalidRefreshToken))
        else
          var (issued, pair) := Rotate(s, raw, now, policy);
          (issued, Ok(pair))
  }

  function Logout(s: State, raw: Id, now: Time): State {
    if raw !in s.tokens then s
    else
      var token := s.tokens[raw];
      var revoked := if token.IsRevoked() then s
                     else s.(tokens := s.tokens[raw := token.Revoked(now, LoggedOut)]);
      RevokeSessionIfActive(revoked, token.sessionId, now)
  }

  datatype SuspendError = OrganizationNotFound | OrganizationNotActive

  function SuspendOrganization(s: State, org: Id, now: Time): (State, Result<(), SuspendError>) {
    if org !in s.organizations || s.organizations[org].deleted then (s, Err(OrganizationNotFound))
    else if !s.organizations[org].status.ActiveOrganization? then (s, Err(OrganizationNotActive))
    else
      var suspended := s.(organizations :=
        s.organizations[org := s.organizations[org].(status := SuspendedOrganization)]);
      (RevokeOrganizationSessions(suspended, org, now), Ok(()))
  }

  /** The session check behind every access token. */
  predicate AccessAccepted(s: State, claims: AccessClaims, now: Time) {
    && now < claims.exp
    && claims.sid in s.sessions
    && s.sessions[claims.sid].IsActive()
    && s.sessions[claims.sid].userId == claims.sub
  }

  /**
   Everything that can happen to the tables. EditUser and EditOrganization stand for all
   the routes that change users and organizations, and may write anything.
   */
  datatype Event =
    | LoginEvent(user: Id, hasPassword: bool, passwordMatches: bool)
    | RefreshEvent(raw: Id)
    | LogoutEvent(raw: Id)
    | RevokeAllEvent(user: Id)
    | SuspendEvent(organization: Id)
    | EditUser(user: Id, newUser: User)
    | EditOrganization(organization: Id, newOrganization: Organization)

  datatype Timed = Timed(event: Event, now: Time, policy: Policy)

  function Next(s: State, e: Timed): State {
    match e.event
    case LoginEvent(u, hasPassword, matches) => Login(s, u, hasPassword, matches, e.now, e.policy).0
    case RefreshEvent(raw) => Refresh(s, raw, e.now, e.policy).0
    case LogoutEvent(raw) => Logout(s, raw, e.now)
    case RevokeAllEvent(u) => RevokeAllUserSessions(s, u, e.now)
    case SuspendEvent(org) => SuspendOrganization(s, org, e.now).0
    case EditUser(u, user) => s.(users := s.users[u := user])
    case EditOrganization(org, organization) => s.(organizations := s.organizations[org := organization])
  }

  function Run(s: State, events: seq<Timed>): State
    decreases |events|
  {
    if events == [] then s else Run(Next(s, events[0]), events[1..])
  }
}
