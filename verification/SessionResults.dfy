/** What one call of each session use case gives its caller, and whom it leaves alone. */
module SessionResults {
  import opened Wrappers
  import opened Authentication
  import opened AuthenticationSafety
  import opened RotationTheorems

  /** The user's organization is stored, not deleted and active. */
  ghost predicate IsInActiveOrganization(s: State, user: User) {
    && user.organization.Some? && user.organization.value in s.organizations
    && !s.organizations[user.organization.value].deleted
    && s.organizations[user.organization.value].status == ActiveOrganization
  }

  ghost predicate MayAuthenticate(s: State, u: Id) {
    && u in s.users && !s.users[u].deleted && s.users[u].status == ActiveUser
    && (s.users[u].isSuperAdmin || s.users[u].organization.None? || IsInActiveOrganization(s, s.users[u]))
  }

  /** The pair is the only way into its session: refreshable and accepted until each expires. */
  ghost predicate GivesAccess(s: State, pair: TokenPair, u: Id, now: Time, policy: Policy) {
    && (forall at :: Refreshable(s, pair.refreshToken, at) <==> at < now + policy.refreshSeconds)
    && (forall at :: AccessAccepted(s, pair.claims, at) <==> at < now + policy.accessSeconds)
    && pair.claims.sub == u && pair.refreshToken in s.tokens
    && s.tokens[pair.refreshToken].sessionId == pair.claims.sid
    && pair.claims.sid in s.sessions && s.sessions[pair.claims.sid].userId == u
  }

  /** Nothing but the rows named differs, and no row went away. */
  ghost predicate OnlyChanges(s: State, s': State, tokens: set<Id>, sessions: set<Id>) {
    && s'.users == s.users
    && (forall id :: id in s.tokens && id !in tokens ==> id in s'.tokens && s'.tokens[id] == s.tokens[id])
    && (forall id :: id in s.sessions && id !in sessions ==> id in s'.sessions && s'.sessions[id] == s.sessions[id])
  }

  /**
   Login succeeds exactly for a matching password of an active user whose organization
   allows it; it opens a session in which the pair works, and that session is then the
   user's only active one. A refused login changes nothing.
   */
  lemma LoginResult(s: State, u: Id, hasPassword: bool, matches: bool, now: Time, policy: Policy)
    requires Inv(s)
    ensures var (s', r) := Login(s, u, hasPassword, matches, now, policy);
            && (r.Ok? <==> hasPassword && matches && MayAuthenticate(s, u))
            && (r.Err? ==> s' == s)
            && (r.Ok? ==>
                  && GivesAccess(s', r.value, u, now, policy) && r.value.claims.sid !in s.sessions
                  && s'.tokens[r.value.refreshToken].rotatedFrom.None?
                  && s'.sessions[r.value.claims.sid] == SessionRow(u, now, now, now, None)
                  && (forall id :: id in s'.sessions && s'.sessions[id].userId == u ==>
                        (s'.sessions[id].IsActive() <==> id == r.value.claims.sid)))
  {
    var (s', r) := Login(s, u, hasPassword, matches, now, policy);
    LoginKeepsInv(s, u, hasPassword, matches, now, policy);
    if r.Ok? {
      OpenedSession(RevokeAllUserSessions(s, u, now), u, now, policy);
    }
  }

  lemma OpenedSession(s: State, u: Id, now: Time, policy: Policy)
    ensures var (s', pair) := OpenSession(s, u, now, policy);
            && GivesAccess(s', pair, u, now, policy)
            && pair.claims.sid == s.nextId && s'.sessions[s.nextId].IsActive()
  {
  }

  /** Why a login is refused, in the order in which it looks. */
  lemma LoginRefusal(s: State, u: Id, hasPassword: bool, matches: bool, now: Time, policy: Policy)
    ensures var r := Login(s, u, hasPassword, matches, now, policy).1;
            var known := u in s.users && !s.users[u].deleted && hasPassword;
            && (!known ==> r == Err(InvalidCredentials))
            && (known && s.users[u].status == InactiveUser ==> r == Err(UserNotActive))
            && (known && s.users[u].status in {SuspendedUser, LockedUser} ==> r == Err(UserLocked))
            && (known && s.users[u].status == ActiveUser && r.Err? ==> r == Err(InvalidCredentials))
  {
  }

  /** Another user's login changes none of one's tokens or sessions. */
  lemma LoginLeavesOthers(s: State, u: Id, hasPassword: bool, matches: bool, now: Time, policy: Policy)
    requires Inv(s)
    ensures OnlyChanges(s, Login(s, u, hasPassword, matches, now, policy).0, TokensOf(s, {u}, now), SessionsOf(s, {u}))
  {
  }

  /**
   Refresh succeeds exactly on a refreshable token whose owner may authenticate. The pair it
   gives then works in the same session, the old token no longer does, and every other token
   and session is as before.
   */
  lemma RefreshResult(s: State, raw: Id, now: Time, policy: Policy)
    requires Inv(s)
    ensures var (s', r) := Refresh(s, raw, now, policy);
            && (r.Ok? <==> Refreshable(s, raw, now) && MayAuthenticate(s, OwnerOf(s, raw)))
            && (r.Ok? ==>
                  && GivesAccess(s', r.value, OwnerOf(s, raw), now, policy)
                  && r.value.refreshToken !in s.tokens && r.value.claims.sid == s.tokens[raw].sessionId
                  && s'.tokens[r.value.refreshToken].rotatedFrom == Some(raw)
                  && s'.tokens[r.value.refreshToken].familyId == s.tokens[raw].familyId
                  && s'.sessions[s.tokens[raw].sessionId] ==
                       s.sessions[s.tokens[raw].sessionId].(lastActivityAt := now, updatedAt := now)
                  && SpentToken(s.tokens[raw], s'.tokens[raw], now))
  {
    var r := Refresh(s, raw, now, policy).1;
    if r.Ok? {
      RotatedPair(s, raw, now, policy);
    }
  }

  /** The old token is used and revoked now, for rotation, and otherwise as it was. */
  ghost predicate SpentToken(before: TokenRow, after: TokenRow, now: Time) {
    && after.usedAt == after.revokedAt == Some(now) && after.revokedReason == Some(Rotated)
    && after == before.(usedAt := after.usedAt, revokedAt := after.revokedAt, revokedReason := after.revokedReason)
  }

  lemma RotatedPair(s: State, raw: Id, now: Time, policy: Policy)
    requires Inv(s) && Refreshable(s, raw, now)
    ensures var (s', pair) := Rotate(s, raw, now, policy);
            && GivesAccess(s', pair, OwnerOf(s, raw), now, policy)
            && pair.refreshToken == s.nextId && pair.claims.sid == s.tokens[raw].sessionId
            && s'.tokens[s.nextId].rotatedFrom == Some(raw)
            && s'.tokens[s.nextId].familyId == s.tokens[raw].familyId
            && s'.sessions[s.tokens[raw].sessionId] ==
                 s.sessions[s.tokens[raw].sessionId].(lastActivityAt := now, updatedAt := now)
            && SpentToken(s.tokens[raw], s'.tokens[raw], now)
  {
  }

  /** Why a refresh is refused, in the order in which it looks. */
  lemma RefreshRefusal(s: State, raw: Id, now: Time, policy: Policy)
    requires Inv(s)
    ensures var r := Refresh(s, raw, now, policy).1;
            && (raw !in s.tokens ==> r == Err(InvalidRefreshToken))
            && (raw in s.tokens ==>
                  var token, owner := s.tokens[raw], OwnerOf(s, raw);
                  var spent := token.usedAt.Some? || token.revokedAt.Some?;
                  var live := !spent && now < token.expiresAt && s.sessions[token.sessionId].revokedAt.None?;
                  && (spent ==> r == Err(RevokedRefreshToken))
                  && (!spent && token.expiresAt <= now ==> r == Err(ExpiredRefreshToken))
                  && (!spent && now < token.expiresAt && !live ==> r == Err(InvalidRefreshToken))
                  && (live && (owner !in s.users || s.users[owner].deleted) ==> r == Err(InvalidRefreshToken))
                  && (live && owner in s.users && !s.users[owner].deleted ==>
                        && (s.users[owner].status == InactiveUser ==> r == Err(UserNotActive))
                        && (s.users[owner].status in {SuspendedUser, LockedUser} ==> r == Err(UserLocked))
                        && (s.users[owner].status == ActiveUser && r.Err? ==> r == Err(InvalidRefreshToken))))
  {
  }

  /** The two refusals that close the session of the token presented. */
  ghost predicate Revokes(s: State, raw: Id, now: Time)
    requires raw in s.tokens && s.tokens[raw].sessionId in s.sessions
  {
    var token := s.tokens[raw];
    var session := s.sessions[token.sessionId];
    var user := FindUser(s, session.userId);
    || token.IsUsed() || token.IsRevoked()
    || (&& !token.IsExpired(now) && session.IsActive() && user.Some? && CannotAuthenticate(user.value).None?
        && !OrganizationAllows(s, user.value))
  }

  /** A refusal for the organization's sake revokes the token presented for that reason, and its session. */
  lemma OrganizationRefusal(s: State, raw: Id, now: Time, policy: Policy)
    requires Inv(s) && Refreshable(s, raw, now) && OwnerOf(s, raw) in s.users
    requires var user := s.users[OwnerOf(s, raw)];
             && !user.deleted && user.status == ActiveUser && !user.isSuperAdmin && user.organization.Some?
             && !IsInActiveOrganization(s, user)
    ensures var (s', r) := Refresh(s, raw, now, policy);
            && r == Err(InvalidRefreshToken)
            && s'.tokens[raw] == s.tokens[raw].(revokedAt := Some(now), revokedReason := Some(OrganizationSuspended))
            && s'.sessions[s.tokens[raw].sessionId].revokedAt == Some(now)
  {
  }

  lemma RevokingRefusal(s: State, raw: Id, now: Time, policy: Policy)
    requires Inv(s) && raw in s.tokens && Revokes(s, raw, now)
    ensures var s' := Refresh(s, raw, now, policy).0;
            && s'.tokens.Keys == s.tokens.Keys && s'.sessions.Keys == s.sessions.Keys
            && !s'.sessions[s.tokens[raw].sessionId].IsActive()
  {
    var row := RefreshShape(s, raw, now, policy);
    RevokeOneKeepsInv(s, raw, row, now);
  }

  lemma HarmlessRefusal(s: State, raw: Id, now: Time, policy: Policy)
    requires Inv(s) && raw in s.tokens && !Revokes(s, raw, now) && Refresh(s, raw, now, policy).1.Err?
    ensures Refresh(s, raw, now, policy).0 == s
  {
  }

  /** A refused refresh adds nothing, and closes the session exactly on replay or in a closed organization. */
  lemma RefusedRefresh(s: State, raw: Id, now: Time, policy: Policy)
    requires Inv(s) && Refresh(s, raw, now, policy).1.Err?
    ensures var s' := Refresh(s, raw, now, policy).0;
            && s'.tokens.Keys == s.tokens.Keys && s'.sessions.Keys == s.sessions.Keys
            && (raw !in s.tokens ==> s' == s)
            && (raw in s.tokens ==>
                  var sid := s.tokens[raw].sessionId;
                  s'.sessions[sid].IsActive() <==> s.sessions[sid].IsActive() && !Revokes(s, raw, now))
  {
    if raw in s.tokens {
      if Revokes(s, raw, now) {
        RevokingRefusal(s, raw, now, policy);
      } else {
        HarmlessRefusal(s, raw, now, policy);
      }
    }
  }

  /** The first replay of a spent token is recorded with its time and reason; later ones leave that record. */
  lemma ReplayIsRecorded(s: State, raw: Id, first: Time, again: Time, policy: Policy)
    requires raw in s.tokens && (s.tokens[raw].IsUsed() || s.tokens[raw].IsRevoked())
    requires s.tokens[raw].reuseDetectedAt.None?
    ensures var s1 := Refresh(s, raw, first, policy).0;
            var s2 := Refresh(s1, raw, again, policy).0;
            && s1.tokens[raw].reuseDetectedAt == s1.tokens[raw].revokedAt == Some(first)
            && s1.tokens[raw].revokedReason == Some(ReuseDetected)
            && s2.tokens[raw] == s1.tokens[raw]
            && Refresh(s1, raw, again, policy).1 == Err(RevokedRefreshToken)
  {
  }

  lemma RefreshLeavesOthers(s: State, raw: Id, now: Time, policy: Policy)
    requires Inv(s)
    ensures OnlyChanges(s, Refresh(s, raw, now, policy).0,
                        {raw}, if raw in s.tokens then {s.tokens[raw].sessionId} else {})
  {
  }

  /** Logout closes the token's session, so that nothing of the session works any more, and touches no other. */
  lemma LogoutResult(s: State, raw: Id, now: Time, other: Id, claims: AccessClaims, at: Time)
    requires Inv(s) && raw in s.tokens
    requires other in s.tokens && s.tokens[other].familyId == s.tokens[raw].familyId
    requires claims.sid == s.tokens[raw].sessionId
    ensures var s' := Logout(s, raw, now);
            && !Refreshable(s', other, at) && !AccessAccepted(s', claims, at)
            && s'.tokens[raw].IsRevoked()
            && (s.tokens[raw].revokedAt.None? ==>
                  s'.tokens[raw] == s.tokens[raw].(revokedAt := Some(now), revokedReason := Some(LoggedOut)))
            && (s.sessions[s.tokens[raw].sessionId].revokedAt.None? ==>
                  s'.sessions[s.tokens[raw].sessionId] ==
                  s.sessions[s.tokens[raw].sessionId].(revokedAt := Some(now), updatedAt := now))
            && OnlyChanges(s, s', {raw}, {s.tokens[raw].sessionId})
  {
    assert s.tokens[other].sessionId == s.tokens[raw].sessionId;
  }

  /** Revoking everything of some users closes all their sessions and touches nobody else's. */
  lemma RevokeOwnersResult(s: State, owners: set<Id>, now: Time, reason: RevokeReason)
    requires Inv(s)
    ensures var s' := RevokeOwners(s, owners, now, reason);
            && (forall id :: id in s.sessions && s.sessions[id].userId in owners ==> !s'.sessions[id].IsActive())
            && (forall id, at ::
                  id in s.tokens && OwnerOf(s, id) in owners && now <= at ==> !s'.tokens[id].IsUsable(at))
            && OnlyChanges(s, s', TokensOf(s, owners, now), SessionsOf(s, owners))
  {
  }

  /** Row by row: who is revoked, when and why, and that nobody else is. */
  lemma RevokedRow(s: State, owners: set<Id>, now: Time, reason: RevokeReason, id: Id)
    requires Inv(s)
    ensures var s' := RevokeOwners(s, owners, now, reason);
            && (id in s.sessions ==>
                  id in s'.sessions && s'.sessions[id] ==
                  if s.sessions[id].userId in owners && s.sessions[id].revokedAt.None?
                  then s.sessions[id].(revokedAt := Some(now), updatedAt := now) else s.sessions[id])
            && (id in s.tokens ==>
                  id in s'.tokens && s'.tokens[id] ==
                  if OwnerOf(s, id) in owners && s.tokens[id].revokedAt.None? && s.tokens[id].usedAt.None?
                     && now < s.tokens[id].expiresAt
                  then s.tokens[id].(revokedAt := Some(now), revokedReason := Some(reason)) else s.tokens[id])
  {
  }

  lemma RevokeAllResult(s: State, u: Id, now: Time, id: Id)
    requires Inv(s)
    ensures RevokeAllUserSessions(s, u, now) == RevokeOwners(s, {u}, now, SessionRevoked)
    ensures id in s.sessions && s.sessions[id].userId == u ==>
              RevokeAllUserSessions(s, u, now).sessions[id].revokedAt.Some?
    ensures id in s.tokens && OwnerOf(s, id) == u && s.tokens[id].IsUsable(now) ==>
              RevokeAllUserSessions(s, u, now).tokens[id].revokedReason == Some(SessionRevoked)
  {
    RevokedRow(s, {u}, now, SessionRevoked, id);
  }

  /** An access token passes for its own session and that session's user only. */
  lemma AccessIsOwners(s: State, claims: AccessClaims, now: Time)
    requires AccessAccepted(s, claims, now)
    ensures now < claims.exp && claims.sid in s.sessions
    ensures s.sessions[claims.sid].userId == claims.sub && s.sessions[claims.sid].revokedAt.None?
  {
  }
}
