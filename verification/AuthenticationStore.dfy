/**
 The session use cases as they update the tables in place. Each method is proved to reach
 exactly the state of the function of the same name in Authentication.
 */
module AuthenticationStore {
  import opened Wrappers
  import A = Authentication

  /** A loaded refresh-token row; changing it reaches the table only through Update. */
  class RefreshToken {
    const id: A.Id
    var row: A.TokenRow

    constructor (id: A.Id, row: A.TokenRow)
      ensures this.id == id && this.row == row
    {
      this.id, this.row := id, row;
    }

    method MarkUsed(at: A.Time)
      modifies this
      ensures row == old(row).(usedAt := Some(at))
    {
      row := row.(usedAt := Some(at));
    }

    method Revoke(at: A.Time, reason: A.RevokeReason)
      modifies this
      ensures row == old(row).Revoked(at, reason)
    {
      row := row.(revokedAt := Some(at), revokedReason := Some(reason));
    }

    method MarkReuseDetected(at: A.Time)
      modifies this
      ensures row == old(row).(reuseDetectedAt := Some(at)).Revoked(at, A.ReuseDetected)
    {
      row := row.(reuseDetectedAt := Some(at));
      Revoke(at, A.ReuseDetected);
    }

    /** Raises exactly when the token cannot be used at the given time. */
    method AssertUsable(at: A.Time) returns (error: Option<A.AuthError>)
      ensures error.None? <==> row.IsUsable(at)
      ensures error.Some? ==>
                error.value == if row.IsRevoked() || row.IsUsed() then A.RevokedRefreshToken else A.ExpiredRefreshToken
    {
      if row.IsRevoked() {
        return Some(A.RevokedRefreshToken);
      }
      if row.IsUsed() {
        return Some(A.RevokedRefreshToken);
      }
      if row.IsExpired(at) {
        return Some(A.ExpiredRefreshToken);
      }
      return None;
    }
  }

  class Session {
    const id: A.Id
    var row: A.SessionRow

    constructor (id: A.Id, row: A.SessionRow)
      ensures this.id == id && this.row == row
    {
      this.id, this.row := id, row;
    }

    method Revoke(at: A.Time)
      modifies this
      ensures row == old(row).Revoked(at)
    {
      row := row.(revokedAt := Some(at), updatedAt := at);
    }

    method RecordActivity(at: A.Time)
      modifies this
      ensures row == old(row).(lastActivityAt := at, updatedAt := at)
    {
      row := row.(lastActivityAt := at);
      row := row.(updatedAt := at);
    }
  }

  class Store {
    var users: map<A.Id, A.User>
    var organizations: map<A.Id, A.Organization>
    var sessions: map<A.Id, A.SessionRow>
    var tokens: map<A.Id, A.TokenRow>
    var nextId: nat

    function Snapshot(): A.State
      reads this
    {
      A.State(users, organizations, sessions, tokens, nextId)
    }

    constructor (users: map<A.Id, A.User>, organizations: map<A.Id, A.Organization>)
      ensures Snapshot() == A.State(users, organizations, map[], map[], 0)
    {
      this.users, this.organizations := users, organizations;
      sessions, tokens, nextId := map[], map[], 0;
    }

    method UpdateToken(token: RefreshToken)
      requires token.id in tokens
      modifies this`tokens
      ensures tokens == old(tokens)[token.id := token.row]
    {
      tokens := tokens[token.id := token.row];
    }

    method UpdateSession(session: Session)
      requires session.id in sessions
      modifies this`sessions
      ensures sessions == old(sessions)[session.id := session.row]
    {
      sessions := sessions[session.id := session.row];
    }

    method RevokeFoundTokens(found: set<A.Id>, now: A.Time, reason: A.RevokeReason)
      requires found <= tokens.Keys
      modifies this`tokens
      ensures tokens == A.RevokeTokens(old(tokens), found, now, reason)
    {
      var rest := found;
      while rest != {}
        invariant rest <= found <= tokens.Keys
        invariant tokens == A.RevokeTokens(old(tokens), found - rest, now, reason)
        decreases rest
      {
        var id :| id in rest;
        var token := new RefreshToken(id, tokens[id]);
        token.Revoke(now, reason);
        UpdateToken(token);
        rest := rest - {id};
      }
      assert found - rest == found;
    }

    method RevokeFoundSessions(found: set<A.Id>, now: A.Time)
      requires found <= sessions.Keys
      modifies this`sessions
      ensures sessions == A.RevokeSessions(old(sessions), found, now)
    {
      var rest := found;
      while rest != {}
        invariant rest <= found <= sessions.Keys
        invariant sessions == A.RevokeSessions(old(sessions), found - rest, now)
        decreases rest
      {
        var id :| id in rest;
        var session := new Session(id, sessions[id]);
        session.Revoke(now);
        UpdateSession(session);
        rest := rest - {id};
      }
      assert found - rest == found;
    }

    /** Both queries run before the two loops of a bulk revocation change anything. */
    method RevokeAll(owners: set<A.Id>, now: A.Time, reason: A.RevokeReason)
      returns (sessionsRevoked: nat, tokensRevoked: nat)
      modifies this`tokens, this`sessions
      ensures Snapshot() == A.RevokeOwners(old(Snapshot()), owners, now, reason)
      ensures sessionsRevoked == |A.SessionsOf(old(Snapshot()), owners)|
      ensures tokensRevoked == |A.TokensOf(old(Snapshot()), owners, now)|
    {
      var foundTokens := A.TokensOf(Snapshot(), owners, now);
      var foundSessions := A.SessionsOf(Snapshot(), owners);
      RevokeFoundTokens(foundTokens, now, reason);
      RevokeFoundSessions(foundSessions, now);
      return |foundSessions|, |foundTokens|;
    }

    method RevokeAllUserSessions(u: A.Id, now: A.Time) returns (sessionsRevoked: nat, tokensRevoked: nat)
      modifies this`tokens, this`sessions
      ensures Snapshot() == A.RevokeAllUserSessions(old(Snapshot()), u, now)
      ensures sessionsRevoked == |A.SessionsOf(old(Snapshot()), {u})|
      ensures tokensRevoked == |A.TokensOf(old(Snapshot()), {u}, now)|
    {
      sessionsRevoked, tokensRevoked := RevokeAll({u}, now, A.SessionRevoked);
    }

    method RevokeOrganizationSessions(org: A.Id, now: A.Time) returns (sessionsRevoked: nat, tokensRevoked: nat)
      modifies this`tokens, this`sessions
      ensures Snapshot() == A.RevokeOrganizationSessions(old(Snapshot()), org, now)
      ensures sessionsRevoked == |A.SessionsOf(old(Snapshot()), A.ReachableMembers(old(Snapshot()), org))|
      ensures tokensRevoked == |A.TokensOf(old(Snapshot()), A.ReachableMembers(old(Snapshot()), org), now)|
    {
      sessionsRevoked, tokensRevoked :=
        RevokeAll(A.ReachableMembers(Snapshot(), org), now, A.OrganizationSuspended);
    }

    method RevokeSessionIfActive(sid: A.Id, now: A.Time)
      modifies this`sessions
      ensures Snapshot() == A.RevokeSessionIfActive(old(Snapshot()), sid, now)
    {
      if sid !in sessions || !sessions[sid].IsActive() {
        return;
      }
      var session := new Session(sid, sessions[sid]);
      session.Revoke(now);
      UpdateSession(session);
    }

    method Issue(u: A.Id, sid: A.Id, family: A.Id, rotatedFrom: Option<A.Id>, now: A.Time, policy: A.Policy)
      returns (pair: A.TokenPair)
      modifies this`tokens, this`nextId
      ensures (Snapshot(), pair) == A.Issue(old(Snapshot()), u, sid, family, rotatedFrom, now, policy)
    {
      var id := nextId;
      nextId := nextId + 1;
      tokens := tokens[id := A.TokenRow(
        sid, family, now + policy.refreshSeconds, now, rotatedFrom, None, None, None, None)];
      pair := A.TokenPair(id, A.AccessClaims(u, sid, now + policy.accessSeconds));
    }

    method Login(u: A.Id, hasPassword: bool, passwordMatches: bool, now: A.Time, policy: A.Policy)
      returns (r: Result<A.TokenPair, A.AuthError>)
      modifies this
      ensures (Snapshot(), r) == A.Login(old(Snapshot()), u, hasPassword, passwordMatches, now, policy)
    {
      var found := A.FindUser(Snapshot(), u);
      if found.None? || !hasPassword {
        return Err(A.InvalidCredentials);
      }
      var refusal := A.CannotAuthenticate(found.value);
      if refusal.Some? {
        return Err(refusal.value);
      }
      if !A.OrganizationAllows(Snapshot(), found.value) {
        return Err(A.InvalidCredentials);
      }
      if !passwordMatches {
        return Err(A.InvalidCredentials);
      }
      var _, _ := RevokeAllUserSessions(u, now);
      var sid, family := nextId, nextId + 1;
      nextId := nextId + 2;
      sessions := sessions[sid := A.SessionRow(u, now, now, now, None)];
      var pair := Issue(u, sid, family, None, now, policy);
      r := Ok(pair);
    }

    method Refresh(raw: A.Id, now: A.Time, policy: A.Policy) returns (r: Result<A.TokenPair, A.AuthError>)
      modifies this
      ensures (Snapshot(), r) == A.Refresh(old(Snapshot()), raw, now, policy)
    {
      if raw !in tokens {
        return Err(A.InvalidRefreshToken);
      }
      var token := new RefreshToken(raw, tokens[raw]);
      if token.row.IsUsed() || token.row.IsRevoked() {
        if token.row.reuseDetectedAt.None? {
          token.MarkReuseDetected(now);
        }
        UpdateToken(token);
        RevokeSessionIfActive(token.row.sessionId, now);
        return Err(A.RevokedRefreshToken);
      }
      var unusable := token.AssertUsable(now);
      if unusable.Some? {
        return Err(unusable.value);
      }
      if token.row.sessionId !in sessions {
        return Err(A.InvalidRefreshToken);
      }
      var session := new Session(token.row.sessionId, sessions[token.row.sessionId]);
      if !session.row.IsActive() {
        return Err(A.InvalidRefreshToken);
      }
      var found := A.FindUser(Snapshot(), session.row.userId);
      if found.None? {
        return Err(A.InvalidRefreshToken);
      }
      var refusal := A.CannotAuthenticate(found.value);
      if refusal.Some? {
        return Err(refusal.value);
      }
      if !A.OrganizationAllows(Snapshot(), found.value) {
        token.Revoke(now, A.OrganizationSuspended);
        UpdateToken(token);
        RevokeSessionIfActive(token.row.sessionId, now);
        return Err(A.InvalidRefreshToken);
      }
      token.MarkUsed(now);
      token.Revoke(now, A.Rotated);
      UpdateToken(token);
      session.RecordActivity(now);
      UpdateSession(session);
      var pair := Issue(session.row.userId, session.id, token.row.familyId, Some(raw), now, policy);
      r := Ok(pair);
    }

    method Logout(raw: A.Id, now: A.Time)
      modifies this`tokens, this`sessions
      ensures Snapshot() == A.Logout(old(Snapshot()), raw, now)
    {
      if raw !in tokens {
        return;
      }
      var token := new RefreshToken(raw, tokens[raw]);
      if !token.row.IsRevoked() {
        token.Revoke(now, A.LoggedOut);
        UpdateToken(token);
      }
      RevokeSessionIfActive(token.row.sessionId, now);
    }

    method SuspendOrganization(org: A.Id, now: A.Time) returns (r: Result<(), A.SuspendError>)
      modifies this`organizations, this`tokens, this`sessions
      ensures (Snapshot(), r) == A.SuspendOrganization(old(Snapshot()), org, now)
    {
      if org !in organizations || organizations[org].deleted {
        return Err(A.OrganizationNotFound);
      }
      if !organizations[org].status.ActiveOrganization? {
        return Err(A.OrganizationNotActive);
      }
      organizations := organizations[org := organizations[org].(status := A.SuspendedOrganization)];
      var _, _ := RevokeOrganizationSessions(org, now);
      r := Ok(());
    }
  }
}
