/** What every run of the session use cases keeps. */
module AuthenticationSafety {
  import opened Wrappers
  import opened Authentication

  ghost predicate HasSuccessor(tokens: map<Id, TokenRow>, id: Id) {
    exists next :: next in tokens && tokens[next].rotatedFrom == Some(id)
  }

  /** A token is rotated from an earlier, used token of its own family. */
  ghost predicate ParentsUsed(tokens: map<Id, TokenRow>) {
    forall id, parent :: id in tokens && tokens[id].rotatedFrom == Some(parent) ==>
      parent in tokens && parent < id && tokens[parent].familyId == tokens[id].familyId && tokens[parent].IsUsed()
  }

  /** In one family no two tokens have the same parent, and only one has none. */
  ghost predicate ParentsDiffer(tokens: map<Id, TokenRow>) {
    forall a, b :: a in tokens && b in tokens && a != b && tokens[a].familyId == tokens[b].familyId ==>
      tokens[a].rotatedFrom != tokens[b].rotatedFrom
  }

  ghost predicate UsedWereRotated(tokens: map<Id, TokenRow>) {
    && (forall id :: id in tokens && tokens[id].IsUsed() ==> tokens[id].IsRevoked())
    && (forall id {:trigger HasSuccessor(tokens, id)} ::
          id in tokens && tokens[id].IsUsed() ==> HasSuccessor(tokens, id))
  }

  ghost predicate Linked(tokens: map<Id, TokenRow>) {
    ParentsUsed(tokens) && ParentsDiffer(tokens) && UsedWereRotated(tokens)
  }

  ghost predicate FamiliesAreSessions(s: State) {
    && (forall id :: id in s.tokens ==> s.tokens[id].sessionId in s.sessions)
    && (forall a, b :: a in s.tokens && b in s.tokens ==>
          (s.tokens[a].familyId == s.tokens[b].familyId <==> s.tokens[a].sessionId == s.tokens[b].sessionId))
  }

  ghost predicate OneActiveSession(sessions: map<Id, SessionRow>) {
    forall a, b ::
      (&& a in sessions && sessions[a].IsActive()
       && b in sessions && sessions[b].IsActive()
       && sessions[a].userId == sessions[b].userId) ==> a == b
  }

  ghost predicate Bounded(s: State) {
    && (forall id :: id in s.sessions ==> id < s.nextId)
    && (forall id :: id in s.tokens ==> id < s.nextId && s.tokens[id].familyId < s.nextId)
  }

  ghost predicate Inv(s: State) {
    && Bounded(s)
    && FamiliesAreSessions(s)
    && Linked(s.tokens)
    && OneActiveSession(s.sessions)
  }

  // ---- what a single step may change

  /** Tokens may be revoked and marked, but not added, moved or used. */
  ghost predicate SameLinks(tokens: map<Id, TokenRow>, tokens': map<Id, TokenRow>) {
    && tokens.Keys == tokens'.Keys
    && forall id :: id in tokens ==>
         && tokens'[id].sessionId == tokens[id].sessionId
         && tokens'[id].familyId == tokens[id].familyId
         && tokens'[id].rotatedFrom == tokens[id].rotatedFrom
         && tokens'[id].usedAt == tokens[id].usedAt
         && tokens'[id].expiresAt == tokens[id].expiresAt
         && (tokens[id].IsRevoked() ==> tokens'[id].IsRevoked())
  }

  /** Existing sessions keep their user, and once revoked stay revoked. */
  ghost predicate SessionsPersist(sessions: map<Id, SessionRow>, sessions': map<Id, SessionRow>) {
    forall id :: id in sessions ==>
      && id in sessions'
      && sessions'[id].userId == sessions[id].userId
      && (sessions'[id].IsActive() ==> sessions[id].IsActive())
  }

  /** Existing tokens stay in their session and family, and once used or revoked stay so. */
  ghost predicate TokensPersist(tokens: map<Id, TokenRow>, tokens': map<Id, TokenRow>) {
    forall id :: id in tokens ==>
      && id in tokens'
      && tokens'[id].sessionId == tokens[id].sessionId
      && tokens'[id].familyId == tokens[id].familyId
      && tokens'[id].expiresAt == tokens[id].expiresAt
      && (tokens[id].IsUsed() ==> tokens'[id].IsUsed())
      && (tokens[id].IsRevoked() ==> tokens'[id].IsRevoked())
  }

  ghost predicate Persists(s: State, s': State) {
    SessionsPersist(s.sessions, s'.sessions) && TokensPersist(s.tokens, s'.tokens)
  }

  lemma SameLinksKeepLinked(tokens: map<Id, TokenRow>, tokens': map<Id, TokenRow>)
    requires Linked(tokens) && SameLinks(tokens, tokens')
    ensures Linked(tokens')
  {
    forall id | id in tokens' && tokens'[id].IsUsed() ensures HasSuccessor(tokens', id) {
      assert HasSuccessor(tokens, id);
      var next :| next in tokens && tokens[next].rotatedFrom == Some(id);
      assert tokens'[next].rotatedFrom == Some(id);
    }
  }

  lemma FrameKeepsInv(s: State, s': State)
    requires Inv(s) && s'.nextId == s.nextId
    requires SameLinks(s.tokens, s'.tokens)
    requires s'.sessions.Keys == s.sessions.Keys && SessionsPersist(s.sessions, s'.sessions)
    ensures Inv(s')
  {
    SameLinksKeepLinked(s.tokens, s'.tokens);
  }

  // ---- rotation and login

  lemma RotationKeepsLinked(tokens: map<Id, TokenRow>, raw: Id, used: TokenRow, newId: Id, successor: TokenRow)
    requires Linked(tokens) && raw in tokens && !tokens[raw].IsUsed() && forall id :: id in tokens ==> id < newId
    requires used.IsUsed() && used.IsRevoked()
    requires used.familyId == tokens[raw].familyId && used.rotatedFrom == tokens[raw].rotatedFrom
    requires !successor.IsUsed() && successor.familyId == used.familyId && successor.rotatedFrom == Some(raw)
    ensures Linked(tokens[raw := used][newId := successor])
  {
    var tokens' := tokens[raw := used][newId := successor];
    forall id | id in tokens' && tokens'[id].IsUsed() ensures HasSuccessor(tokens', id) {
      if id == raw {
        assert tokens'[newId].rotatedFrom == Some(id);
      } else {
        assert HasSuccessor(tokens, id);
        var next :| next in tokens && tokens[next].rotatedFrom == Some(id);
        assert tokens'[next].rotatedFrom == Some(id);
      }
    }
  }

  lemma NewFamilyKeepsLinked(tokens: map<Id, TokenRow>, newId: Id, token: TokenRow)
    requires Linked(tokens) && newId !in tokens
    requires !token.IsUsed() && token.rotatedFrom.None?
    requires forall id :: id in tokens ==> tokens[id].familyId != token.familyId
    ensures Linked(tokens[newId := token])
  {
    var tokens' := tokens[newId := token];
    forall id | id in tokens' && tokens'[id].IsUsed() ensures HasSuccessor(tokens', id) {
      assert HasSuccessor(tokens, id);
      var next :| next in tokens && tokens[next].rotatedFrom == Some(id);
      assert tokens'[next].rotatedFrom == Some(id);
    }
  }

  lemma RotateKeepsFamilies(s: State, raw: Id, now: Time, policy: Policy)
    requires FamiliesAreSessions(s) && raw in s.tokens
    ensures FamiliesAreSessions(Rotate(s, raw, now, policy).0)
  {
  }

  lemma RotatePersists(s: State, raw: Id, now: Time, policy: Policy)
    requires Bounded(s) && raw in s.tokens && s.tokens[raw].sessionId in s.sessions
    requires OneActiveSession(s.sessions)
    ensures var s' := Rotate(s, raw, now, policy).0;
            Bounded(s') && OneActiveSession(s'.sessions) && Persists(s, s')
  {
  }

  lemma RotateLinks(s: State, raw: Id, now: Time, policy: Policy)
    requires Bounded(s) && Linked(s.tokens) && raw in s.tokens && !s.tokens[raw].IsUsed()
    requires s.tokens[raw].sessionId in s.sessions
    ensures Linked(Rotate(s, raw, now, policy).0.tokens)
  {
    var s' := Rotate(s, raw, now, policy).0;
    var used, successor := s'.tokens[raw], s'.tokens[s.nextId];
    assert s'.tokens == s.tokens[raw := used][s.nextId := successor];
    RotationKeepsLinked(s.tokens, raw, used, s.nextId, successor);
  }

  lemma RotateKeepsInv(s: State, raw: Id, now: Time, policy: Policy)
    requires Inv(s) && raw in s.tokens && !s.tokens[raw].IsUsed()
    ensures Inv(Rotate(s, raw, now, policy).0) && Persists(s, Rotate(s, raw, now, policy).0)
  {
    RotateLinks(s, raw, now, policy);
    RotateKeepsFamilies(s, raw, now, policy);
    RotatePersists(s, raw, now, policy);
  }

  lemma OpenSessionKeepsInv(s: State, u: Id, now: Time, policy: Policy)
    requires Inv(s) && forall id :: id in s.sessions && s.sessions[id].userId == u ==> !s.sessions[id].IsActive()
    ensures Inv(OpenSession(s, u, now, policy).0) && Persists(s, OpenSession(s, u, now, policy).0)
  {
    var s' := OpenSession(s, u, now, policy).0;
    NewFamilyKeepsLinked(s.tokens, s.nextId + 2, s'.tokens[s.nextId + 2]);
  }

  /** Revoking one token, marked or not, and closing its session if it is still open. */
  ghost function RevokeOne(s: State, raw: Id, row: TokenRow, now: Time): State
    requires raw in s.tokens
  {
    RevokeSessionIfActive(s.(tokens := s.tokens[raw := row]), s.tokens[raw].sessionId, now)
  }

  lemma RevokeOneKeepsInv(s: State, raw: Id, row: TokenRow, now: Time)
    requires Inv(s) && raw in s.tokens
    requires SameLinks(s.tokens, s.tokens[raw := row])
    ensures Inv(RevokeOne(s, raw, row, now)) && Persists(s, RevokeOne(s, raw, row, now))
    ensures !RevokeOne(s, raw, row, now).sessions[s.tokens[raw].sessionId].IsActive()
  {
    FrameKeepsInv(s, RevokeOne(s, raw, row, now));
  }

  /** A refresh rotates the token, revokes it with its session, or changes nothing. */
  lemma RefreshShape(s: State, raw: Id, now: Time, policy: Policy) returns (row: TokenRow)
    requires raw in s.tokens
    ensures var (s', r) := Refresh(s, raw, now, policy);
            && SameLinks(s.tokens, s.tokens[raw := row])
            && (r.Ok? ==> !s.tokens[raw].IsUsed() && s.tokens[raw].sessionId in s.sessions &&
                          s' == Rotate(s, raw, now, policy).0)
            && (r.Err? ==> s' == s || s' == RevokeOne(s, raw, row, now))
  {
    var token := s.tokens[raw];
    row := if token.IsUsed() || token.IsRevoked() then MarkReuse(token, now)
           else token.Revoked(now, OrganizationSuspended);
  }

  lemma RefreshKeepsInv(s: State, raw: Id, now: Time, policy: Policy)
    requires Inv(s)
    ensures Inv(Refresh(s, raw, now, policy).0) && Persists(s, Refresh(s, raw, now, policy).0)
  {
    if raw in s.tokens {
      var row := RefreshShape(s, raw, now, policy);
      if Refresh(s, raw, now, policy).1.Ok? {
        RotateKeepsInv(s, raw, now, policy);
      } else {
        RevokeOneKeepsInv(s, raw, row, now);
      }
    }
  }

  lemma LogoutKeepsInv(s: State, raw: Id, now: Time)
    requires Inv(s)
    ensures Inv(Logout(s, raw, now)) && Persists(s, Logout(s, raw, now))
  {
    if raw in s.tokens {
      var token := s.tokens[raw];
      var row := if token.IsRevoked() then token else token.Revoked(now, LoggedOut);
      assert token.IsRevoked() ==> s.tokens[raw := row] == s.tokens;
      RevokeOneKeepsInv(s, raw, row, now);
    }
  }

  lemma RevokedTokensKeepLinks(tokens: map<Id, TokenRow>, ids: set<Id>, now: Time, reason: RevokeReason)
    ensures SameLinks(tokens, RevokeTokens(tokens, ids, now, reason))
  {
  }

  lemma RevokedSessionsPersist(sessions: map<Id, SessionRow>, ids: set<Id>, now: Time)
    ensures RevokeSessions(sessions, ids, now).Keys == sessions.Keys
    ensures SessionsPersist(sessions, RevokeSessions(sessions, ids, now))
  {
  }

  lemma RevokeOwnersKeepsInv(s: State, owners: set<Id>, now: Time, reason: RevokeReason)
    requires Inv(s)
    ensures Inv(RevokeOwners(s, owners, now, reason)) && Persists(s, RevokeOwners(s, owners, now, reason))
    ensures forall id :: id in s.sessions && s.sessions[id].userId in owners ==>
              !RevokeOwners(s, owners, now, reason).sessions[id].IsActive()
  {
    RevokedTokensKeepLinks(s.tokens, TokensOf(s, owners, now), now, reason);
    RevokedSessionsPersist(s.sessions, SessionsOf(s, owners), now);
    FrameKeepsInv(s, RevokeOwners(s, owners, now, reason));
  }

  lemma LoginKeepsInv(s: State, u: Id, hasPassword: bool, matches: bool, now: Time, policy: Policy)
    requires Inv(s)
    ensures Inv(Login(s, u, hasPassword, matches, now, policy).0)
    ensures Persists(s, Login(s, u, hasPassword, matches, now, policy).0)
  {
    if Login(s, u, hasPassword, matches, now, policy).1.Ok? {
      var revoked := RevokeAllUserSessions(s, u, now);
      RevokeOwnersKeepsInv(s, {u}, now, SessionRevoked);
      OpenSessionKeepsInv(revoked, u, now, policy);
    }
  }

  lemma SuspendKeepsInv(s: State, org: Id, now: Time)
    requires Inv(s)
    ensures Inv(SuspendOrganization(s, org, now).0) && Persists(s, SuspendOrganization(s, org, now).0)
  {
    var (s', r) := SuspendOrganization(s, org, now);
    if r.Ok? {
      var suspended := s.(organizations := s'.organizations);
      assert Inv(suspended);
      RevokeOwnersKeepsInv(suspended, ReachableMembers(suspended, org), now, OrganizationSuspended);
    }
  }

  lemma NextKeepsInv(s: State, e: Timed)
    requires Inv(s)
    ensures Inv(Next(s, e)) && Persists(s, Next(s, e))
  {
    match e.event
    case LoginEvent(u, hasPassword, matches) => LoginKeepsInv(s, u, hasPassword, matches, e.now, e.policy);
    case RefreshEvent(raw) => RefreshKeepsInv(s, raw, e.now, e.policy);
    case LogoutEvent(raw) => LogoutKeepsInv(s, raw, e.now);
    case RevokeAllEvent(u) => RevokeOwnersKeepsInv(s, {u}, e.now, SessionRevoked);
    case SuspendEvent(org) => SuspendKeepsInv(s, org, e.now);
    case EditUser(_, _) => FrameKeepsInv(s, Next(s, e));
    case EditOrganization(_, _) => FrameKeepsInv(s, Next(s, e));
  }

  /** The invariant holds in every reachable state, and nothing recorded is undone. */
  lemma {:induction false} RunKeepsInv(s: State, events: seq<Timed>)
    requires Inv(s)
    ensures Inv(Run(s, events)) && Persists(s, Run(s, events))
    decreases |events|
  {
    if events != [] {
      NextKeepsInv(s, events[0]);
      RunKeepsInv(Next(s, events[0]), events[1..]);
    }
  }

  /** Every state reached from tables without sessions satisfies the invariant. */
  lemma EveryReachableState(users: map<Id, User>, organizations: map<Id, Organization>, events: seq<Timed>)
    ensures var s := Run(State(users, organizations, map[], map[], 0), events);
            && Inv(s)
            && forall a, b :: a in s.sessions && b in s.sessions && a != b ==>
                 || s.sessions[a].userId != s.sessions[b].userId
                 || !s.sessions[a].IsActive() || !s.sessions[b].IsActive()
  {
    RunKeepsInv(State(users, organizations, map[], map[], 0), events);
  }
}
