/** What users are promised about rotation, single sessions, replay and suspension. */
module RotationTheorems {
  import opened Wrappers
  import opened Authentication
  import opened AuthenticationSafety

  // ---- each family is one chain

  /** A line of rotations starting at the token issued at login. */
  ghost predicate Line(tokens: map<Id, TokenRow>, f: Id, c: seq<Id>) {
    && c != []
    && (forall i :: 0 <= i < |c| ==> c[i] in tokens && tokens[c[i]].familyId == f)
    && tokens[c[0]].rotatedFrom.None?
    && (forall i, j :: 0 <= i && i + 1 == j < |c| ==> tokens[c[j]].rotatedFrom == Some(c[i]))
  }

  /**
   c lists all tokens of family f, each once, from the one issued at login to the newest,
   and exactly the newest has not been used.
   */
  ghost predicate Chain(tokens: map<Id, TokenRow>, f: Id, c: seq<Id>) {
    && Line(tokens, f, c)
    && (forall i, j :: 0 <= i < j < |c| ==> c[i] != c[j])
    && (forall id :: id in tokens && tokens[id].familyId == f ==> id in c)
    && (forall i :: 0 <= i < |c| ==> (tokens[c[i]].IsUsed() <==> i < |c| - 1))
  }

  lemma {:induction false} RootOf(tokens: map<Id, TokenRow>, id: Id) returns (root: Id)
    requires Linked(tokens) && id in tokens
    ensures root in tokens && tokens[root].familyId == tokens[id].familyId && tokens[root].rotatedFrom.None?
    decreases id
  {
    match tokens[id].rotatedFrom
    case None => root := id;
    case Some(parent) => root := RootOf(tokens, parent);
  }

  lemma {:induction false} LineIncreases(tokens: map<Id, TokenRow>, f: Id, c: seq<Id>, i: nat, j: nat)
    requires Linked(tokens) && Line(tokens, f, c) && i < j < |c|
    ensures c[i] < c[j] && tokens[c[i]].IsUsed()
    decreases j
  {
    assert tokens[c[j]].rotatedFrom == Some(c[j - 1]);
    if i < j - 1 {
      LineIncreases(tokens, f, c, i, j - 1);
    }
  }

  /** A line whose end is unused leaves no token of its family out. */
  lemma {:induction false} LineIsComplete(tokens: map<Id, TokenRow>, f: Id, c: seq<Id>, id: Id)
    requires Linked(tokens) && Line(tokens, f, c) && !tokens[c[|c| - 1]].IsUsed()
    requires id in tokens && tokens[id].familyId == f
    ensures id in c
    decreases id
  {
    match tokens[id].rotatedFrom
    case None => assert tokens[c[0]].rotatedFrom == tokens[id].rotatedFrom;
    case Some(parent) =>
      LineIsComplete(tokens, f, c, parent);
      var i :| 0 <= i < |c| && c[i] == parent;
      assert tokens[c[i + 1]].rotatedFrom == Some(c[i]);
  }

  lemma {:induction false} ExtendLine(tokens: map<Id, TokenRow>, f: Id, c: seq<Id>, bound: nat) returns (full: seq<Id>)
    requires Linked(tokens) && Line(tokens, f, c) && forall id :: id in tokens ==> id < bound
    ensures Line(tokens, f, full) && !tokens[full[|full| - 1]].IsUsed()
    decreases bound - c[|c| - 1]
  {
    var last := c[|c| - 1];
    if tokens[last].IsUsed() {
      assert HasSuccessor(tokens, last);
      var next :| next in tokens && tokens[next].rotatedFrom == Some(last);
      full := ExtendLine(tokens, f, c + [next], bound);
    } else {
      full := c;
    }
  }

  /** Every family, in every reachable state, is one linear chain of rotations. */
  lemma FamilyIsOneChain(s: State, id: Id) returns (c: seq<Id>)
    requires Inv(s) && id in s.tokens
    ensures Chain(s.tokens, s.tokens[id].familyId, c) && id in c
    ensures forall other :: other in c ==> s.tokens[other].sessionId == s.tokens[id].sessionId
  {
    var f := s.tokens[id].familyId;
    var root := RootOf(s.tokens, id);
    c := ExtendLine(s.tokens, f, [root], s.nextId);
    forall i, j | 0 <= i < j < |c| ensures c[i] != c[j] {
      LineIncreases(s.tokens, f, c, i, j);
    }
    forall i | 0 <= i < |c| ensures s.tokens[c[i]].IsUsed() <==> i < |c| - 1 {
      if i < |c| - 1 {
        LineIncreases(s.tokens, f, c, i, |c| - 1);
      }
    }
    forall other | other in s.tokens && s.tokens[other].familyId == f ensures other in c {
      LineIsComplete(s.tokens, f, c, other);
    }
  }

  /** A token is used exactly when it has a successor, and then it is also revoked. */
  lemma UsedExactlyWhenRotated(s: State, id: Id)
    requires Inv(s) && id in s.tokens
    ensures s.tokens[id].IsUsed() <==> exists next :: next in s.tokens && s.tokens[next].rotatedFrom == Some(id)
    ensures s.tokens[id].IsUsed() ==> s.tokens[id].IsRevoked()
  {
    if s.tokens[id].IsUsed() {
      assert HasSuccessor(s.tokens, id);
    }
  }

  // ---- one session, one refreshable token

  ghost predicate Refreshable(s: State, raw: Id, now: Time) {
    && raw in s.tokens && s.tokens[raw].IsUsable(now)
    && s.tokens[raw].sessionId in s.sessions && s.sessions[s.tokens[raw].sessionId].IsActive()
  }

  ghost function OwnerOf(s: State, raw: Id): Id
    requires raw in s.tokens && s.tokens[raw].sessionId in s.sessions
  {
    s.sessions[s.tokens[raw].sessionId].userId
  }

  /** At most one token of a user can be refreshed, however many were ever issued. */
  lemma OneRefreshableToken(s: State, a: Id, b: Id, now: Time)
    requires Inv(s) && Refreshable(s, a, now) && Refreshable(s, b, now) && OwnerOf(s, a) == OwnerOf(s, b)
    ensures a == b
  {
    assert s.tokens[a].sessionId == s.tokens[b].sessionId;
    var c := FamilyIsOneChain(s, a);
    assert a in c && b in c;
  }

  /** A refresh succeeds only on a refreshable token, so at most one per user can. */
  lemma RefreshNeedsRefreshable(s: State, raw: Id, now: Time, policy: Policy)
    requires Refresh(s, raw, now, policy).1.Ok?
    ensures Refreshable(s, raw, now)
  {
  }

  /** Once a session is revoked, no run makes its tokens refresh or its access tokens pass. */
  lemma RevokedSessionStaysDead(
    s: State, events: seq<Timed>, sid: Id, raw: Id, claims: AccessClaims, now: Time, policy: Policy)
    requires Inv(s) && sid in s.sessions && !s.sessions[sid].IsActive()
    ensures var s' := Run(s, events);
            && (raw in s'.tokens && s'.tokens[raw].sessionId == sid ==> Refresh(s', raw, now, policy).1.Err?)
            && (claims.sid == sid ==> !AccessAccepted(s', claims, now))
  {
    RunKeepsInv(s, events);
    if raw in Run(s, events).tokens && Refresh(Run(s, events), raw, now, policy).1.Ok? {
      RefreshNeedsRefreshable(Run(s, events), raw, now, policy);
    }
  }

  lemma ReplayClosesSession(s: State, raw: Id, now: Time, policy: Policy)
    requires Inv(s) && raw in s.tokens && s.tokens[raw].IsUsed()
    ensures var (s', r) := Refresh(s, raw, now, policy);
            && r == Err(RevokedRefreshToken)
            && Inv(s') && Persists(s, s')
            && !s'.sessions[s.tokens[raw].sessionId].IsActive()
  {
    ReplayRevokesOne(s, raw, now, policy);
    RevokeOneKeepsInv(s, raw, MarkReuse(s.tokens[raw], now), now);
  }

  lemma ReplayRevokesOne(s: State, raw: Id, now: Time, policy: Policy)
    requires raw in s.tokens && s.tokens[raw].IsUsed()
    ensures Refresh(s, raw, now, policy) ==
            (RevokeOne(s, raw, MarkReuse(s.tokens[raw], now), now), Err(RevokedRefreshToken))
    ensures SameLinks(s.tokens, s.tokens[raw := MarkReuse(s.tokens[raw], now)])
  {
  }

  /**
   Replay: a token that was rotated once, presented again at any later point of any run,
   is refused, and from then on no token of its family refreshes in any continuation.
   */
  lemma ReplayEndsFamily(
    s: State, raw: Id, before: seq<Timed>, now: Time, policy: Policy,
    after: seq<Timed>, other: Id, later: Time)
    requires Inv(s) && raw in s.tokens && s.tokens[raw].IsUsed()
    ensures var (replayed, r) := Refresh(Run(s, before), raw, now, policy);
            var final := Run(replayed, after);
            && r == Err(RevokedRefreshToken)
            && (other in final.tokens && final.tokens[other].familyId == s.tokens[raw].familyId ==>
                  Refresh(final, other, later, policy).1.Err?)
  {
    RunKeepsInv(s, before);
    var s1 := Run(s, before);
    ReplayClosesSession(s1, raw, now, policy);
    var s2 := Refresh(s1, raw, now, policy).0;
    RunKeepsInv(s2, after);
    var sid := s1.tokens[raw].sessionId;
    RevokedSessionStaysDead(s2, after, sid, other, AccessClaims(0, sid, 0), later, policy);
    SameFamilySameSession(Run(s2, after), raw, other);
  }

  lemma SameFamilySameSession(s: State, a: Id, b: Id)
    requires Inv(s) && a in s.tokens
    ensures b in s.tokens && s.tokens[b].familyId == s.tokens[a].familyId ==>
              s.tokens[b].sessionId == s.tokens[a].sessionId
  {
  }

  // ---- organization suspension

  /** No session of a user in an inactive organization is opened or refreshed. */
  lemma InactiveOrganizationBlocks(
    s: State, u: Id, hasPassword: bool, matches: bool, raw: Id, now: Time, policy: Policy)
    requires u in s.users && !s.users[u].isSuperAdmin && s.users[u].organization.Some?
    requires var org := s.users[u].organization.value;
             org in s.organizations ==> !s.organizations[org].IsActive()
    ensures Login(s, u, hasPassword, matches, now, policy).1.Err?
    ensures raw in s.tokens && s.tokens[raw].sessionId in s.sessions && OwnerOf(s, raw) == u ==>
              Refresh(s, raw, now, policy).1.Err?
  {
  }

  ghost predicate NotBefore(events: seq<Timed>, start: Time) {
    forall e :: e in events ==> start <= e.now
  }

  /** No token of the session refreshes in any run from s that starts at `start` or later. */
  ghost predicate NeverRefreshes(s: State, sid: Id, start: Time) {
    forall events, raw, now, policy | NotBefore(events, start) && start <= now ::
      var s' := Run(s, events);
      raw in s'.tokens && s'.tokens[raw].sessionId == sid ==> Refresh(s', raw, now, policy).1.Err?
  }

  /** Some token of the session could still be presented. */
  ghost predicate HasUsableToken(s: State, sid: Id, at: Time) {
    exists raw :: raw in s.tokens && s.tokens[raw].sessionId == sid && s.tokens[raw].IsUsable(at)
  }

  lemma UsableEarlier(s: State, s': State, sid: Id, start: Time)
    requires TokensPersist(s.tokens, s'.tokens) && !HasUsableToken(s, sid, start)
    requires forall raw :: raw in s'.tokens && raw !in s.tokens ==> s'.tokens[raw].sessionId != sid
    ensures !HasUsableToken(s', sid, start)
  {
  }

  /** New tokens appear in a new session, or where a usable token was just refreshed. */
  lemma NewTokensNeedUsable(s: State, e: Timed, sid: Id)
    requires Bounded(s) && sid in s.sessions && !HasUsableToken(s, sid, e.now)
    ensures forall raw :: raw in Next(s, e).tokens && raw !in s.tokens ==> Next(s, e).tokens[raw].sessionId != sid
  {
    if e.event.RefreshEvent? && e.event.raw in s.tokens {
      var raw := e.event.raw;
      var row := RefreshShape(s, raw, e.now, e.policy);
      if Refresh(s, raw, e.now, e.policy).1.Ok? {
        RefreshNeedsRefreshable(s, raw, e.now, e.policy);
      }
    }
  }

  /** A session without a usable token never gets one. */
  lemma ExhaustedStaysExhausted(s: State, e: Timed, sid: Id, start: Time)
    requires Inv(s) && sid in s.sessions && !HasUsableToken(s, sid, start) && start <= e.now
    ensures !HasUsableToken(Next(s, e), sid, start)
  {
    NextKeepsInv(s, e);
    NewTokensNeedUsable(s, e, sid);
    UsableEarlier(s, Next(s, e), sid, start);
  }

  lemma {:induction false} ExhaustedNeverRefreshes(
    s: State, sid: Id, start: Time, events: seq<Timed>, raw: Id, now: Time, policy: Policy)
    requires Inv(s) && sid in s.sessions && !HasUsableToken(s, sid, start)
    requires NotBefore(events, start) && start <= now
    ensures var s' := Run(s, events);
            raw in s'.tokens && s'.tokens[raw].sessionId == sid ==> Refresh(s', raw, now, policy).1.Err?
    decreases |events|
  {
    if events == [] {
      if raw in s.tokens && Refresh(s, raw, now, policy).1.Ok? {
        RefreshNeedsRefreshable(s, raw, now, policy);
      }
    } else {
      assert events[0] in events;
      NextKeepsInv(s, events[0]);
      ExhaustedStaysExhausted(s, events[0], sid, start);
      ExhaustedNeverRefreshes(Next(s, events[0]), sid, start, events[1..], raw, now, policy);
    }
  }

  /** The routes that reactivate an organization and restore a soft-deleted user. */
  ghost function Reopening(s: State, org: Id, u: Id, at: Time, policy: Policy): seq<Timed>
    requires org in s.organizations && u in s.users
  {
    [Timed(EditOrganization(org, s.organizations[org].(status := ActiveOrganization)), at, policy),
     Timed(EditUser(u, s.users[u].(deleted := false, status := ActiveUser)), at, policy)]
  }

  lemma SurvivorRefreshes(s: State, org: Id, sid: Id, raw: Id, at: Time, policy: Policy)
    requires org in s.organizations && !s.organizations[org].deleted
    requires sid in s.sessions && s.sessions[sid].IsActive()
    requires var u := s.sessions[sid].userId; u in s.users && s.users[u].organization == Some(org)
    requires raw in s.tokens && s.tokens[raw].sessionId == sid && s.tokens[raw].IsUsable(at)
    ensures var s' := Run(s, Reopening(s, org, s.sessions[sid].userId, at, policy));
            raw in s'.tokens && s'.tokens[raw].sessionId == sid && Refresh(s', raw, at, policy).1.Ok?
  {
    var events := Reopening(s, org, s.sessions[sid].userId, at, policy);
    var s1 := Next(s, events[0]);
    var s2 := Next(s1, events[1]);
    assert events[1..] == [events[1]];
    assert Run(s1, [events[1]]) == Run(s2, []);
  }

  /** Where the suspension found a member that was not soft-deleted, it revoked the session. */
  lemma RevokedBySuspension(s: State, s1: State, org: Id, now: Time, sid: Id)
    requires Inv(s) && SuspendOrganization(s, org, now) == (s1, Ok(())) && sid in s.sessions
    requires var u := s.sessions[sid].userId;
             u in s.users && s.users[u].organization == Some(org) && !s.users[u].isSuperAdmin
    requires !s.users[s.sessions[sid].userId].deleted || !s.sessions[sid].IsActive()
    ensures Inv(s1) && sid in s1.sessions && !s1.sessions[sid].IsActive()
  {
    SuspendKeepsInv(s, org, now);
  }

  lemma RevokedNeverRefreshes(s: State, sid: Id, start: Time)
    requires Inv(s) && sid in s.sessions && !s.sessions[sid].IsActive()
    ensures NeverRefreshes(s, sid, start)
  {
    forall events, raw, later, p | NotBefore(events, start) && start <= later
      ensures var s' := Run(s, events);
              raw in s'.tokens && s'.tokens[raw].sessionId == sid ==> Refresh(s', raw, later, p).1.Err?
    {
      RevokedSessionStaysDead(s, events, sid, raw, AccessClaims(0, sid, 0), later, p);
    }
  }

  lemma UnusableNeverRefreshes(s: State, sid: Id, start: Time)
    requires Inv(s) && sid in s.sessions && !HasUsableToken(s, sid, start)
    ensures NeverRefreshes(s, sid, start)
  {
    forall events, raw, later, p | NotBefore(events, start) && start <= later
      ensures var s' := Run(s, events);
              raw in s'.tokens && s'.tokens[raw].sessionId == sid ==> Refresh(s', raw, later, p).1.Err?
    {
      ExhaustedNeverRefreshes(s, sid, start, events, raw, later, p);
    }
  }

  /** The session of a soft-deleted member keeps its usable token, and refreshes once all is reopened. */
  lemma DeletedMemberSurvives(s: State, org: Id, now: Time, sid: Id, policy: Policy)
    requires Inv(s) && SuspendOrganization(s, org, now).1.Ok? && sid in s.sessions
    requires var u := s.sessions[sid].userId;
             u in s.users && s.users[u].organization == Some(org) && !s.users[u].isSuperAdmin && s.users[u].deleted
    requires s.sessions[sid].IsActive() && HasUsableToken(s, sid, now)
    ensures !NeverRefreshes(SuspendOrganization(s, org, now).0, sid, now)
  {
    var u := s.sessions[sid].userId;
    var s1 := SuspendOrganization(s, org, now).0;
    var raw :| raw in s.tokens && s.tokens[raw].sessionId == sid && s.tokens[raw].IsUsable(now);
    assert u !in ReachableMembers(s.(organizations := s1.organizations), org);
    SurvivorRefreshes(s1, org, sid, raw, now, policy);
    assert NotBefore(Reopening(s1, org, u, now, policy), now);
  }

  /**
   Suspension is final for the sessions it finds, except one kind: the organization query
   skips soft-deleted users, and deleting a user does not revoke sessions. A session that
   existed at the suspension never refreshes again exactly when its user was not
   soft-deleted then, or the session was already closed or had no usable token left.
   */
  lemma SuspensionIsFinalExactlyWhen(s: State, org: Id, now: Time, sid: Id, policy: Policy)
    requires Inv(s) && SuspendOrganization(s, org, now).1.Ok? && sid in s.sessions
    requires var u := s.sessions[sid].userId;
             u in s.users && s.users[u].organization == Some(org) && !s.users[u].isSuperAdmin
    ensures NeverRefreshes(SuspendOrganization(s, org, now).0, sid, now) <==>
              || !s.users[s.sessions[sid].userId].deleted
              || !s.sessions[sid].IsActive()
              || !HasUsableToken(s, sid, now)
  {
    var s1 := SuspendOrganization(s, org, now).0;
    SuspendKeepsInv(s, org, now);
    if !s.sessions[sid].IsActive() || !s.users[s.sessions[sid].userId].deleted {
      RevokedBySuspension(s, s1, org, now, sid);
      RevokedNeverRefreshes(s1, sid, now);
    } else if !HasUsableToken(s, sid, now) {
      UsableEarlier(s, s1, sid, now);
      UnusableNeverRefreshes(s1, sid, now);
    } else {
      DeletedMemberSurvives(s, org, now, sid, policy);
    }
  }

  /** A concrete survivor: user 1 is soft-deleted when organization 0 is suspended. */
  lemma DeletedMemberOutlivesSuspension()
    ensures var s := State(
              map[1 := User(InactiveUser, true, false, Some(0))],
              map[0 := Organization(ActiveOrganization, false)],
              map[2 := SessionRow(1, 0, 0, 0, None)],
              map[4 := TokenRow(2, 3, 1000, 0, None, None, None, None, None)], 5);
            && Inv(s)
            && SuspendOrganization(s, 0, 10).1.Ok?
            && !NeverRefreshes(SuspendOrganization(s, 0, 10).0, 2, 10)
  {
    var s := State(
      map[1 := User(InactiveUser, true, false, Some(0))],
      map[0 := Organization(ActiveOrganization, false)],
      map[2 := SessionRow(1, 0, 0, 0, None)],
      map[4 := TokenRow(2, 3, 1000, 0, None, None, None, None, None)], 5);
    assert Inv(s);
    assert s.tokens[4].IsUsable(10);
    SuspensionIsFinalExactlyWhen(s, 0, 10, 2, Policy(1, 1));
  }
}
