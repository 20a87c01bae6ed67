/** What suspending an organization does at once, and what it means for its members until somebody edits it. */
module SuspensionResults {
  import opened Wrappers
  import opened Authentication
  import opened AuthenticationSafety
  import opened RotationTheorems
  import opened SessionResults

  /** A suspension goes through exactly for a stored, undeleted, active organization, and suspends that one only. */
  lemma SuspensionResult(s: State, org: Id, now: Time)
    ensures var (s', r) := SuspendOrganization(s, org, now);
            && (r.Ok? <==> org in s.organizations && !s.organizations[org].deleted
                           && s.organizations[org].status == ActiveOrganization)
            && (r.Err? ==> s' == s)
            && (r == Err(OrganizationNotFound) <==> org !in s.organizations || s.organizations[org].deleted)
            && s'.users == s.users && s'.nextId == s.nextId
            && (r.Ok? ==>
                  && s'.organizations == s.organizations[org := s'.organizations[org]]
                  && s'.organizations[org] == Organization(SuspendedOrganization, false))
  {
  }

  /** It revokes the open sessions and usable tokens of its members who are neither super admins nor soft-deleted. */
  lemma SuspensionRevokes(s: State, org: Id, now: Time, id: Id)
    requires Inv(s) && SuspendOrganization(s, org, now).1.Ok?
    ensures var s' := SuspendOrganization(s, org, now).0;
            && (id in s.sessions ==>
                  id in s'.sessions && s'.sessions[id] ==
                  if IsOrdinaryMember(s, org, s.sessions[id].userId) && s.sessions[id].revokedAt.None?
                  then s.sessions[id].(revokedAt := Some(now), updatedAt := now) else s.sessions[id])
            && (id in s.tokens ==>
                  id in s'.tokens && s'.tokens[id] ==
                  if IsOrdinaryMember(s, org, OwnerOf(s, id)) && s.tokens[id].IsUsable(now)
                  then s.tokens[id].(revokedAt := Some(now), revokedReason := Some(OrganizationSuspended))
                  else s.tokens[id])
  {
    var suspended := s.(organizations := SuspendOrganization(s, org, now).0.organizations);
    assert Inv(suspended);
    RevokedRow(suspended, ReachableMembers(suspended, org), now, OrganizationSuspended, id);
  }

  predicate IsOrdinaryMember(s: State, org: Id, u: Id) {
    u in s.users && s.users[u].organization == Some(org) && !s.users[u].isSuperAdmin && !s.users[u].deleted
  }

  /** Nothing but an edit of the organization itself, such as its reactivation, makes it active again. */
  ghost predicate LeavesOrganization(events: seq<Timed>, org: Id) {
    forall e :: e in events ==> !(e.event.EditOrganization? && e.event.organization == org)
  }

  predicate IsSuspended(s: State, org: Id) {
    org in s.organizations && s.organizations[org].status == SuspendedOrganization
  }

  lemma StepStaysSuspended(s: State, e: Timed, org: Id)
    requires IsSuspended(s, org) && !(e.event.EditOrganization? && e.event.organization == org)
    ensures IsSuspended(Next(s, e), org)
  {
  }

  lemma {:induction false} RunStaysSuspended(s: State, events: seq<Timed>, org: Id)
    requires IsSuspended(s, org) && LeavesOrganization(events, org)
    ensures IsSuspended(Run(s, events), org)
    decreases |events|
  {
    if events != [] {
      assert events[0] in events && forall e :: e in events[1..] ==> e in events;
      StepStaysSuspended(s, events[0], org);
      RunStaysSuspended(Next(s, events[0]), events[1..], org);
    }
  }

  /**
   After a suspension, and whatever happens short of editing that organization, no one who is
   then a member of it and no super admin logs in or refreshes.
   */
  lemma SuspendedMembersAreLockedOut(
    s: State, org: Id, at: Time, events: seq<Timed>,
    u: Id, hasPassword: bool, matches: bool, raw: Id, now: Time, policy: Policy)
    requires SuspendOrganization(s, org, at).1.Ok? && LeavesOrganization(events, org)
    ensures var s' := Run(SuspendOrganization(s, org, at).0, events);
            u in s'.users && s'.users[u].organization == Some(org) && !s'.users[u].isSuperAdmin ==>
              && Login(s', u, hasPassword, matches, now, policy).1.Err?
              && (raw in s'.tokens && s'.tokens[raw].sessionId in s'.sessions && OwnerOf(s', raw) == u ==>
                    Refresh(s', raw, now, policy).1.Err?)
  {
    SuspensionResult(s, org, at);
    RunStaysSuspended(SuspendOrganization(s, org, at).0, events, org);
    var s' := Run(SuspendOrganization(s, org, at).0, events);
    if u in s'.users && s'.users[u].organization == Some(org) && !s'.users[u].isSuperAdmin {
      InactiveOrganizationBlocks(s', u, hasPassword, matches, raw, now, policy);
    }
  }

  /** A run goes through the use cases one after the other; an edit writes the one row it names. */
  lemma StepsAreUseCases(s: State, e: Timed, rest: seq<Timed>)
    ensures Run(s, [e] + rest) == Run(Next(s, e), rest)
    ensures e.event.LoginEvent? ==>
              Next(s, e) == Login(s, e.event.user, e.event.hasPassword, e.event.passwordMatches, e.now, e.policy).0
    ensures e.event.RefreshEvent? ==> Next(s, e) == Refresh(s, e.event.raw, e.now, e.policy).0
    ensures e.event.LogoutEvent? ==> Next(s, e) == Logout(s, e.event.raw, e.now)
    ensures e.event.RevokeAllEvent? ==> Next(s, e) == RevokeAllUserSessions(s, e.event.user, e.now)
    ensures e.event.SuspendEvent? ==> Next(s, e) == SuspendOrganization(s, e.event.organization, e.now).0
    ensures e.event.EditUser? ==> Next(s, e) == s.(users := s.users[e.event.user := e.event.newUser])
    ensures e.event.EditOrganization? ==>
              Next(s, e) == s.(organizations := s.organizations[e.event.organization := e.event.newOrganization])
  {
    assert ([e] + rest)[1..] == rest;
  }
}
