/** What governance promises about locked permissions, exclusions and template sync. */
module RoleTheorems {
  import opened Wrappers
  import opened Sets
  import opened RoleGovernance

  // ---- the invariant

  lemma ReplacedStaysAllowed(s: State, s': State, targets: set<RoleId>, ids: set<PermissionId>)
    requires GrantsAllowed(s) && s'.grants == ReplaceGrants(s, targets, ids)
    requires s'.permissions == s.permissions && s.roles.Keys <= s'.roles.Keys && targets <= s'.roles.Keys
    requires forall p :: p in ids ==> Grantable(s, p)
    ensures GrantsAllowed(s')
  {
    forall r, p | (r, p) in s'.grants ensures r in s'.roles && Grantable(s', p) {
      if (r, p) !in s.grants && p !in ids {
        HeldPairs(s.grants, r, p);
      }
      if p in LockedHeld(s, r) {
        HeldPairs(s.grants, r, p);
      }
    }
  }

  lemma ValidatedAreGrantable(s: State, ids: set<PermissionId>, allowRestricted: bool)
    requires Validated(s, ids, allowRestricted).Ok?
    ensures Validated(s, ids, allowRestricted).value == ids
    ensures forall p :: p in ids ==> Grantable(s, p) && s.permissions[p].state.Active?
  {
  }

  /** What a template holds always propagates whole: sync and derivation are never refused. */
  lemma TemplateGrantsPropagate(s: State, template: RoleId)
    requires Inv(s)
    ensures ForPropagation(s, Held(s.grants, template), true) == Ok(Held(s.grants, template))
  {
    var ids := Held(s.grants, template);
    forall p | p in ids ensures Grantable(s, p) {
      HeldPairs(s.grants, template, p);
    }
    var locked := set p | p in ids && s.permissions[p].state.Locked?;
    var active := set p | p in ids && s.permissions[p].state.Active?;
    assert Validated(s, active, true) == Ok(active);
    assert active + locked == ids;
  }

  lemma ReplaceKeepsInv(s: State, r: RoleId, ids: set<PermissionId>, customized: bool)
    requires Inv(s) && r in s.roles && forall p :: p in ids ==> Grantable(s, p)
    requires forall x :: x in s.exclusions ==> x.0 != r
    ensures Inv(ReplacePermissions(s, r, ids, customized))
  {
    ReplacedStaysAllowed(s, ReplacePermissions(s, r, ids, customized), {r}, ids);
  }

  lemma NewRoleKeepsInv(s: State, role: Role)
    requires Inv(s)
    requires role.source.Some? ==>
               role.kind.OrganizationRole? && role.source.value in s.roles && s.roles[role.source.value].kind.Template?
    ensures Inv(NewRole(s, role)) && forall x :: x in s.exclusions ==> x.0 != s.nextRole
  {
    var s' := NewRole(s, role);
    assert forall r, p :: (r, p) in s.exclusions ==> r in s.roles;
    forall x | x in s.exclusions ensures x.0 != s.nextRole {
      assert (x.0, x.1) in s.exclusions;
    }
  }

  lemma TemplatesHaveNoExclusions(s: State, r: RoleId)
    requires Inv(s) && r in s.roles && s.roles[r].source.None?
    ensures forall x :: x in s.exclusions ==> x.0 != r
  {
    forall x | x in s.exclusions ensures x.0 != r {
      assert (x.0, x.1) in s.exclusions;
    }
  }

  lemma UpdateTemplateKeepsInv(s: State, r: RoleId, ids: set<PermissionId>)
    requires Inv(s) && UpdateTemplate(s, r, ids).Ok?
    ensures Inv(UpdateTemplate(s, r, ids).value)
  {
    ValidatedAreGrantable(s, ids, true);
    TemplatesHaveNoExclusions(s, r);
    ReplaceKeepsInv(s, r, ids, false);
  }

  lemma DeriveKeepsInv(s: State, t: RoleId, o: nat, present: bool, slugFree: bool)
    requires Inv(s) && Derive(s, t, o, present, slugFree).Ok?
    ensures Inv(Derive(s, t, o, present, slugFree).value)
  {
    TemplateGrantsPropagate(s, t);
    var role := Role(OrganizationRole, Some(o), Some(t), 1, Some(s.roles[t].templateVersion), false, false);
    NewRoleKeepsInv(s, role);
    var ids := Held(s.grants, t);
    forall p | p in ids ensures Grantable(NewRole(s, role), p) {
      HeldPairs(s.grants, t, p);
    }
    ReplaceKeepsInv(NewRole(s, role), s.nextRole, ids, false);
  }

  lemma CreateKeepsInv(s: State, o: nat, ids: set<PermissionId>, allow: bool, slugFree: bool)
    requires Inv(s) && CreateRole(s, o, ids, allow, slugFree).Ok?
    ensures Inv(CreateRole(s, o, ids, allow, slugFree).value)
  {
    ValidatedAreGrantable(s, ids, allow);
    var role := Role(OrganizationRole, Some(o), None, 1, None, true, false);
    NewRoleKeepsInv(s, role);
    ReplaceKeepsInv(NewRole(s, role), s.nextRole, ids, true);
  }

  lemma SyncKeepsInv(s: State, t: RoleId, roleIds: set<RoleId>, o: Option<nat>)
    requires Inv(s) && Sync(s, t, roleIds, o).Ok?
    ensures Inv(Sync(s, t, roleIds, o).value)
  {
    TemplateGrantsPropagate(s, t);
    var s' := Sync(s, t, roleIds, o).value;
    var ids := Held(s.grants, t);
    forall p | p in ids ensures Grantable(s, p) {
      HeldPairs(s.grants, t, p);
    }
    ReplacedStaysAllowed(s, s', SyncTargets(s, t, roleIds, o), ids);
    forall r, p | (r, p) in s'.exclusions
      ensures (r, p) !in s'.grants && r in s'.roles && s'.roles[r].source.Some? {
      assert (r, p) in s.exclusions;
    }
  }

  lemma UpdateRoleKeepsInv(s: State, o: nat, r: RoleId, ids: set<PermissionId>, allow: bool)
    requires Inv(s) && UpdateRolePermissions(s, o, r, ids, allow).Ok?
    ensures Inv(UpdateRolePermissions(s, o, r, ids, allow).value)
  {
    ValidatedAreGrantable(s, ids, allow);
    if s.roles[r].source.None? {
      TemplatesHaveNoExclusions(s, r);
      ReplaceKeepsInv(s, r, ids, true);
    } else {
      var replaced := ReplacePermissions(s, r, ids, true);
      var s' := UpdateRolePermissions(s, o, r, ids, allow).value;
      ReplacedStaysAllowed(s, replaced, {r}, ids);
      ReplacedStaysAllowed(s, s', {r}, ids);
      forall q, p | (q, p) in s'.exclusions
        ensures (q, p) !in s'.grants && q in s'.roles && s'.roles[q].source.Some? {
        if q == r {
          ExclusionNotHeld(s, r, ids, p);
        } else {
          assert (q, p) in s.exclusions;
        }
      }
    }
  }

  /** What the editor left out of a role, other than its locked grants, is not held. */
  lemma ExclusionNotHeld(s: State, r: RoleId, ids: set<PermissionId>, p: PermissionId)
    requires r in s.roles && p !in ids && p !in LockedHeld(ReplacePermissions(s, r, ids, true), r)
    ensures (r, p) !in ReplacePermissions(s, r, ids, true).grants
  {
    var s' := ReplacePermissions(s, r, ids, true);
    ReplacedGrants(s, {r}, ids, r);
    HeldPairs(s'.grants, r, p);
  }

  lemma NextKeepsInv(s: State, e: Event)
    requires Inv(s)
    ensures Inv(Next(s, e))
  {
    if Apply(s, e).Ok? {
      match e
      case UpdateTemplateEvent(r, ids) => UpdateTemplateKeepsInv(s, r, ids);
      case DeriveEvent(t, o, present, slugFree) => DeriveKeepsInv(s, t, o, present, slugFree);
      case SyncEvent(t, roleIds, o) => SyncKeepsInv(s, t, roleIds, o);
      case CreateEvent(o, ids, allow, slugFree) => CreateKeepsInv(s, o, ids, allow, slugFree);
      case UpdateEvent(o, r, ids, allow) => UpdateRoleKeepsInv(s, o, r, ids, allow);
      case DeleteEvent(_, _, _) =>
      case LifecycleEvent(_, _) =>
    }
  }

  /**
   No reachable role holds an inactive or system-scoped permission, and no exclusion names
   a permission its role holds.
   */
  lemma {:induction false} RunKeepsInv(s: State, events: seq<Event>)
    requires Inv(s)
    ensures Inv(Run(s, events))
    decreases |events|
  {
    if events != [] {
      NextKeepsInv(s, events[0]);
      RunKeepsInv(Next(s, events[0]), events[1..]);
    }
  }

  // ---- locked permissions

  ghost predicate LeavesAlone(events: seq<Event>, p: PermissionId) {
    forall e :: e in events && e.LifecycleEvent? ==> e.permission != p
  }

  lemma LockedGrantSurvives(s: State, e: Event, r: RoleId, p: PermissionId)
    requires p in s.permissions && s.permissions[p].state.Locked? && (r, p) in s.grants
    requires e.LifecycleEvent? ==> e.permission != p
    ensures p in Next(s, e).permissions && Next(s, e).permissions[p] == s.permissions[p]
    ensures (r, p) in Next(s, e).grants
  {
    HeldPairs(s.grants, r, p);
    assert p in LockedHeld(s, r);
  }

  /** A role's permission counts only while the role lives and the permission is active. */
  ghost predicate HasAccess(s: State, r: RoleId, p: PermissionId) {
    IsLive(s, r) && (r, p) in s.grants && Grantable(s, p) && s.permissions[p].state.Active?
  }

  /**
   While a permission is locked nothing takes it from a role that held it, so unlocking
   gives every such role, if it was not deleted meanwhile, its access back.
   */
  lemma {:induction false} UnlockRestoresAccess(s: State, events: seq<Event>, r: RoleId, p: PermissionId)
    requires Inv(s) && p in s.permissions && s.permissions[p].state.Locked? && (r, p) in s.grants
    requires LeavesAlone(events, p)
    ensures var later := Run(s, events);
            var unlocked := Next(later, LifecycleEvent(p, Active));
            && (r, p) in later.grants && !HasAccess(later, r, p)
            && (IsLive(later, r) ==> HasAccess(unlocked, r, p))
    decreases |events|
  {
    if events == [] {
    } else {
      assert events[0] in events;
      LockedGrantSurvives(s, events[0], r, p);
      NextKeepsInv(s, events[0]);
      assert forall e :: e in events[1..] ==> e in events;
      UnlockRestoresAccess(Next(s, events[0]), events[1..], r, p);
    }
  }

  // ---- template sync

  /** Sync gives each target the template's grants plus its own locked ones, and no exclusions. */
  lemma SyncResult(s: State, template: RoleId, roleIds: set<RoleId>, organization: Option<nat>, r: RoleId)
    requires Inv(s) && IsLive(s, template) && s.roles[template].kind.Template?
    ensures Sync(s, template, roleIds, organization).Ok?
    ensures var s' := Sync(s, template, roleIds, organization).value;
            var isTarget := r in SyncTargets(s, template, roleIds, organization);
            && (isTarget ==> Held(s'.grants, r) == Held(s.grants, template) + LockedHeld(s, r) &&
                             Held(s'.exclusions, r) == {})
            && (!isTarget ==> Held(s'.grants, r) == Held(s.grants, r) &&
                              Held(s'.exclusions, r) == Held(s.exclusions, r))
            && Held(s'.grants, template) == Held(s.grants, template)
  {
    TemplateGrantsPropagate(s, template);
    var targets := SyncTargets(s, template, roleIds, organization);
    ReplacedGrants(s, targets, Held(s.grants, template), r);
    ReplacedGrants(s, targets, Held(s.grants, template), template);
    assert template !in targets;
  }

  /**
   The preview is honest: it counts the additions exactly, and the removals exactly when the
   role holds no locked permission outside the template; otherwise it counts too many.
   */
  lemma PreviewIsHonest(s: State, template: RoleId, roleIds: set<RoleId>, organization: Option<nat>, r: RoleId)
    requires Inv(s) && IsLive(s, template) && s.roles[template].kind.Template?
    requires r in SyncTargets(s, template, roleIds, organization)
    ensures Sync(s, template, roleIds, organization).Ok?
    ensures var s' := Sync(s, template, roleIds, organization).value;
            var added := Held(s'.grants, r) - Held(s.grants, r);
            var removed := Held(s.grants, r) - Held(s'.grants, r);
            && PreviewAddCount(s, template, r) == |added|
            && |removed| <= PreviewRemoveCount(s, template, r)
            && (|removed| == PreviewRemoveCount(s, template, r) <==> LockedHeld(s, r) <= Held(s.grants, template))
  {
    SyncResult(s, template, roleIds, organization, r);
    var s' := Sync(s, template, roleIds, organization).value;
    var held, held', wanted := Held(s.grants, r), Held(s'.grants, r), Held(s.grants, template);
    assert held' - held == wanted - held;
    assert held - held' == (held - wanted) - LockedHeld(s, r);
    SubsetSize(held - held', held - wanted);
    if LockedHeld(s, r) <= wanted {
      assert held - held' == held - wanted;
    } else {
      var p :| p in LockedHeld(s, r) && p !in wanted;
      assert p in held - wanted && p !in held - held';
    }
  }

  /** Syncing again changes nothing. */
  lemma SyncIsIdempotent(s: State, template: RoleId, roleIds: set<RoleId>, organization: Option<nat>)
    requires Inv(s) && Sync(s, template, roleIds, organization).Ok?
    ensures var s' := Sync(s, template, roleIds, organization).value;
            Sync(s', template, roleIds, organization) == Ok(s')
  {
    var s' := Sync(s, template, roleIds, organization).value;
    SyncKeepsInv(s, template, roleIds, organization);
    SyncResult(s, template, roleIds, organization, template);
    TemplateGrantsPropagate(s', template);
    var targets := SyncTargets(s, template, roleIds, organization);
    var ids := Held(s.grants, template);
    assert SyncTargets(s', template, roleIds, organization) == targets;
    forall x ensures x in ReplaceGrants(s', targets, ids) <==> x in s'.grants {
      SyncResult(s, template, roleIds, organization, x.0);
      ReplacedGrants(s', targets, ids, x.0);
      HeldPairs(s'.grants, x.0, x.1);
      HeldPairs(ReplaceGrants(s', targets, ids), x.0, x.1);
    }
    var again := SyncRoles(s', targets, ids, s.roles[template].templateVersion);
    assert again.roles == s'.roles;
    assert again.exclusions == s'.exclusions;
    assert again.grants == s'.grants;
  }

  /** Every state reached from roles that hold nothing yet satisfies the invariant. */
  lemma EveryReachableState(
    permissions: map<PermissionId, Permission>, roles: map<RoleId, Role>, nextRole: RoleId, events: seq<Event>)
    requires forall r :: r in roles ==> r < nextRole && roles[r].source.None?
    ensures var s := Run(State(permissions, roles, {}, {}, nextRole), events);
            && Inv(s)
            && (forall r, p :: (r, p) in s.grants ==>
                  && p in s.permissions && s.permissions[p].state != Inactive && s.permissions[p].organizationScope
                  && (r, p) !in s.exclusions)
  {
    var s := State(permissions, roles, {}, {}, nextRole);
    RunKeepsInv(s, events);
  }
}
