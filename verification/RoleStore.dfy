/** The governance routes as they change the role, grant and exclusion tables in place. */
module RoleStore {
  import opened Wrappers
  import opened RoleGovernance

  /** A request either reaches the state of its specification or is rolled back. */
  ghost predicate Settles(before: State, after: State, expected: Result<State, Error>, r: Result<(), Error>) {
    match expected
    case Ok(s) => r.Ok? && after == s
    case Err(e) => r == Err(e) && after == before
  }

  class Store {
    var permissions: map<PermissionId, Permission>
    var roles: map<RoleId, Role>
    var grants: Pairs
    var exclusions: Pairs
    var nextRole: RoleId

    function Snapshot(): State
      reads this
    {
      State(permissions, roles, grants, exclusions, nextRole)
    }

    constructor (s: State)
      ensures Snapshot() == s
    {
      permissions, roles, grants, exclusions, nextRole :=
        s.permissions, s.roles, s.grants, s.exclusions, s.nextRole;
    }

    /** Drops all grants of the role, then inserts the wanted ones and the kept locked ones. */
    method ReplacePermissions(r: RoleId, ids: set<PermissionId>, customized: bool)
      requires r in roles
      modifies this`grants, this`roles
      ensures Snapshot() == RoleGovernance.ReplacePermissions(old(Snapshot()), r, ids, customized)
    {
      var merged := ids + LockedHeld(Snapshot(), r);
      grants := set g | g in grants && g.0 != r;
      ghost var others := grants;
      var rest := merged;
      while rest != {}
        invariant rest <= merged && roles == old(roles)
        invariant grants == others + (set p | p in merged - rest :: (r, p))
        decreases rest
      {
        var p :| p in rest;
        grants := grants + {(r, p)};
        rest := rest - {p};
      }
      assert merged - rest == merged;
      roles := roles[r := roles[r].(customized := customized)];
      assert grants == ReplaceGrants(old(Snapshot()), {r}, ids);
    }

    method UpdateTemplate(r: RoleId, ids: set<PermissionId>) returns (result: Result<(), Error>)
      modifies this
      ensures Settles(old(Snapshot()), Snapshot(), RoleGovernance.UpdateTemplate(old(Snapshot()), r, ids), result)
    {
      if !IsLive(Snapshot(), r) {
        return Err(RoleNotFound);
      }
      if !roles[r].kind.Template? {
        return Err(NotATemplate);
      }
      var valid := Validated(Snapshot(), ids, true);
      if valid.Err? {
        return Err(valid.error);
      }
      ReplacePermissions(r, valid.value, false);
      roles := roles[r := roles[r].(templateVersion := roles[r].templateVersion + 1)];
      return Ok(());
    }

    method AddRole(role: Role) returns (r: RoleId)
      modifies this`roles, this`nextRole
      ensures r == old(nextRole) && Snapshot() == NewRole(old(Snapshot()), role)
    {
      r := nextRole;
      roles := roles[r := role];
      nextRole := nextRole + 1;
    }

    method Derive(template: RoleId, organization: nat, organizationExists: bool, slugFree: bool)
      returns (result: Result<(), Error>)
      modifies this
      ensures Settles(old(Snapshot()), Snapshot(),
                      RoleGovernance.Derive(old(Snapshot()), template, organization, organizationExists, slugFree),
                      result)
    {
      if !IsLive(Snapshot(), template) {
        return Err(RoleNotFound);
      }
      if !roles[template].kind.Template? || !organizationExists {
        return Err(OrganizationNotFound);
      }
      if !slugFree {
        return Err(SlugTaken);
      }
      var valid := ForPropagation(Snapshot(), Held(grants, template), true);
      if valid.Err? {
        return Err(valid.error);
      }
      var r := AddRole(Role(OrganizationRole, Some(organization), Some(template), 1,
                            Some(roles[template].templateVersion), false, false));
      ReplacePermissions(r, valid.value, false);
      return Ok(());
    }

    /** Brings each selected role in line with its template, one role at a time. */
    method Sync(template: RoleId, roleIds: set<RoleId>, organization: Option<nat>) returns (result: Result<(), Error>)
      modifies this
      ensures Settles(old(Snapshot()), Snapshot(),
                      RoleGovernance.Sync(old(Snapshot()), template, roleIds, organization), result)
    {
      if !IsLive(Snapshot(), template) {
        return Err(RoleNotFound);
      }
      if !roles[template].kind.Template? {
        return Err(NotATemplate);
      }
      var valid := ForPropagation(Snapshot(), Held(grants, template), true);
      if valid.Err? {
        return Err(valid.error);
      }
      SyncAll(SyncTargets(Snapshot(), template, roleIds, organization), valid.value, roles[template].templateVersion);
      return Ok(());
    }

    method SyncAll(targets: set<RoleId>, ids: set<PermissionId>, version: nat)
      requires targets <= roles.Keys
      modifies this
      ensures Snapshot() == SyncRoles(old(Snapshot()), targets, ids, version)
    {
      ghost var before := Snapshot();
      var rest := targets;
      while rest != {}
        invariant rest <= targets
        invariant Snapshot() == SyncRoles(before, targets - rest, ids, version)
        decreases rest
      {
        var r :| r in rest;
        ReplacePermissions(r, ids, false);
        roles := roles[r := roles[r].(sourceVersion := Some(version))];
        exclusions := set x | x in exclusions && x.0 != r;
        SyncOneMore(before, targets - rest, ids, version, r, Snapshot());
        assert targets - (rest - {r}) == (targets - rest) + {r};
        rest := rest - {r};
      }
      assert targets - rest == targets;
    }

    method CreateRole(organization: nat, ids: set<PermissionId>, allowRestricted: bool, slugFree: bool)
      returns (result: Result<(), Error>)
      modifies this
      ensures Settles(old(Snapshot()), Snapshot(),
                      RoleGovernance.CreateRole(old(Snapshot()), organization, ids, allowRestricted, slugFree), result)
    {
      var valid := Validated(Snapshot(), ids, allowRestricted);
      if valid.Err? {
        return Err(valid.error);
      }
      if !slugFree {
        return Err(SlugTaken);
      }
      var r := AddRole(Role(OrganizationRole, Some(organization), None, 1, None, true, false));
      ReplacePermissions(r, valid.value, true);
      return Ok(());
    }

    method UpdateRolePermissions(organization: nat, r: RoleId, ids: set<PermissionId>, allowRestricted: bool)
      returns (result: Result<(), Error>)
      modifies this
      ensures Settles(old(Snapshot()), Snapshot(),
                      RoleGovernance.UpdateRolePermissions(old(Snapshot()), organization, r, ids, allowRestricted),
                      result)
    {
      if !IsOrganizationRole(Snapshot(), organization, r) {
        return Err(RoleNotFound);
      }
      var valid := Validated(Snapshot(), ids, allowRestricted);
      if valid.Err? {
        return Err(valid.error);
      }
      ReplacePermissions(r, valid.value, true);
      if roles[r].source.Some? {
        var excluded := Held(grants, roles[r].source.value) - ids - LockedHeld(Snapshot(), r);
        ReplaceExclusions(r, excluded);
      }
      return Ok(());
    }

    method ReplaceExclusions(r: RoleId, excluded: set<PermissionId>)
      modifies this`exclusions
      ensures exclusions == (set x | x in old(exclusions) && x.0 != r) + (set p | p in excluded :: (r, p))
    {
      exclusions := set x | x in exclusions && x.0 != r;
      ghost var others := exclusions;
      var rest := excluded;
      while rest != {}
        invariant rest <= excluded
        invariant exclusions == others + (set p | p in excluded - rest :: (r, p))
        decreases rest
      {
        var p :| p in rest;
        exclusions := exclusions + {(r, p)};
        rest := rest - {p};
      }
      assert excluded - rest == excluded;
    }

    method DeleteRole(organization: nat, r: RoleId, assignedToActive: bool) returns (result: Result<(), Error>)
      modifies this`roles
      ensures Settles(old(Snapshot()), Snapshot(),
                      RoleGovernance.DeleteRole(old(Snapshot()), organization, r, assignedToActive), result)
    {
      if !IsOrganizationRole(Snapshot(), organization, r) {
        return Err(RoleNotFound);
      }
      if assignedToActive {
        return Err(RoleInUse);
      }
      roles := roles[r := roles[r].(deleted := true)];
      return Ok(());
    }

    method ChangeLifecycle(p: PermissionId, state: Lifecycle) returns (result: Result<(), Error>)
      modifies this`permissions, this`grants
      ensures Settles(old(Snapshot()), Snapshot(), RoleGovernance.ChangeLifecycle(old(Snapshot()), p, state), result)
    {
      if p !in permissions {
        return Err(PermissionNotFound);
      }
      permissions := permissions[p := permissions[p].(state := state)];
      if state.Inactive? {
        grants := set g | g in grants && g.1 != p;
      }
      return Ok(());
    }
  }

  /** Syncing one more role on top of those already done. */
  lemma SyncOneMore(s: State, done: set<RoleId>, ids: set<PermissionId>, version: nat, r: RoleId, after: State)
    requires r in s.roles && r !in done
    requires var partial := SyncRoles(s, done, ids, version);
             var replaced := RoleGovernance.ReplacePermissions(partial, r, ids, false);
             after == replaced.(
               roles := replaced.roles[r := replaced.roles[r].(sourceVersion := Some(version))],
               exclusions := set x | x in replaced.exclusions && x.0 != r)
    ensures after == SyncRoles(s, done + {r}, ids, version)
  {
    var partial := SyncRoles(s, done, ids, version);
    var full := SyncRoles(s, done + {r}, ids, version);
    assert LockedHeld(partial, r) == LockedHeld(s, r) by {
      assert Held(partial.grants, r) == Held(s.grants, r);
    }
    assert after.grants == full.grants;
    assert after.roles == full.roles;
    assert after.exclusions == full.exclusions;
  }
}
