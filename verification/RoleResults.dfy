/** Who holds and is excluded from what after each role operation, and when it is refused. */
module RoleResults {
  import opened Wrappers
  import opened RoleGovernance
  import opened RoleTheorems

  predicate Holds(s: State, r: RoleId, p: PermissionId) {
    (r, p) in s.grants
  }

  predicate Excludes(s: State, r: RoleId, p: PermissionId) {
    (r, p) in s.exclusions
  }

  predicate IsLocked(s: State, p: PermissionId) {
    p in s.permissions && s.permissions[p].state == Locked
  }

  /** The role holds what was asked for, and the locked permissions it held; no other role's grants changed. */
  ghost predicate HoldsExactly(s: State, s': State, r: RoleId, ids: set<PermissionId>) {
    forall q, p :: Holds(s', q, p) <==>
      if q == r then p in ids || (Holds(s, r, p) && IsLocked(s, p)) else Holds(s, q, p)
  }

  /** Every permission asked for exists and may be given. */
  predicate MayBeGiven(s: State, ids: set<PermissionId>, allowRestricted: bool) {
    forall p :: p in ids ==>
      && p in s.permissions && s.permissions[p].state == Active && s.permissions[p].organizationScope
      && (allowRestricted || s.permissions[p].assignable)
  }

  lemma ValidatedExactlyWhen(s: State, ids: set<PermissionId>, allowRestricted: bool)
    ensures var r := Validated(s, ids, allowRestricted);
            && (r.Ok? <==> MayBeGiven(s, ids, allowRestricted)) && (r.Ok? ==> r.value == ids)
            && (r == Err(PermissionNotFound) <==> exists p :: p in ids && p !in s.permissions)
  {
  }

  lemma ReplacedHolds(s: State, s': State, r: RoleId, ids: set<PermissionId>)
    requires s'.grants == ReplaceGrants(s, {r}, ids)
    ensures HoldsExactly(s, s', r, ids)
  {
    forall q, p
      ensures Holds(s', q, p) <==>
                if q == r then p in ids || (Holds(s, r, p) && IsLocked(s, p)) else Holds(s, q, p)
    {
      ReplacedGrants(s, {r}, ids, q);
      HeldPairs(s'.grants, q, p);
      HeldPairs(s.grants, q, p);
    }
  }

  /** No role but r changed. */
  ghost predicate OnlyRole(s: State, s': State, r: RoleId) {
    && s'.permissions == s.permissions
    && forall q :: q != r ==> (q in s'.roles <==> q in s.roles) && (q in s.roles ==> s'.roles[q] == s.roles[q])
  }

  /** Replacing a template's permissions: the next version of it, with the permissions asked for. */
  lemma UpdateTemplateResult(s: State, r: RoleId, ids: set<PermissionId>)
    ensures var result := UpdateTemplate(s, r, ids);
            && (result.Ok? <==> r in s.roles && !s.roles[r].deleted && s.roles[r].kind == Template
                                && MayBeGiven(s, ids, true))
            && (result.Ok? ==>
                  var s' := result.value;
                  && HoldsExactly(s, s', r, ids) && s'.exclusions == s.exclusions && OnlyRole(s, s', r)
                  && r in s'.roles && s'.nextRole == s.nextRole
                  && s'.roles[r] == s.roles[r].(templateVersion := s.roles[r].templateVersion + 1, customized := false))
  {
    ValidatedExactlyWhen(s, ids, true);
    if UpdateTemplate(s, r, ids).Ok? {
      ReplacedHolds(s, UpdateTemplate(s, r, ids).value, r, ids);
    }
  }

  /** A role derived from a template: all the template holds, recorded with the template and its version. */
  lemma DeriveResult(s: State, template: RoleId, organization: nat, organizationExists: bool, slugFree: bool)
    requires Inv(s)
    ensures var result := Derive(s, template, organization, organizationExists, slugFree);
            && (result.Ok? <==> template in s.roles && !s.roles[template].deleted && s.roles[template].kind == Template
                                && organizationExists && slugFree)
            && (result.Ok? ==>
                  var s' := result.value;
                  && (forall p :: Holds(s', s.nextRole, p) <==> Holds(s, template, p))
                  && (forall q, p :: q != s.nextRole ==> (Holds(s', q, p) <==> Holds(s, q, p)))
                  && s'.exclusions == s.exclusions && OnlyRole(s, s', s.nextRole) && s'.nextRole == s.nextRole + 1
                  && s.nextRole in s'.roles && s'.roles[s.nextRole] ==
                       Role(OrganizationRole, Some(organization), Some(template), 1,
                            Some(s.roles[template].templateVersion), false, false))
  {
    var result := Derive(s, template, organization, organizationExists, slugFree);
    TemplateGrantsPropagate(s, template);
    if result.Ok? {
      var ids := Held(s.grants, template);
      var role := Role(OrganizationRole, Some(organization), Some(template), 1,
                       Some(s.roles[template].templateVersion), false, false);
      ReplacedHolds(NewRole(s, role), result.value, s.nextRole, ids);
      assert HoldsExactly(NewRole(s, role), result.value, s.nextRole, ids);
      forall p ensures (p in ids <==> Holds(s, template, p)) && !Holds(s, s.nextRole, p) {
        HeldPairs(s.grants, template, p);
      }
    }
  }

  /** A role made for an organization: the permissions asked for, no template. */
  lemma CreateResult(s: State, organization: nat, ids: set<PermissionId>, allowRestricted: bool, slugFree: bool)
    requires Inv(s)
    ensures var result := CreateRole(s, organization, ids, allowRestricted, slugFree);
            && (result.Ok? <==> MayBeGiven(s, ids, allowRestricted) && slugFree)
            && (result.Ok? ==>
                  var s' := result.value;
                  && HoldsExactly(s, s', s.nextRole, ids) && (forall p :: Holds(s', s.nextRole, p) <==> p in ids)
                  && s'.exclusions == s.exclusions && OnlyRole(s, s', s.nextRole) && s'.nextRole == s.nextRole + 1
                  && s.nextRole in s'.roles && s'.roles[s.nextRole] ==
                       Role(OrganizationRole, Some(organization), None, 1, None, true, false))
  {
    ValidatedExactlyWhen(s, ids, allowRestricted);
    var result := CreateRole(s, organization, ids, allowRestricted, slugFree);
    if result.Ok? {
      var role := Role(OrganizationRole, Some(organization), None, 1, None, true, false);
      ReplacedHolds(NewRole(s, role), result.value, s.nextRole, ids);
      assert HoldsExactly(NewRole(s, role), result.value, s.nextRole, ids);
      assert forall p :: !Holds(s, s.nextRole, p);
    }
  }

  predicate IsRoleOf(s: State, organization: nat, r: RoleId) {
    && r in s.roles && !s.roles[r].deleted
    && s.roles[r].organization == Some(organization) && s.roles[r].kind == OrganizationRole
  }

  /**
   Editing a role: it ends with the permissions asked for and the locked ones it held, and a
   derived role excludes exactly what its template holds and it does not.
   */
  lemma UpdateRoleResult(s: State, organization: nat, r: RoleId, ids: set<PermissionId>, allowRestricted: bool)
    requires Inv(s)
    ensures var result := UpdateRolePermissions(s, organization, r, ids, allowRestricted);
            && (result.Ok? <==> IsRoleOf(s, organization, r) && MayBeGiven(s, ids, allowRestricted))
            && (result.Ok? ==>
                  var s' := result.value;
                  && HoldsExactly(s, s', r, ids) && OnlyRole(s, s', r) && s'.nextRole == s.nextRole
                  && r in s'.roles && s'.roles[r] == s.roles[r].(customized := true)
                  && (forall q, p :: q != r ==> (Excludes(s', q, p) <==> Excludes(s, q, p)))
                  && (forall p :: Excludes(s', r, p) <==>
                        s.roles[r].source.Some? && Holds(s', s.roles[r].source.value, p) && !Holds(s', r, p)))
  {
    ValidatedExactlyWhen(s, ids, allowRestricted);
    var result := UpdateRolePermissions(s, organization, r, ids, allowRestricted);
    if result.Ok? {
      var s' := result.value;
      ReplacedHolds(s, s', r, ids);
      forall p ensures Excludes(s', r, p) <==>
                         s.roles[r].source.Some? && Holds(s', s.roles[r].source.value, p) && !Holds(s', r, p)
      {
        ExclusionOf(s, organization, r, ids, allowRestricted, p);
      }
    }
  }

  lemma ExclusionOf(
    s: State, organization: nat, r: RoleId, ids: set<PermissionId>, allowRestricted: bool, p: PermissionId)
    requires Inv(s) && UpdateRolePermissions(s, organization, r, ids, allowRestricted).Ok?
    ensures var s' := UpdateRolePermissions(s, organization, r, ids, allowRestricted).value;
            Excludes(s', r, p) <==>
              s.roles[r].source.Some? && Holds(s', s.roles[r].source.value, p) && !Holds(s', r, p)
  {
    var replaced := ReplacePermissions(s, r, ids, true);
    ValidatedExactlyWhen(s, ids, allowRestricted);
    ReplacedHolds(s, replaced, r, ids);
    HeldPairs(replaced.grants, r, p);
    if s.roles[r].source.Some? {
      HeldPairs(replaced.grants, s.roles[r].source.value, p);
    } else {
      TemplatesHaveNoExclusions(s, r);
    }
  }

  /** Deleting a role keeps its rows, and is refused while the role is assigned. */
  lemma DeleteResult(s: State, organization: nat, r: RoleId, assignedToActive: bool)
    ensures var result := DeleteRole(s, organization, r, assignedToActive);
            && (result.Ok? <==> IsRoleOf(s, organization, r) && !assignedToActive)
            && (result.Ok? ==>
                  result.value == s.(roles := result.value.roles) && OnlyRole(s, result.value, r)
                  && r in result.value.roles && result.value.roles[r] == s.roles[r].(deleted := true))
  {
  }

  /** A change of state touches that permission only, and the grants only if it becomes inactive. */
  lemma LifecycleResult(s: State, p: PermissionId, state: Lifecycle)
    ensures var result := ChangeLifecycle(s, p, state);
            && (result.Ok? <==> p in s.permissions)
            && (result.Ok? ==>
                  var s' := result.value;
                  && s' == s.(permissions := s.permissions[p := s.permissions[p].(state := state)], grants := s'.grants)
                  && (forall r, q :: Holds(s', r, q) <==> Holds(s, r, q) && !(q == p && state == Inactive)))
  {
  }

  /** The roles a sync reaches: live ones derived from the template that the request does not leave out. */
  predicate IsTarget(s: State, template: RoleId, roleIds: set<RoleId>, organization: Option<nat>, r: RoleId) {
    && r in s.roles && !s.roles[r].deleted && s.roles[r].source == Some(template)
    && (roleIds == {} || r in roleIds)
    && (organization.Some? ==> s.roles[r].organization == organization)
  }

  /** What a sync leaves of one role: of a target the template's grants and version, of any other nothing new. */
  lemma SyncedRoleResult(s: State, template: RoleId, roleIds: set<RoleId>, organization: Option<nat>, r: RoleId)
    requires Inv(s)
    ensures var result := Sync(s, template, roleIds, organization);
            && (result.Ok? <==> template in s.roles && !s.roles[template].deleted && s.roles[template].kind == Template)
            && (result.Ok? ==>
                  var s' := result.value;
                  && s'.permissions == s.permissions && s'.nextRole == s.nextRole && s'.roles.Keys == s.roles.Keys
                  && (IsTarget(s, template, roleIds, organization, r) ==>
                        && (forall p :: Holds(s', r, p) <==>
                              Holds(s, template, p) || (Holds(s, r, p) && IsLocked(s, p)))
                        && (forall p :: !Excludes(s', r, p))
                        && s'.roles[r] == s.roles[r].(customized := false,
                                                      sourceVersion := Some(s.roles[template].templateVersion)))
                  && (!IsTarget(s, template, roleIds, organization, r) ==>
                        && (forall p :: Holds(s', r, p) <==> Holds(s, r, p))
                        && (forall p :: Excludes(s', r, p) <==> Excludes(s, r, p))
                        && (r in s.roles ==> s'.roles[r] == s.roles[r])))
  {
    TemplateGrantsPropagate(s, template);
    var result := Sync(s, template, roleIds, organization);
    if result.Ok? {
      SyncResult(s, template, roleIds, organization, r);
      forall p
        ensures Holds(s, r, p) <==> p in Held(s.grants, r)
        ensures Holds(s, template, p) <==> p in Held(s.grants, template)
        ensures Holds(result.value, r, p) <==> p in Held(result.value.grants, r)
      {
        HeldPairs(s.grants, r, p);
        HeldPairs(s.grants, template, p);
        HeldPairs(result.value.grants, r, p);
      }
    }
  }

  function Settled(s: State, result: Result<State, Error>): State {
    if result.Ok? then result.value else s
  }

  /** A run goes through the operations one after the other, a refused one changing nothing. */
  lemma StepsAreOperations(s: State, e: Event, rest: seq<Event>)
    ensures Run(s, [e] + rest) == Run(Settled(s, Apply(s, e)), rest)
    ensures e.UpdateTemplateEvent? ==> Apply(s, e) == UpdateTemplate(s, e.role, e.ids)
    ensures e.DeriveEvent? ==> Apply(s, e) == Derive(s, e.template, e.organization, e.organizationExists, e.slugFree)
    ensures e.SyncEvent? ==> Apply(s, e) == Sync(s, e.template, e.roleIds, e.onlyOrganization)
    ensures e.CreateEvent? ==> Apply(s, e) == CreateRole(s, e.organization, e.ids, e.allowRestricted, e.slugFree)
    ensures e.UpdateEvent? ==>
              Apply(s, e) == UpdateRolePermissions(s, e.organization, e.role, e.ids, e.allowRestricted)
    ensures e.DeleteEvent? ==> Apply(s, e) == DeleteRole(s, e.organization, e.role, e.assignedToActive)
    ensures e.LifecycleEvent? ==> Apply(s, e) == ChangeLifecycle(s, e.permission, e.state)
  {
    assert ([e] + rest)[1..] == rest;
  }
}
