/**
 Role templates, the organization roles derived from them, and the permission lifecycle.

 A locked permission keeps its grants so that unlocking restores access; an inactive one
 loses them for good. Grants and template exclusions are tables of (role, permission) pairs.
 */
module RoleGovernance {
  import opened Wrappers

  type RoleId = nat
  type PermissionId = nat

  datatype Lifecycle = Active | Locked | Inactive

  datatype Permission = Permission(state: Lifecycle, organizationScope: bool, assignable: bool)

  datatype RoleKind = Template | OrganizationRole | ProtectedGlobal

  datatype Role = Role(
    kind: RoleKind, organization: Option<nat>, source: Option<RoleId>,
    templateVersion: nat, sourceVersion: Option<nat>, customized: bool, deleted: bool)

  type Pairs = set<(RoleId, PermissionId)>

  datatype State = State(
    permissions: map<PermissionId, Permission>,
    roles: map<RoleId, Role>,
    grants: Pairs,
    exclusions: Pairs,
    nextRole: RoleId)

  datatype Error =
    | RoleNotFound
    | NotATemplate
    | OrganizationNotFound
    | PermissionNotFound
    | NotActive
    | SystemScope
    | Restricted
    | SlugTaken
    | RoleInUse

  function Held(pairs: Pairs, r: RoleId): set<PermissionId> {
    set g | g in pairs && g.0 == r :: g.1
  }

  function LockedHeld(s: State, r: RoleId): set<PermissionId> {
    set p | p in Held(s.grants, r) && p in s.permissions && s.permissions[p].state.Locked?
  }

  // ---- validation

  function Validated(s: State, ids: set<PermissionId>, allowRestricted: bool): Result<set<PermissionId>, Error> {
    if !(ids <= s.permissions.Keys) then Err(PermissionNotFound)
    else if exists p :: p in ids && !s.permissions[p].state.Active? then Err(NotActive)
    else if exists p :: p in ids && !s.permissions[p].organizationScope then Err(SystemScope)
    else if !allowRestricted && exists p :: p in ids && !s.permissions[p].assignable then Err(Restricted)
    else Ok(ids)
  }

  /** Active and locked permissions propagate; inactive ones are dropped. */
  function ForPropagation(s: State, ids: set<PermissionId>, allowRestricted: bool): Result<set<PermissionId>, Error> {
    if !(ids <= s.permissions.Keys) then Err(PermissionNotFound)
    else
      var locked := set p | p in ids && s.permissions[p].state.Locked?;
      if exists p :: p in locked && !s.permissions[p].organizationScope then Err(SystemScope)
      else if !allowRestricted && exists p :: p in locked && !s.permissions[p].assignable then Err(Restricted)
      else
        var active := Validated(s, (set p | p in ids && s.permissions[p].state.Active?), allowRestricted);
        if active.Err? then active else Ok(active.value + locked)
  }

  // ---- the operations

  /** Each target ends with the given permissions and the locked ones it already held. */
  function ReplaceGrants(s: State, targets: set<RoleId>, ids: set<PermissionId>): Pairs {
    (set g | g in s.grants && g.0 !in targets)
    + (set r, p | r in targets && p in ids + LockedHeld(s, r) :: (r, p))
  }

  function ReplacePermissions(s: State, r: RoleId, ids: set<PermissionId>, customized: bool): State
    requires r in s.roles
  {
    s.(grants := ReplaceGrants(s, {r}, ids), roles := s.roles[r := s.roles[r].(customized := customized)])
  }

  predicate IsLive(s: State, r: RoleId) {
    r in s.roles && !s.roles[r].deleted
  }

  predicate IsOrganizationRole(s: State, organization: nat, r: RoleId) {
    IsLive(s, r) && s.roles[r].organization == Some(organization) && s.roles[r].kind.OrganizationRole?
  }

  function UpdateTemplate(s: State, r: RoleId, ids: set<PermissionId>): Result<State, Error> {
    if !IsLive(s, r) then Err(RoleNotFound)
    else if !s.roles[r].kind.Template? then Err(NotATemplate)
    else
      var permissions := Validated(s, ids, true);
      if permissions.Err? then Err(permissions.error)
      else
        var s' := ReplacePermissions(s, r, permissions.value, false);
        Ok(s'.(roles := s'.roles[r := s'.roles[r].(templateVersion := s'.roles[r].templateVersion + 1)]))
  }

  function NewRole(s: State, role: Role): State {
    s.(roles := s.roles[s.nextRole := role], nextRole := s.nextRole + 1)
  }

  function Derive(s: State, template: RoleId, organization: nat, organizationExists: bool, slugFree: bool)
    : Result<State, Error>
  {
    if !IsLive(s, template) then Err(RoleNotFound)
    else if !s.roles[template].kind.Template? || !organizationExists then Err(OrganizationNotFound)
    else if !slugFree then Err(SlugTaken)
    else
      var permissions := ForPropagation(s, Held(s.grants, template), true);
      if permissions.Err? then Err(permissions.error)
      else
        var role := Role(OrganizationRole, Some(organization), Some(template), 1,
                         Some(s.roles[template].templateVersion), false, false);
        Ok(ReplacePermissions(NewRole(s, role), s.nextRole, permissions.value, false))
  }

  /** The derived roles a sync request selects; no role ids means all of them. */
  function SyncTargets(s: State, template: RoleId, roleIds: set<RoleId>, organization: Option<nat>): set<RoleId> {
    set r | && r in s.roles && s.roles[r].source == Some(template) && !s.roles[r].deleted
            && (roleIds == {} || r in roleIds)
            && (organization.None? || s.roles[r].organization == organization)
  }

  function SyncedRole(role: Role, version: nat): Role {
    role.(customized := false, sourceVersion := Some(version))
  }

  function SyncRoles(s: State, targets: set<RoleId>, ids: set<PermissionId>, version: nat): State {
    s.(grants := ReplaceGrants(s, targets, ids),
       roles := map r | r in s.roles :: if r in targets then SyncedRole(s.roles[r], version) else s.roles[r],
       exclusions := set x | x in s.exclusions && x.0 !in targets)
  }

  function Sync(s: State, template: RoleId, roleIds: set<RoleId>, organization: Option<nat>): Result<State, Error> {
    if !IsLive(s, template) then Err(RoleNotFound)
    else if !s.roles[template].kind.Template? then Err(NotATemplate)
    else
      var permissions := ForPropagation(s, Held(s.grants, template), true);
      if permissions.Err? then Err(permissions.error)
      else Ok(SyncRoles(s, SyncTargets(s, template, roleIds, organization), permissions.value,
                        s.roles[template].templateVersion))
  }

  function PreviewAddCount(s: State, template: RoleId, r: RoleId): nat {
    |Held(s.grants, template) - Held(s.grants, r)|
  }

  function PreviewRemoveCount(s: State, template: RoleId, r: RoleId): nat {
    |Held(s.grants, r) - Held(s.grants, template)|
  }

  function CreateRole(s: State, organization: nat, ids: set<PermissionId>, allowRestricted: bool, slugFree: bool)
    : Result<State, Error>
  {
    var permissions := Validated(s, ids, allowRestricted);
    if permissions.Err? then Err(permissions.error)
    else if !slugFree then Err(SlugTaken)
    else
      var role := Role(OrganizationRole, Some(organization), None, 1, None, true, false);
      Ok(ReplacePermissions(NewRole(s, role), s.nextRole, permissions.value, true))
  }

  function UpdateRolePermissions(s: State, organization: nat, r: RoleId, ids: set<PermissionId>, allowRestricted: bool)
    : Result<State, Error>
  {
    if !IsOrganizationRole(s, organization, r) then Err(RoleNotFound)
    else
      var permissions := Validated(s, ids, allowRestricted);
      if permissions.Err? then Err(permissions.error)
      else
        var s' := ReplacePermissions(s, r, permissions.value, true);
        match s.roles[r].source
        case None => Ok(s')
        case Some(template) =>
          var excluded := Held(s'.grants, template) - ids - LockedHeld(s', r);
          Ok(s'.(exclusions := (set x | x in s'.exclusions && x.0 != r) + (set p | p in excluded :: (r, p))))
  }

  function DeleteRole(s: State, organization: nat, r: RoleId, assignedToActive: bool): Result<State, Error> {
    if !IsOrganizationRole(s, organization, r) then Err(RoleNotFound)
    else if assignedToActive then Err(RoleInUse)
    else Ok(s.(roles := s.roles[r := s.roles[r].(deleted := true)]))
  }

  function ChangeLifecycle(s: State, p: PermissionId, state: Lifecycle): Result<State, Error> {
    if p !in s.permissions then Err(PermissionNotFound)
    else
      var s' := s.(permissions := s.permissions[p := s.permissions[p].(state := state)]);
      Ok(if state.Inactive? then s'.(grants := set g | g in s.grants && g.1 != p) else s')
  }

  // ---- runs

  datatype Event =
    | UpdateTemplateEvent(role: RoleId, ids: set<PermissionId>)
    | DeriveEvent(template: RoleId, organization: nat, organizationExists: bool, slugFree: bool)
    | SyncEvent(template: RoleId, roleIds: set<RoleId>, onlyOrganization: Option<nat>)
    | CreateEvent(organization: nat, ids: set<PermissionId>, allowRestricted: bool, slugFree: bool)
    | UpdateEvent(organization: nat, role: RoleId, ids: set<PermissionId>, allowRestricted: bool)
    | DeleteEvent(organization: nat, role: RoleId, assignedToActive: bool)
    | LifecycleEvent(permission: PermissionId, state: Lifecycle)

  function Apply(s: State, e: Event): Result<State, Error> {
    match e
    case UpdateTemplateEvent(r, ids) => UpdateTemplate(s, r, ids)
    case DeriveEvent(t, o, present, slugFree) => Derive(s, t, o, present, slugFree)
    case SyncEvent(t, roleIds, o) => Sync(s, t, roleIds, o)
    case CreateEvent(o, ids, allow, slugFree) => CreateRole(s, o, ids, allow, slugFree)
    case UpdateEvent(o, r, ids, allow) => UpdateRolePermissions(s, o, r, ids, allow)
    case DeleteEvent(o, r, inUse) => DeleteRole(s, o, r, inUse)
    case LifecycleEvent(p, state) => ChangeLifecycle(s, p, state)
  }

  /** A refused request is rolled back. */
  function Next(s: State, e: Event): State {
    match Apply(s, e)
    case Ok(s') => s'
    case Err(_) => s
  }

  function Run(s: State, events: seq<Event>): State
    decreases |events|
  {
    if events == [] then s else Run(Next(s, events[0]), events[1..])
  }

  // ---- what every reachable state satisfies

  predicate Grantable(s: State, p: PermissionId) {
    p in s.permissions && !s.permissions[p].state.Inactive? && s.permissions[p].organizationScope
  }

  ghost predicate GrantsAllowed(s: State) {
    forall r, p :: (r, p) in s.grants ==> r in s.roles && Grantable(s, p)
  }

  ghost predicate ExclusionsApart(s: State) {
    forall r, p :: (r, p) in s.exclusions ==>
      (r, p) !in s.grants && r in s.roles && s.roles[r].source.Some?
  }

  ghost predicate SourcesAreTemplates(s: State) {
    forall r :: r in s.roles && s.roles[r].source.Some? ==>
      && s.roles[r].kind.OrganizationRole?
      && s.roles[r].source.value in s.roles && s.roles[s.roles[r].source.value].kind.Template?
  }

  ghost predicate Inv(s: State) {
    && (forall r :: r in s.roles ==> r < s.nextRole)
    && GrantsAllowed(s) && ExclusionsApart(s) && SourcesAreTemplates(s)
  }

  lemma HeldPairs(pairs: Pairs, r: RoleId, p: PermissionId)
    ensures p in Held(pairs, r) <==> (r, p) in pairs
  {
    if (r, p) in pairs {
      assert (r, p).1 in Held(pairs, r);
    }
  }

  /** Who holds what after a replacement. */
  lemma ReplacedGrants(s: State, targets: set<RoleId>, ids: set<PermissionId>, r: RoleId)
    ensures r !in targets ==> Held(ReplaceGrants(s, targets, ids), r) == Held(s.grants, r)
    ensures r in targets ==> Held(ReplaceGrants(s, targets, ids), r) == ids + LockedHeld(s, r)
  {
    var grants := ReplaceGrants(s, targets, ids);
    forall p
      ensures p in Held(grants, r) <==>
                if r in targets then p in ids + LockedHeld(s, r) else p in Held(s.grants, r)
    {
      HeldPairs(grants, r, p);
      HeldPairs(s.grants, r, p);
    }
  }
}
