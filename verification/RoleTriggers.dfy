/**
 Permission locks under the triggers of migration 0055, which the routes do not know of: a
 permission that leaves the active state loses all its grants, one that becomes active is
 granted to the including roles, and nothing else can be granted.
 */
module RoleTriggers {
  import opened Wrappers
  import opened RoleGovernance
  import opened RoleTheorems

  /** What the insert trigger accepts. */
  predicate Insertable(s: State, p: PermissionId) {
    p in s.permissions && s.permissions[p].state.Active? && s.permissions[p].organizationScope
  }

  /** After a change of state; `auto` are the live roles that include every new permission. */
  function AfterLifecycle(s: State, p: PermissionId, auto: set<RoleId>): State {
    s.(grants := if Insertable(s, p) then s.grants + (set r | r in auto :: (r, p))
                 else set g | g in s.grants && g.1 != p)
  }

  /** A request; it is rolled back if the insert trigger refuses one of the grants it writes. */
  function TriggeredNext(s: State, e: Event, auto: set<RoleId>): State {
    match Apply(s, e)
    case Err(_) => s
    case Ok(s') =>
      if e.LifecycleEvent? then
        if s.permissions[e.permission].state == e.state then s' else AfterLifecycle(s', e.permission, auto)
      else if exists g :: g in s'.grants && g !in s.grants && !Insertable(s', g.1) then s
      else s'
  }

  function TriggeredRun(s: State, events: seq<Event>, auto: set<RoleId>): State
    decreases |events|
  {
    if events == [] then s else TriggeredRun(TriggeredNext(s, events[0], auto), events[1..], auto)
  }

  ghost predicate OnlyActiveGranted(s: State) {
    forall g :: g in s.grants ==> Insertable(s, g.1)
  }

  lemma OtherEventsKeepPermissions(s: State, e: Event)
    requires !e.LifecycleEvent?
    ensures Next(s, e).permissions == s.permissions
  {
  }

  lemma TriggeredNextKeepsActive(s: State, e: Event, auto: set<RoleId>)
    requires OnlyActiveGranted(s)
    ensures OnlyActiveGranted(TriggeredNext(s, e, auto))
  {
    if !e.LifecycleEvent? {
      OtherEventsKeepPermissions(s, e);
    }
  }

  /** With the triggers no reachable role holds a permission that is not active. */
  lemma {:induction false} TriggeredRunKeepsActive(s: State, events: seq<Event>, auto: set<RoleId>)
    requires OnlyActiveGranted(s)
    ensures OnlyActiveGranted(TriggeredRun(s, events, auto))
    decreases |events|
  {
    if events != [] {
      TriggeredNextKeepsActive(s, events[0], auto);
      TriggeredRunKeepsActive(TriggeredNext(s, events[0], auto), events[1..], auto);
    }
  }

  ghost predicate IsLocked(s: State, p: PermissionId) {
    p in s.permissions && s.permissions[p].state.Locked?
  }

  lemma {:induction false} StaysLocked(s: State, events: seq<Event>, p: PermissionId, auto: set<RoleId>)
    requires IsLocked(s, p) && LeavesAlone(events, p)
    ensures IsLocked(TriggeredRun(s, events, auto), p)
    ensures TriggeredRun(s, events, auto).permissions[p] == s.permissions[p]
    decreases |events|
  {
    if events != [] {
      var e := events[0];
      assert e in events && forall e :: e in events[1..] ==> e in events;
      if !e.LifecycleEvent? {
        OtherEventsKeepPermissions(s, e);
      }
      StaysLocked(TriggeredNext(s, e, auto), events[1..], p, auto);
    }
  }

  /**
   The promise about locks as the database keeps it: whatever is requested while a permission
   is locked, unlocking leaves it with exactly the including roles. A role that held it
   before has it again exactly if it is one of those.
   */
  lemma UnlockRestoresOnlyIncluding(
    s: State, p: PermissionId, events: seq<Event>, auto: set<RoleId>, r: RoleId)
    requires OnlyActiveGranted(s) && p in s.permissions && LeavesAlone(events, p)
    ensures var locked := TriggeredNext(s, LifecycleEvent(p, Locked), auto);
            var unlocked := TriggeredNext(TriggeredRun(locked, events, auto), LifecycleEvent(p, Active), auto);
            && (r, p) !in locked.grants
            && ((r, p) in unlocked.grants <==> r in auto && s.permissions[p].organizationScope)
  {
    var locked := TriggeredNext(s, LifecycleEvent(p, Locked), auto);
    TriggeredNextKeepsActive(s, LifecycleEvent(p, Locked), auto);
    TriggeredRunKeepsActive(locked, events, auto);
    StaysLocked(locked, events, p, auto);
    var later := TriggeredRun(locked, events, auto);
    assert (r, p) !in later.grants;
  }
}
