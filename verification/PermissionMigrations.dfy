/** The migrations themselves: their rename lists, and the tables they update in place. */
module PermissionMigrations {
  import opened Wrappers
  import opened PermissionMerge
  import opened PermissionGuard
  import opened PermissionFold

  const RENAMES_0048: seq<Rename> := [
    Rename("fair_crm.customers.archive", "fair_crm.customers.delete"),
    Rename("fair_crm.fairs.archive", "fair_crm.fairs.delete"),
    Rename("fair_crm.todos.archive", "fair_crm.todos.delete"),
    Rename("fair_crm.todos.outcomes.deactivate", "fair_crm.todos.outcomes.delete")]

  const FOLD_0049 := Fold("fair_crm.scraper.run", "fair_crm.scraper.download", "fair_crm.scraper.execute")

  const REST_0049: seq<Rename> := [
    Rename("fair_crm.admin.backups.download", "fair_crm.admin.backups.execute"),
    Rename("fair_crm.mail_templates.render", "fair_crm.mail_templates.execute"),
    Rename("fair_crm.admin.data_operations.run", "fair_crm.admin.data_operations.execute")]

  const RENAMES_0051: seq<Rename> := [
    Rename("fair_crm.imports.apply", "fair_crm.imports.execute"),
    Rename("jobs.platform.enqueue", "jobs.platform.execute"),
    Rename("fair_crm.fair_emails.preview", "fair_crm.fair_emails.read")]

  const DOWNGRADE_0051: seq<Rename> := [
    Rename("fair_crm.imports.execute", "fair_crm.imports.apply"),
    Rename("jobs.platform.execute", "jobs.platform.enqueue"),
    Rename("fair_crm.fair_emails.read", "fair_crm.fair_emails.preview")]

  /** Told apart by their lengths, and those of the same length by a character. */
  lemma CodeLengths0048()
    ensures |RENAMES_0048[0].source| == 26 && |RENAMES_0048[0].target| == 25
    ensures |RENAMES_0048[1].source| == |RENAMES_0048[2].source| == 22
    ensures |RENAMES_0048[1].target| == |RENAMES_0048[2].target| == 21
    ensures |RENAMES_0048[3].source| == 34 && |RENAMES_0048[3].target| == 30
    ensures RENAMES_0048[1].source[9] != RENAMES_0048[2].source[9]
    ensures RENAMES_0048[1].target[9] != RENAMES_0048[2].target[9]
  {
  }

  function Lengths0048(i: nat): (nat, nat)
    requires i < 4
  {
    [(26, 25), (22, 21), (22, 21), (34, 30)][i]
  }

  lemma SeparateCodes0048()
    ensures Separate(RENAMES_0048)
  {
    CodeLengths0048();
    assert forall i :: 0 <= i < |RENAMES_0048| ==>
             |RENAMES_0048[i].source| == Lengths0048(i).0 && |RENAMES_0048[i].target| == Lengths0048(i).1;
    assert forall i, j :: 0 <= i < 4 && 0 <= j < 4 ==> Lengths0048(i).0 != Lengths0048(j).1;
  }

  /**
   0048 goes through exactly when no old permission with a grant would be merged into one
   that is not active; then a role may delete exactly if it could delete or archive
   (deactivate) before.
   */
  lemma Upgrade0048(t: Tables, r: RoleId, i: nat)
    requires Valid(t) && i < |RENAMES_0048|
    ensures MergeAll(t, RENAMES_0048).Ok? <==> forall j :: 0 <= j < |RENAMES_0048| ==> !Blocked(t, RENAMES_0048[j])
    ensures MergeAll(t, RENAMES_0048).Ok? ==>
              var up := MergeAll(t, RENAMES_0048).value;
              var before, after := RoleCodes(t, t.grants, r), RoleCodes(up, up.grants, r);
              && (RENAMES_0048[i].target in after <==>
                    RENAMES_0048[i].source in before || RENAMES_0048[i].target in before)
              && RENAMES_0048[i].source !in after
  {
    SeparateCodes0048();
    SeparateSucceedsExactlyWhen(t, RENAMES_0048);
    if MergeAll(t, RENAMES_0048).Ok? {
      SeparateImage(t, RENAMES_0048, r, i);
    }
  }

  /** A role holds a target afterwards exactly if it held the target or its source, and holds no source. */
  lemma SeparateImage(t: Tables, renames: seq<Rename>, r: RoleId, i: nat)
    requires Valid(t) && Separate(renames) && MergeAll(t, renames).Ok? && i < |renames|
    ensures var up := MergeAll(t, renames).value;
            var before, after := RoleCodes(t, t.grants, r), RoleCodes(up, up.grants, r);
            && (renames[i].target in after <==> renames[i].source in before || renames[i].target in before)
            && renames[i].source !in after
  {
    MergeAllImage(t, renames, r);
    forall code: Code
      ensures SubstituteAll(renames, code) == renames[i].target <==>
                code == renames[i].source || code == renames[i].target
      ensures SubstituteAll(renames, code) != renames[i].source
    {
      SubstituteAllOnly(renames, code, i);
    }
  }

  /** An active old permission held by role 7, and a new one with the given state. */
  function OldAndNew(source: Code, target: Code, targetActive: bool): Tables {
    Tables(map[1 := source, 2 := target], if targetActive then {1, 2} else {1}, {}, {(7, 1)}, {})
  }

  lemma OldAndNewBlocked(rename: Rename, targetActive: bool)
    requires rename.source != rename.target
    ensures var t := OldAndNew(rename.source, rename.target, targetActive);
            && Valid(t) && (Blocked(t, rename) <==> !targetActive)
            && RoleCodes(t, t.grants, 7) == {rename.source}
  {
    var t := OldAndNew(rename.source, rename.target, targetActive);
    assert t.codes[1] == rename.source && t.codes[2] == rename.target;
    assert (7, 1) in t.grants;
    RoleCode(t, t.grants, 7, 1);
  }

  /**
   With a locked `todos.delete` 0048 is refused, although the statements alone would have
   given role 7 the new permission; an active one is in nobody's way.
   */
  lemma LockedTargetAborts()
    ensures var rename := RENAMES_0048[2];
            var locked := OldAndNew(rename.source, rename.target, false);
            var active := OldAndNew(rename.source, rename.target, true);
            && Valid(locked) && MergeAll(locked, RENAMES_0048) == Err(PermissionNotActive)
            && rename.target in RoleCodes(MergedAll(locked, RENAMES_0048), MergedAll(locked, RENAMES_0048).grants, 7)
            && Valid(active) && !Blocked(active, rename)
  {
    SeparateCodes0048();
    OldAndNewBlocked(RENAMES_0048[2], false);
    OldAndNewBlocked(RENAMES_0048[2], true);
    var locked := OldAndNew(RENAMES_0048[2].source, RENAMES_0048[2].target, false);
    SeparateSucceedsExactlyWhen(locked, RENAMES_0048);
    MergedAllImage(locked, RENAMES_0048, 7);
    SubstituteAllOnly(RENAMES_0048, RENAMES_0048[2].source, 2);
  }

  lemma SeparateCodes0051()
    ensures Separate(RENAMES_0051)
  {
    assert RENAMES_0051[1].source[15] == 'n' && RENAMES_0051[1].target[15] == 'x';
  }

  /** 0051 goes through both ways and undoes itself exactly when none of its three target codes existed beforehand. */
  lemma RoundTrip0051(t: Tables)
    requires Valid(t)
    ensures Reversed(RENAMES_0051) == DOWNGRADE_0051
    ensures UpAndDown(t, RENAMES_0051) == Ok(t) <==>
              && !HasCode(t, "fair_crm.imports.execute")
              && !HasCode(t, "jobs.platform.execute")
              && !HasCode(t, "fair_crm.fair_emails.read")
  {
    SeparateCodes0051();
    assert Reversed(RENAMES_0051) == DOWNGRADE_0051;
    RoundTripExactlyWhen(t, RENAMES_0051);
  }

  /** Without the merged code beforehand, 0049 is refused exactly for a grant that would meet an inactive permission. */
  lemma Upgrade0049(t: Tables)
    requires Valid(t) && !HasCode(t, FOLD_0049.merged)
    ensures MergeAll(t, UpgradeFold(FOLD_0049, REST_0049)).Ok? <==>
              && !Blocked(t, Rename(FOLD_0049.second, FOLD_0049.first))
              && forall i :: 0 <= i < |REST_0049| ==> !Blocked(t, REST_0049[i])
  {
    ApartCodes0049();
    FoldSucceedsExactlyWhen(t, FOLD_0049, REST_0049);
  }

  /**
   After 0049 and its downgrade a role holds run exactly if it held run or download before;
   it holds download exactly then, unless the clone's trigger gave it download alone.
   */
  lemma RoundTrip0049(t: Tables, newId: PermissionId, r: RoleId)
    requires Valid(t) && !HasCode(t, FOLD_0049.merged)
    requires MergeAll(t, UpgradeFold(FOLD_0049, REST_0049)).Ok?
    requires newId !in MergeAll(t, UpgradeFold(FOLD_0049, REST_0049)).value.codes
    ensures var up := MergeAll(t, UpgradeFold(FOLD_0049, REST_0049)).value;
            var down := DowngradeFold(up, FOLD_0049, REST_0049, newId);
            var before := RoleCodes(t, t.grants, r);
            var either := FOLD_0049.first in before || FOLD_0049.second in before;
            && (down.Ok? <==> !CodeBlocked(up, FOLD_0049.merged))
            && (TriggersHold(t) ==> down.Ok?)
            && (down.Ok? ==>
                  var after := RoleCodes(down.value, down.value.grants, r);
                  && (FOLD_0049.first in after <==> either)
                  && (FOLD_0049.second in after <==> either || AutoReceives(up, FOLD_0049.merged, r))
                  && (TriggersHold(t) ==> (FOLD_0049.second in after <==> either)))
  {
    ApartCodes0049();
    DowngradeSucceedsExactlyWhen(t, FOLD_0049, REST_0049, newId);
    OnlyExistingCodes(t, t.grants, r);
    var up := MergeAll(t, UpgradeFold(FOLD_0049, REST_0049)).value;
    if DowngradeFold(up, FOLD_0049, REST_0049, newId).Ok? {
      FoldRoundTrip(t, FOLD_0049, REST_0049, newId, r);
    }
    if TriggersHold(t) {
      FoldRoundTripUnderTriggers(t, FOLD_0049, REST_0049, newId, r);
    }
  }

  lemma ApartCodes0049()
    ensures Apart(FOLD_0049, REST_0049)
  {
    assert REST_0049[0].source[9] == 'a' && REST_0049[1].target[9] == 'm';
    assert REST_0049[0].target[9] == 'a' && REST_0049[1].source[9] == 'm';
    assert Separate(REST_0049);
  }

  /** The permission, grant and exclusion tables under a migration, with the triggers of 0046. */
  class Database {
    var codes: map<PermissionId, Code>
    var active: set<PermissionId>
    const auto: set<RoleId>
    var grants: Pairs
    var exclusions: Pairs

    function Snapshot(): Tables
      reads this
    {
      Tables(codes, active, auto, grants, exclusions)
    }

    constructor (t: Tables)
      ensures Snapshot() == t
    {
      codes, active, auto, grants, exclusions := t.codes, t.active, t.auto, t.grants, t.exclusions;
    }

    /** INSERT INTO the grant table: the row trigger runs for every row, and one refusal undoes the statement. */
    method InsertGrants(roles: set<RoleId>, p: PermissionId) returns (ok: bool)
      modifies this`grants
      ensures ok <==> roles == {} || p in active
      ensures grants == if ok then old(grants) + (set r | r in roles :: (r, p)) else old(grants)
    {
      ghost var before := grants;
      var undo, rest := grants, roles;
      while rest != {}
        invariant rest <= roles && undo == before && (p in active || rest == roles)
        invariant grants == before + (set r | r in roles - rest :: (r, p))
        decreases rest
      {
        var r :| r in rest;
        if p !in active {
          grants := undo;
          return false;
        }
        grants := grants + {(r, p)};
        rest := rest - {r};
      }
      assert roles - rest == roles;
      return true;
    }

    method MergePermission(rename: Rename) returns (r: Result<(), MigrationError>)
      requires Valid(Snapshot())
      modifies this
      ensures Valid(Snapshot())
      ensures match Merge(old(Snapshot()), rename)
              case Ok(merged) => r == Ok(()) && Snapshot() == merged
              case Err(error) => r == Err(error) && Snapshot() == old(Snapshot())
    {
      MergeKeepsValid(Snapshot(), rename);
      var source := FindCode(Snapshot(), rename.source);
      if source.None? {
        return Ok(());
      }
      var target := FindCode(Snapshot(), rename.target);
      if target.None? {
        codes := codes[source.value := rename.target];
        return Ok(());
      }
      if target == source {
        return Ok(());
      }
      var from, to := source.value, target.value;
      var holders := Holders(grants, from);
      HoldersEmpty(grants, from);
      HoldersPairs(grants, from, to);
      var inserted := InsertGrants(holders, to);
      if !inserted {
        return Err(PermissionNotActive);
      }
      MoveExclusions(from, to);
      DropPermission(from);
      RepointedParts(old(grants), from, to);
      return Ok(());
    }

    method MoveExclusions(from: PermissionId, to: PermissionId)
      requires from != to
      modifies this`exclusions
      ensures exclusions == Repointed(old(exclusions), from, to)
    {
      exclusions := exclusions + set x | x in exclusions && x.1 == from :: (x.0, to);
      exclusions := set x | x in exclusions && x.1 != from;
      RepointedParts(old(exclusions), from, to);
    }

    method DropPermission(p: PermissionId)
      modifies this`codes, this`active, this`grants
      ensures codes == old(codes) - {p} && active == old(active) - {p}
      ensures grants == set x | x in old(grants) && x.1 != p
    {
      grants := set x | x in grants && x.1 != p;
      codes := codes - {p};
      active := active - {p};
    }

    /** An upgrade, and the downgrade of 0051: every rename in turn, all or nothing. */
    method MergeEach(renames: seq<Rename>) returns (r: Result<(), MigrationError>)
      requires Valid(Snapshot())
      modifies this
      ensures Valid(Snapshot())
      ensures match MergeAll(old(Snapshot()), renames)
              case Ok(merged) => r == Ok(()) && Snapshot() == merged
              case Err(error) => r == Err(error) && Snapshot() == old(Snapshot())
    {
      var begin := Snapshot();
      for i := 0 to |renames|
        invariant Valid(Snapshot()) && auto == begin.auto
        invariant MergeAll(Snapshot(), renames[i..]) == MergeAll(begin, renames)
      {
        assert renames[i..][0] == renames[i] && renames[i..][1..] == renames[i + 1..];
        var step := MergePermission(renames[i]);
        if step.Err? {
          codes, active, grants, exclusions := begin.codes, begin.active, begin.grants, begin.exclusions;
          return step;
        }
      }
      return Ok(());
    }

    method RenamePermissionBack(target: Code, source: Code) returns (id: Option<PermissionId>)
      requires Valid(Snapshot())
      modifies this`codes
      ensures (Snapshot(), id) == RenameBack(old(Snapshot()), target, source)
      ensures Valid(Snapshot()) && codes.Keys == old(codes.Keys)
    {
      RenameBackKeepsValid(Snapshot(), target, source);
      id := FindCode(Snapshot(), source);
      if id.Some? {
        return;
      }
      id := FindCode(Snapshot(), target);
      if id.None? {
        return;
      }
      codes := codes[id.value := source];
    }

    /** INSERT INTO the permission table, after which the trigger grants an active one to the including roles. */
    method InsertPermission(id: PermissionId, code: Code, isActive: bool)
      modifies this`codes, this`active, this`grants
      ensures codes == old(codes)[id := code] && active == old(active) + (if isActive then {id} else {})
      ensures grants == old(grants) + AutoGrants(old(Snapshot()), id, isActive)
    {
      codes := codes[id := code];
      if isActive {
        active := active + {id};
        var _ := InsertGrants(auto, id);
      }
    }

    method ClonePermissionWithGrants(source: PermissionId, code: Code, newId: PermissionId)
      returns (r: Result<(), MigrationError>)
      requires Valid(Snapshot()) && newId !in codes && source != newId
      modifies this
      ensures match CloneWithGrants(old(Snapshot()), source, code, newId)
              case Ok(cloned) => r == Ok(()) && Snapshot() == cloned
              case Err(error) => r == Err(error)
    {
      if HasCode(Snapshot(), code) {
        return Ok(());
      }
      var isActive := source in active;
      assert newId !in active;
      InsertPermission(newId, code, isActive);
      HoldersAfterInsert(old(Snapshot()), source, newId, isActive);
      var holders := Holders(grants, source);
      HoldersEmpty(grants, source);
      var inserted := InsertGrants(holders, newId);
      if !inserted {
        return Err(PermissionNotActive);
      }
      HoldersPairs(old(grants), source, newId);
      exclusions := exclusions + set x | x in exclusions && x.1 == source :: (x.0, newId);
      return Ok(());
    }

    /** The downgrade of 0049, all or nothing. */
    method DowngradeExecute(fold: Fold, rest: seq<Rename>, newId: PermissionId) returns (r: Result<(), MigrationError>)
      requires Valid(Snapshot()) && newId !in codes && newId !in active
      modifies this
      ensures match DowngradeFold(old(Snapshot()), fold, rest, newId)
              case Ok(down) => r == Ok(()) && Snapshot() == down
              case Err(error) => r == Err(error) && Snapshot() == old(Snapshot())
    {
      var begin := Snapshot();
      var id := RenamePermissionBack(fold.merged, fold.first);
      if id.Some? {
        var clone := ClonePermissionWithGrants(id.value, fold.second, newId);
        if clone.Err? {
          codes, active, grants, exclusions := begin.codes, begin.active, begin.grants, begin.exclusions;
          return clone;
        }
      }
      for i := 0 to |rest|
        invariant Valid(Snapshot())
        invariant Ok(RenameAllBack(Snapshot(), rest[i..])) == DowngradeFold(begin, fold, rest, newId)
      {
        assert rest[i..][0] == rest[i] && rest[i..][1..] == rest[i + 1..];
        var _ := RenamePermissionBack(rest[i].target, rest[i].source);
      }
      return Ok(());
    }
  }

  function Holders(pairs: Pairs, p: PermissionId): set<RoleId> {
    set x | x in pairs && x.1 == p :: x.0
  }

  lemma HoldersEmpty(pairs: Pairs, p: PermissionId)
    ensures Holders(pairs, p) == {} <==> !Granted(pairs, p)
  {
    if Granted(pairs, p) {
      var x :| x in pairs && x.1 == p;
      assert x.0 in Holders(pairs, p);
    }
  }

  lemma HoldersPairs(pairs: Pairs, from: PermissionId, to: PermissionId)
    ensures (set r | r in Holders(pairs, from) :: (r, to)) == set x | x in pairs && x.1 == from :: (x.0, to)
  {
    forall x | x in pairs && x.1 == from ensures (x.0, to) in set r | r in Holders(pairs, from) :: (r, to) {
      assert x.0 in Holders(pairs, from);
    }
  }

  lemma RepointedParts(pairs: Pairs, from: PermissionId, to: PermissionId)
    requires from != to
    ensures var copied := pairs + set x | x in pairs && x.1 == from :: (x.0, to);
            Repointed(pairs, from, to) == set x | x in copied && x.1 != from
  {
  }

  lemma HoldersAfterInsert(t: Tables, source: PermissionId, newId: PermissionId, isActive: bool)
    requires source != newId
    ensures Holders(t.grants + AutoGrants(t, newId, isActive), source) == Holders(t.grants, source)
  {
  }
}
