/** What each migration does to the permissions it names, code by code, and to every other not at all. */
module MigrationResults {
  import opened Wrappers
  import opened PermissionMerge
  import opened PermissionGuard
  import opened PermissionFold
  import opened PermissionMigrations

  /**
   A merge of two permissions keeps the target's row, id and state, drops the source's, and
   leaves every other as it was; if there is no target, the source takes its code and keeps
   its id, state and grants.
   */
  lemma MergedRows(t: Tables, rename: Rename, source: PermissionId, p: PermissionId)
    requires Valid(t) && rename.source != rename.target && source in t.codes && t.codes[source] == rename.source
    ensures var t' := Merged(t, rename);
            && t'.auto == t.auto
            && (HasCode(t, rename.target) ==> source !in t'.codes)
            && (!HasCode(t, rename.target) ==>
                  && source in t'.codes && t'.codes[source] == rename.target
                  && t'.grants == t.grants && t'.exclusions == t.exclusions)
            && (p != source ==>
                  && (p in t'.codes <==> p in t.codes) && (p in t.codes ==> t'.codes[p] == t.codes[p]))
            && (p in t'.codes ==> (p in t'.active <==> p in t.active))
  {
    assert FindCode(t, rename.source) == Some(source);
  }

  /** A merge is refused exactly if some role holds the source and the target exists and is not active. */
  lemma RefusedExactlyWhen(t: Tables, rename: Rename)
    requires Valid(t) && rename.source != rename.target
    ensures Merge(t, rename).Err? <==>
              exists r, p, q ::
                && p in t.codes && t.codes[p] == rename.source && (r, p) in t.grants
                && q in t.codes && t.codes[q] == rename.target && q !in t.active
  {
    if Blocked(t, rename) {
      var p, q := FindCode(t, rename.source).value, FindCode(t, rename.target).value;
      var x :| x in t.grants && x.1 == p;
      assert (x.0, p) in t.grants && t.codes[p] == rename.source && t.codes[q] == rename.target;
    }
  }

  /** A clone is refused exactly if it is needed, its source is not active and some role holds it. */
  lemma CloneRefusedExactlyWhen(t: Tables, source: PermissionId, code: Code, newId: PermissionId)
    requires Valid(t)
    ensures CloneWithGrants(t, source, code, newId).Err? <==>
              && source !in t.active && (exists r :: (r, source) in t.grants)
              && forall p :: p in t.codes ==> t.codes[p] != code
    ensures (exists p :: p in t.codes && t.codes[p] == code) ==> CloneWithGrants(t, source, code, newId) == Ok(t)
  {
    if Granted(t.grants, source) {
      var x :| x in t.grants && x.1 == source;
      assert (x.0, source) in t.grants;
    }
  }

  /** Renaming back finds the old code, or gives it to the permission of the new one; the row keeps its id. */
  lemma RenamedBackResult(t: Tables, target: Code, source: Code, p: PermissionId)
    requires Valid(t)
    ensures var (t', id) := RenameBack(t, target, source);
            && (p in t.codes && t.codes[p] == source ==> (t', id) == (t, Some(p)))
            && (!HasCode(t, source) && p in t.codes && t.codes[p] == target ==>
                  id == Some(p) && t' == t.(codes := t.codes[p := source]))
            && (!HasCode(t, source) && !HasCode(t, target) ==> (t', id) == (t, None))
  {
  }

  /** Without the source there is nothing to merge. */
  lemma NothingToMerge(t: Tables, rename: Rename)
    requires Valid(t) && !HasCode(t, rename.source)
    ensures Merge(t, rename) == Ok(t)
  {
  }

  /** A clone has the state of the permission it is cloned from; all others are as they were. */
  lemma ClonedRow(t: Tables, source: PermissionId, code: Code, newId: PermissionId)
    requires Valid(t) && source in t.codes && newId !in t.codes && !HasCode(t, code)
    ensures var t' := Cloned(t, source, code, newId);
            && t'.codes == t.codes[newId := code] && t'.auto == t.auto
            && (newId in t'.active <==> source in t.active)
            && (forall p :: p != newId ==> (p in t'.active <==> p in t.active))
            && (forall r, p :: p != newId ==> ((r, p) in t'.grants <==> (r, p) in t.grants))
  {
  }

  // ---- 0048, 0049 and 0051 by name

  /** Whoever held (or excluded) the one code or the other now holds (or excludes) the new one, and not the old. */
  ghost predicate Became(before: set<Code>, after: set<Code>, earlier: Code, later: Code) {
    (later in after <==> earlier in before || later in before) && earlier !in after
  }

  lemma RenamedCodes(t: Tables, renames: seq<Rename>, r: RoleId, i: nat)
    requires Valid(t) && Separate(renames) && MergeAll(t, renames).Ok? && i < |renames|
    ensures var up := MergeAll(t, renames).value;
            && Became(RoleCodes(t, t.grants, r), RoleCodes(up, up.grants, r), renames[i].source, renames[i].target)
            && Became(RoleCodes(t, t.exclusions, r), RoleCodes(up, up.exclusions, r),
                      renames[i].source, renames[i].target)
  {
    MergeAllImage(t, renames, r);
    forall code: Code
      ensures SubstituteAll(renames, code) == renames[i].target <==>
                code == renames[i].source || code == renames[i].target
      ensures SubstituteAll(renames, code) != renames[i].source
    {
      SubstituteAllOnly(renames, code, i);
    }
  }

  /** A code no rename names is held and excluded as before. */
  lemma OtherCodes(t: Tables, renames: seq<Rename>, r: RoleId, code: Code)
    requires Valid(t) && MergeAll(t, renames).Ok?
    requires forall i :: 0 <= i < |renames| ==> renames[i].source != code && renames[i].target != code
    ensures var up := MergeAll(t, renames).value;
            && (code in RoleCodes(up, up.grants, r) <==> code in RoleCodes(t, t.grants, r))
            && (code in RoleCodes(up, up.exclusions, r) <==> code in RoleCodes(t, t.exclusions, r))
  {
    MergeAllImage(t, renames, r);
    SubstituteAllElsewhere(renames, code);
    forall c: Code | SubstituteAll(renames, c) == code ensures c == code {
      SubstituteAllReaches(renames, c, code);
    }
  }

  lemma Upgrade0048Codes(t: Tables, r: RoleId)
    requires Valid(t) && MergeAll(t, RENAMES_0048).Ok?
    ensures var up := MergeAll(t, RENAMES_0048).value;
            var before, after := RoleCodes(t, t.grants, r), RoleCodes(up, up.grants, r);
            && Became(before, after, "fair_crm.customers.archive", "fair_crm.customers.delete")
            && Became(before, after, "fair_crm.fairs.archive", "fair_crm.fairs.delete")
            && Became(before, after, "fair_crm.todos.archive", "fair_crm.todos.delete")
            && Became(before, after, "fair_crm.todos.outcomes.deactivate", "fair_crm.todos.outcomes.delete")
  {
    SeparateCodes0048();
    forall i | 0 <= i < 4
      ensures var up := MergeAll(t, RENAMES_0048).value;
              Became(RoleCodes(t, t.grants, r), RoleCodes(up, up.grants, r),
                     RENAMES_0048[i].source, RENAMES_0048[i].target)
    {
      RenamedCodes(t, RENAMES_0048, r, i);
    }
  }

  lemma Upgrade0051Codes(t: Tables, r: RoleId)
    requires Valid(t) && MergeAll(t, RENAMES_0051).Ok?
    ensures var up := MergeAll(t, RENAMES_0051).value;
            var before, after := RoleCodes(t, t.grants, r), RoleCodes(up, up.grants, r);
            && Became(before, after, "fair_crm.imports.apply", "fair_crm.imports.execute")
            && Became(before, after, "jobs.platform.enqueue", "jobs.platform.execute")
            && Became(before, after, "fair_crm.fair_emails.preview", "fair_crm.fair_emails.read")
  {
    SeparateCodes0051();
    RenamedCodes(t, RENAMES_0051, r, 0);
    RenamedCodes(t, RENAMES_0051, r, 1);
    RenamedCodes(t, RENAMES_0051, r, 2);
  }

  /** 0049: three renames, and run and download folded into execute. */
  lemma Upgrade0049Codes(t: Tables, r: RoleId)
    requires Valid(t) && MergeAll(t, UpgradeFold(FOLD_0049, REST_0049)).Ok?
    ensures var up := MergeAll(t, UpgradeFold(FOLD_0049, REST_0049)).value;
            var before, after := RoleCodes(t, t.grants, r), RoleCodes(up, up.grants, r);
            && ("fair_crm.scraper.execute" in after <==>
                  || "fair_crm.scraper.run" in before || "fair_crm.scraper.download" in before
                  || "fair_crm.scraper.execute" in before)
            && "fair_crm.scraper.run" !in after && "fair_crm.scraper.download" !in after
            && Became(before, after, "fair_crm.admin.backups.download", "fair_crm.admin.backups.execute")
            && Became(before, after, "fair_crm.mail_templates.render", "fair_crm.mail_templates.execute")
            && Became(before, after, "fair_crm.admin.data_operations.run", "fair_crm.admin.data_operations.execute")
  {
    ApartCodes0049();
    var renames := UpgradeFold(FOLD_0049, REST_0049);
    MergedHeldExactlyWhen(t, FOLD_0049, REST_0049, r);
    UpgradedTables(t, FOLD_0049, REST_0049);
    OnlyExistingCodes(MergeAll(t, renames).value, MergeAll(t, renames).value.grants, r);
    RestFolded(t, FOLD_0049, REST_0049, r, 0);
    RestFolded(t, FOLD_0049, REST_0049, r, 1);
    RestFolded(t, FOLD_0049, REST_0049, r, 2);
  }

  /** One of the renames beside the fold, for any fold and list that stay apart. */
  lemma RestFolded(t: Tables, fold: Fold, rest: seq<Rename>, r: RoleId, i: nat)
    requires Valid(t) && Apart(fold, rest) && MergeAll(t, UpgradeFold(fold, rest)).Ok? && i < |rest|
    ensures var up := MergeAll(t, UpgradeFold(fold, rest)).value;
            && Became(RoleCodes(t, t.grants, r), RoleCodes(up, up.grants, r), rest[i].source, rest[i].target)
            && Became(RoleCodes(t, t.exclusions, r), RoleCodes(up, up.exclusions, r), rest[i].source, rest[i].target)
  {
    var renames := UpgradeFold(fold, rest);
    MergeAllImage(t, renames, r);
    assert renames[1..][1..] == rest;
    forall code: Code
      ensures SubstituteAll(renames, code) == rest[i].target <==> code == rest[i].source || code == rest[i].target
      ensures SubstituteAll(renames, code) != rest[i].source
    {
      var folded := if InFold(fold, code) then fold.merged else code;
      assert SubstituteAll(renames, code) == SubstituteAll(rest, folded);
      SubstituteAllOnly(rest, folded, i);
    }
  }

  /** Taking the fold apart leaves every other code held and excluded as it was. */
  lemma UnfoldedOthers(up: Tables, fold: Fold, newId: PermissionId, r: RoleId, code: Code)
    requires Valid(up) && newId !in up.codes && !HasCode(up, fold.first) && !HasCode(up, fold.second)
    requires fold.first != fold.second && fold.first != fold.merged && fold.second != fold.merged
    requires !InFold(fold, code)
    ensures var cloned := Unfolded(up, fold, newId);
            && (code in RoleCodes(cloned, cloned.grants, r) <==> code in RoleCodes(up, up.grants, r))
            && (code in RoleCodes(cloned, cloned.exclusions, r) <==> code in RoleCodes(up, up.exclusions, r))
  {
    var rename := Rename(fold.merged, fold.first);
    var (renamed, id) := RenameBack(up, fold.merged, fold.first);
    RenamedBack(up, fold);
    RenamedBackCodes(up, fold, up.grants, r);
    RenamedBackCodes(up, fold, up.exclusions, r);
    OtherInImage(rename, RoleCodes(up, up.grants, r), code);
    OtherInImage(rename, RoleCodes(up, up.exclusions, r), code);
    if id.Some? {
      ClonedCodes(renamed, id.value, fold.second, newId, r);
    }
  }

  lemma OtherInImage(rename: Rename, held: set<Code>, code: Code)
    requires code != rename.source && code != rename.target
    ensures code in Image(rename, held) <==> code in held
  {
    if code in held {
      assert Substitute(rename, code) in Image(rename, held);
    }
  }

  /** After the downgrade whoever held (or excluded) one of a rename's two codes has the earlier one, not the later. */
  lemma RestRoundTrip(t: Tables, fold: Fold, rest: seq<Rename>, newId: PermissionId, r: RoleId, i: nat)
    requires Valid(t) && Apart(fold, rest) && MergeAll(t, UpgradeFold(fold, rest)).Ok? && i < |rest|
    requires newId !in MergeAll(t, UpgradeFold(fold, rest)).value.codes
    requires DowngradeFold(MergeAll(t, UpgradeFold(fold, rest)).value, fold, rest, newId).Ok?
    ensures var t' := DowngradeFold(MergeAll(t, UpgradeFold(fold, rest)).value, fold, rest, newId).value;
            && Became(RoleCodes(t, t.grants, r), RoleCodes(t', t'.grants, r), rest[i].target, rest[i].source)
            && Became(RoleCodes(t, t.exclusions, r), RoleCodes(t', t'.exclusions, r), rest[i].target, rest[i].source)
  {
    var up := MergeAll(t, UpgradeFold(fold, rest)).value;
    UpgradedTables(t, fold, rest);
    RestFolded(t, fold, rest, r, i);
    UnfoldedIsValid(up, fold, newId);
    UnfoldedOthers(up, fold, newId, r, rest[i].source);
    UnfoldedOthers(up, fold, newId, r, rest[i].target);
    var cloned := Unfolded(up, fold, newId);
    RenameAllBackIsMergedAll(cloned, rest);
    var back := Reversed(rest);
    MergedAllImage(cloned, back, r);
    forall code: Code
      ensures SubstituteAll(back, code) == rest[i].source <==> code == rest[i].source || code == rest[i].target
      ensures SubstituteAll(back, code) != rest[i].target
    {
      SubstituteAllOnly(back, code, i);
    }
  }

  /** 0049 down again, by name. */
  lemma Downgrade0049Codes(t: Tables, newId: PermissionId, r: RoleId)
    requires Valid(t) && MergeAll(t, UpgradeFold(FOLD_0049, REST_0049)).Ok?
    requires newId !in MergeAll(t, UpgradeFold(FOLD_0049, REST_0049)).value.codes
    requires DowngradeFold(MergeAll(t, UpgradeFold(FOLD_0049, REST_0049)).value, FOLD_0049, REST_0049, newId).Ok?
    ensures var up := MergeAll(t, UpgradeFold(FOLD_0049, REST_0049)).value;
            var t' := DowngradeFold(up, FOLD_0049, REST_0049, newId).value;
            var before, after := RoleCodes(t, t.grants, r), RoleCodes(t', t'.grants, r);
            && ("fair_crm.scraper.run" in after <==>
                  || "fair_crm.scraper.run" in before || "fair_crm.scraper.download" in before
                  || "fair_crm.scraper.execute" in before)
            && ("fair_crm.scraper.run" in after ==> "fair_crm.scraper.download" in after)
            && "fair_crm.scraper.execute" !in after
            && Became(before, after, "fair_crm.admin.backups.execute", "fair_crm.admin.backups.download")
            && Became(before, after, "fair_crm.mail_templates.execute", "fair_crm.mail_templates.render")
            && Became(before, after, "fair_crm.admin.data_operations.execute", "fair_crm.admin.data_operations.run")
  {
    ApartCodes0049();
    FoldRoundTrip(t, FOLD_0049, REST_0049, newId, r);
    RestRoundTrip(t, FOLD_0049, REST_0049, newId, r, 0);
    RestRoundTrip(t, FOLD_0049, REST_0049, newId, r, 1);
    RestRoundTrip(t, FOLD_0049, REST_0049, newId, r, 2);
  }
}
