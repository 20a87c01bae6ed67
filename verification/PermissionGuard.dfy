/**
 Merging permissions under the triggers of migration 0046: a grant can only be inserted for an
 active permission, and a refused insert aborts the migration, whose transaction rolls back.
 */
module PermissionGuard {
  import opened Wrappers
  import opened PermissionMerge

  datatype MigrationError = PermissionNotActive

  predicate Granted(pairs: Pairs, p: PermissionId) {
    exists x :: x in pairs && x.1 == p
  }

  /** The merge would insert a grant of a permission that is not active. */
  predicate Blocked(t: Tables, rename: Rename)
    requires CodesUnique(t)
  {
    && Moves(t, rename)
    && Granted(t.grants, FindCode(t, rename.source).value)
    && FindCode(t, rename.target).value !in t.active
  }

  function Merge(t: Tables, rename: Rename): Result<Tables, MigrationError>
    requires CodesUnique(t)
  {
    if Blocked(t, rename) then Err(PermissionNotActive) else Ok(Merged(t, rename))
  }

  function MergeAll(t: Tables, renames: seq<Rename>): (r: Result<Tables, MigrationError>)
    requires Valid(t)
    ensures r.Ok? ==> Valid(r.value) && r.value == MergedAll(t, renames)
    decreases |renames|
  {
    if renames == [] then Ok(t)
    else
      MergeKeepsValid(t, renames[0]);
      match Merge(t, renames[0])
      case Err(error) => Err(error)
      case Ok(merged) => MergeAll(merged, renames[1..])
  }

  /** The loop succeeds exactly when no step meets the guard in the tables it finds. */
  lemma {:induction false} MergeAllSucceedsExactlyWhen(t: Tables, renames: seq<Rename>)
    requires Valid(t)
    ensures MergeAll(t, renames).Ok? <==>
              forall i :: 0 <= i < |renames| ==> !Blocked(MergedAll(t, renames[..i]), renames[i])
    decreases |renames|
  {
    if renames != [] {
      var merged, rest := Merged(t, renames[0]), renames[1..];
      MergeKeepsValid(t, renames[0]);
      MergeAllSucceedsExactlyWhen(merged, rest);
      forall i | 0 < i <= |renames|
        ensures MergedAll(t, renames[..i]) == MergedAll(merged, rest[..i - 1])
      {
        assert renames[..i][0] == renames[0] && renames[..i][1..] == rest[..i - 1];
      }
      assert MergedAll(t, renames[..0]) == t;
      if MergeAll(t, renames).Ok? {
        forall i | 0 <= i < |renames| ensures !Blocked(MergedAll(t, renames[..i]), renames[i]) {
          if i > 0 {
            assert !Blocked(MergedAll(merged, rest[..i - 1]), rest[i - 1]);
          }
        }
      } else if !Blocked(t, renames[0]) {
        var j :| 0 <= j < |rest| && Blocked(MergedAll(merged, rest[..j]), rest[j]);
        assert Blocked(MergedAll(t, renames[..j + 1]), renames[j + 1]);
      }
    }
  }

  // ---- lists whose renames do not touch each other

  predicate Disjoint(a: Rename, b: Rename) {
    a.source != b.source && a.source != b.target && a.target != b.source && a.target != b.target
  }

  lemma CodeStays(t: Tables, rename: Rename, code: Code)
    requires Valid(t) && code != rename.source && code != rename.target
    ensures Valid(Merged(t, rename)) && FindCode(Merged(t, rename), code) == FindCode(t, code)
    ensures FindCode(t, code).Some? ==>
              var p := FindCode(t, code).value;
              && (p in Merged(t, rename).active <==> p in t.active)
              && (Granted(Merged(t, rename).grants, p) <==> Granted(t.grants, p))
  {
    var t' := Merged(t, rename);
    MergeKeepsValid(t, rename);
    MergedHasCode(t, rename, code);
    if HasCode(t, code) {
      var p := FindCode(t, code).value;
      assert Substitute(rename, code) == code;
      assert p in t'.codes && t'.codes[p] == code;
      if Granted(t.grants, p) {
        var x :| x in t.grants && x.1 == p;
        assert x in t'.grants;
      }
      if Granted(t'.grants, p) {
        var x :| x in t'.grants && x.1 == p;
        assert x in t.grants;
      }
    }
  }

  lemma BlockedElsewhere(t: Tables, first: Rename, other: Rename)
    requires Valid(t) && Disjoint(first, other)
    ensures Valid(Merged(t, first))
    ensures Blocked(Merged(t, first), other) <==> Blocked(t, other)
  {
    CodeStays(t, first, other.source);
    CodeStays(t, first, other.target);
  }

  /** For such a list the guard can be read off the tables before the upgrade. */
  lemma {:induction false} SeparateSucceedsExactlyWhen(t: Tables, renames: seq<Rename>)
    requires Valid(t) && Separate(renames)
    ensures MergeAll(t, renames).Ok? <==> forall i :: 0 <= i < |renames| ==> !Blocked(t, renames[i])
    decreases |renames|
  {
    if renames != [] {
      var merged, rest := Merged(t, renames[0]), renames[1..];
      MergeKeepsValid(t, renames[0]);
      SeparateSucceedsExactlyWhen(merged, rest);
      forall i | 0 <= i < |rest| ensures Blocked(merged, rest[i]) <==> Blocked(t, renames[i + 1]) {
        BlockedElsewhere(t, renames[0], renames[i + 1]);
      }
    }
  }

  // ---- what a successful migration does

  /**
   For any list of renames that goes through, the loop leaves each role exactly the image of
   the codes it held, and of those it excluded, with codes unique and nothing granted that is
   missing.
   */
  lemma MergeAllImage(t: Tables, renames: seq<Rename>, r: RoleId)
    requires Valid(t) && MergeAll(t, renames).Ok?
    ensures var t' := MergeAll(t, renames).value;
            && Valid(t') && t'.auto == t.auto
            && RoleCodes(t', t'.grants, r) == ImageAll(renames, RoleCodes(t, t.grants, r))
            && RoleCodes(t', t'.exclusions, r) == ImageAll(renames, RoleCodes(t, t.exclusions, r))
  {
    MergedAllImage(t, renames, r);
  }

  /** What the triggers keep true: grants are of active permissions only, and including roles have all of those. */
  ghost predicate TriggersHold(t: Tables) {
    && (forall x :: x in t.grants ==> x.1 in t.active)
    && (forall r, p :: r in t.auto && p in t.active ==> (r, p) in t.grants)
  }

  lemma {:induction false} MergeAllKeepsTriggers(t: Tables, renames: seq<Rename>)
    requires Valid(t) && TriggersHold(t) && MergeAll(t, renames).Ok?
    ensures TriggersHold(MergeAll(t, renames).value)
    decreases |renames|
  {
    if renames != [] {
      MergeKeepsValid(t, renames[0]);
      MergeKeepsTriggers(t, renames[0]);
      MergeAllKeepsTriggers(Merged(t, renames[0]), renames[1..]);
    }
  }

  lemma MergeKeepsTriggers(t: Tables, rename: Rename)
    requires Valid(t) && TriggersHold(t) && !Blocked(t, rename)
    ensures TriggersHold(Merged(t, rename))
  {
    if Moves(t, rename) {
      var from, to := FindCode(t, rename.source).value, FindCode(t, rename.target).value;
      forall x | x in Merged(t, rename).grants ensures x.1 in Merged(t, rename).active {
        if x !in t.grants {
          var y :| y in t.grants && y.1 == from;
          assert Granted(t.grants, from);
        }
      }
    }
  }

  /** An upgrade and then the downgrade that merges back. */
  function UpAndDown(t: Tables, renames: seq<Rename>): Result<Tables, MigrationError>
    requires Valid(t)
  {
    match MergeAll(t, renames)
    case Err(error) => Err(error)
    case Ok(up) => MergeAll(up, Reversed(renames))
  }

  lemma RenamesPass(t: Tables, renames: seq<Rename>)
    requires Valid(t) && Separate(renames) && NoTargetExists(t, renames)
    ensures MergeAll(t, renames).Ok?
  {
    SeparateSucceedsExactlyWhen(t, renames);
  }

  /**
   Round trip: upgrading and downgrading goes through and restores the tables, ids and all,
   exactly when no target code existed before the upgrade.
   */
  lemma RoundTripExactlyWhen(t: Tables, renames: seq<Rename>)
    requires Valid(t) && Separate(renames)
    ensures UpAndDown(t, renames) == Ok(t) <==> NoTargetExists(t, renames)
  {
    StatementsRoundTrip(t, renames);
    if NoTargetExists(t, renames) {
      RenamesPass(t, renames);
      RenamesPass(MergedAll(t, renames), Reversed(renames));
    }
  }
}
