/**
 Migration 0049: two codes folded into one, and taken apart again by the downgrade, which
 renames the merged code back and clones the other one from it.
 */
module PermissionFold {
  import opened Wrappers
  import opened PermissionMerge
  import opened PermissionGuard

  function RenameBack(t: Tables, target: Code, source: Code): (Tables, Option<PermissionId>)
    requires CodesUnique(t)
  {
    var existing := FindCode(t, source);
    if existing.Some? then (t, existing)
    else
      var id := FindCode(t, target);
      if id.None? then (t, None)
      else (t.(codes := t.codes[id.value := source]), id)
  }

  /** The rows of one permission copied to another. */
  function Copied(pairs: Pairs, from: PermissionId, to: PermissionId): Pairs {
    pairs + set x | x in pairs && x.1 == from :: (x.0, to)
  }

  /** The grants the insert trigger gives a new permission: all including roles, if it is active. */
  function AutoGrants(t: Tables, p: PermissionId, isActive: bool): Pairs {
    set r | r in t.auto && isActive :: (r, p)
  }

  /** What the statements of a clone leave behind, provided the trigger lets the copies through. */
  function Cloned(t: Tables, source: PermissionId, code: Code, newId: PermissionId): Tables
    requires CodesUnique(t)
  {
    if HasCode(t, code) then t
    else
      var isActive := source in t.active;
      Tables(t.codes[newId := code], if isActive then t.active + {newId} else t.active, t.auto,
             Copied(t.grants, source, newId) + AutoGrants(t, newId, isActive), Copied(t.exclusions, source, newId))
  }

  /** The two codes folded together and the code they were folded into. */
  datatype Fold = Fold(first: Code, second: Code, merged: Code)

  function UpgradeFold(fold: Fold, rest: seq<Rename>): seq<Rename> {
    [Rename(fold.first, fold.merged), Rename(fold.second, fold.merged)] + rest
  }

  /** A clone of a permission that is not active is refused as soon as there is a grant to copy. */
  predicate CloneBlocked(t: Tables, source: PermissionId, code: Code) {
    !HasCode(t, code) && source !in t.active && Granted(t.grants, source)
  }

  function CloneWithGrants(t: Tables, source: PermissionId, code: Code, newId: PermissionId)
    : Result<Tables, MigrationError>
    requires CodesUnique(t)
  {
    if CloneBlocked(t, source, code) then Err(PermissionNotActive) else Ok(Cloned(t, source, code, newId))
  }

  /** The downgrade: rename back, clone the second code from the first, rename the rest back. */
  function DowngradeFold(t: Tables, fold: Fold, rest: seq<Rename>, newId: PermissionId): Result<Tables, MigrationError>
    requires Valid(t) && newId !in t.codes
  {
    var (renamed, id) := RenameBack(t, fold.merged, fold.first);
    RenameBackKeepsValid(t, fold.merged, fold.first);
    match if id.Some? then CloneWithGrants(renamed, id.value, fold.second, newId) else Ok(renamed)
    case Err(error) => Err(error)
    case Ok(cloned) => Ok(RenameAllBack(cloned, rest))
  }

  function RenameAllBack(t: Tables, renames: seq<Rename>): Tables
    requires Valid(t)
    decreases |renames|
  {
    if renames == [] then t
    else
      RenameBackKeepsValid(t, renames[0].target, renames[0].source);
      RenameAllBack(RenameBack(t, renames[0].target, renames[0].source).0, renames[1..])
  }

  lemma RenameBackKeepsValid(t: Tables, target: Code, source: Code)
    requires Valid(t)
    ensures Valid(RenameBack(t, target, source).0)
    ensures RenameBack(t, target, source).0.codes.Keys == t.codes.Keys
  {
  }

  /** Renaming back is the merge in the other direction when the old code is gone. */
  lemma RenameBackIsMerge(t: Tables, target: Code, source: Code)
    requires CodesUnique(t) && !HasCode(t, source)
    ensures RenameBack(t, target, source).0 == Merged(t, Rename(target, source))
  {
  }

  lemma {:induction false} RenameAllBackIsMergedAll(t: Tables, renames: seq<Rename>)
    requires Valid(t) && Separate(renames)
    requires forall i :: 0 <= i < |renames| ==> !HasCode(t, renames[i].source)
    ensures RenameAllBack(t, renames) == MergedAll(t, Reversed(renames))
    decreases |renames|
  {
    if renames != [] {
      var back := Reversed(renames);
      RenameBackIsMerge(t, renames[0].target, renames[0].source);
      var t1 := Merged(t, back[0]);
      MergeKeepsValid(t, back[0]);
      forall i | 0 <= i < |renames[1..]| ensures !HasCode(t1, renames[1..][i].source) {
        assert renames[1..][i] == renames[i + 1];
        MergedHasCode(t, back[0], renames[i + 1].source);
      }
      RenameAllBackIsMergedAll(t1, renames[1..]);
      assert Reversed(renames)[1..] == Reversed(renames[1..]);
    }
  }

  /** The three codes of the fold differ and stay out of the other renames. */
  ghost predicate Apart(fold: Fold, rest: seq<Rename>) {
    && fold.first != fold.second && fold.first != fold.merged && fold.second != fold.merged
    && Separate(rest)
    && forall i :: 0 <= i < |rest| ==>
         && rest[i].source != fold.first && rest[i].source != fold.second && rest[i].source != fold.merged
         && rest[i].target != fold.first && rest[i].target != fold.second && rest[i].target != fold.merged
  }

  predicate InFold(fold: Fold, code: Code) {
    code == fold.first || code == fold.second || code == fold.merged
  }

  lemma {:induction false} SubstituteAllReaches(renames: seq<Rename>, code: Code, goal: Code)
    requires SubstituteAll(renames, code) == goal
    ensures code == goal || exists i :: 0 <= i < |renames| && renames[i].target == goal
    decreases |renames|
  {
    if renames != [] {
      SubstituteAllReaches(renames[1..], Substitute(renames[0], code), goal);
      if i :| 0 <= i < |renames[1..]| && renames[1..][i].target == goal {
        assert renames[i + 1].target == goal;
      }
    }
  }

  /** What the upgrade makes of one code. */
  lemma UpgradedCode(fold: Fold, rest: seq<Rename>, code: Code)
    requires Apart(fold, rest)
    ensures var up := SubstituteAll(UpgradeFold(fold, rest), code);
            && (up == fold.merged <==> InFold(fold, code))
            && up != fold.first && up != fold.second
            && forall i :: 0 <= i < |rest| ==> up != rest[i].source
  {
    var renames := UpgradeFold(fold, rest);
    var folded := if InFold(fold, code) then fold.merged else code;
    assert renames[1..][1..] == rest;
    assert SubstituteAll(renames, code) == SubstituteAll(rest, folded);
    var up := SubstituteAll(rest, folded);
    SubstituteAllAvoidsSources(rest, folded);
    SubstituteAllReaches(rest, folded, up);
    if InFold(fold, code) {
      SubstituteAllElsewhere(rest, fold.merged);
    }
  }

  lemma UpgradedTables(t: Tables, fold: Fold, rest: seq<Rename>)
    requires Valid(t) && Apart(fold, rest)
    ensures var up := MergedAll(t, UpgradeFold(fold, rest));
            && Valid(up) && !HasCode(up, fold.first) && !HasCode(up, fold.second)
            && forall i :: 0 <= i < |rest| ==> !HasCode(up, rest[i].source)
  {
    var renames := UpgradeFold(fold, rest);
    MergedAllImage(t, renames, 0);
    forall code | HasCode(MergedAll(t, renames), code)
      ensures code != fold.first && code != fold.second
      ensures forall i :: 0 <= i < |rest| ==> code != rest[i].source {
      MergedAllHasCode(t, renames, code);
      var c :| HasCode(t, c) && SubstituteAll(renames, c) == code;
      UpgradedCode(fold, rest, c);
    }
  }

  lemma CopiedCodes(t: Tables, source: PermissionId, code: Code, newId: PermissionId, pairs: Pairs, r: RoleId)
    requires Valid(t) && Refers(pairs, t) && source in t.codes && newId !in t.codes && !HasCode(t, code)
    ensures RoleCodes(Cloned(t, source, code, newId), Copied(pairs, source, newId), r) ==
            RoleCodes(t, pairs, r) + if t.codes[source] in RoleCodes(t, pairs, r) then {code} else {}
  {
    var t', pairs' := Cloned(t, source, code, newId), Copied(pairs, source, newId);
    var before, after := RoleCodes(t, pairs, r), RoleCodes(t', pairs', r);
    forall c | c in before ensures c in after && (c == t.codes[source] ==> code in after) {
      var x :| x in pairs && x.0 == r && x.1 in t.codes && t.codes[x.1] == c;
      assert x == (r, x.1);
      RoleCode(t', pairs', r, x.1);
      if c == t.codes[source] {
        assert (r, newId) in pairs';
        RoleCode(t', pairs', r, newId);
      }
    }
    forall c | c in after ensures c in before || (c == code && t.codes[source] in before) {
      var x :| x in pairs' && x.0 == r && x.1 in t'.codes && t'.codes[x.1] == c;
      if x !in pairs {
        assert (r, source) in pairs;
        RoleCode(t, pairs, r, source);
      }
    }
  }

  lemma UnionCodes(t: Tables, a: Pairs, b: Pairs, r: RoleId)
    ensures RoleCodes(t, a + b, r) == RoleCodes(t, a, r) + RoleCodes(t, b, r)
  {
  }

  /** A clone gives the new code to the holders of the old one, and to the roles the insert trigger adds. */
  lemma ClonedCodes(t: Tables, source: PermissionId, code: Code, newId: PermissionId, r: RoleId)
    requires Valid(t) && source in t.codes && newId !in t.codes && !HasCode(t, code)
    ensures var t' := Cloned(t, source, code, newId);
            var held, excluded := RoleCodes(t, t.grants, r), RoleCodes(t, t.exclusions, r);
            && Valid(t')
            && RoleCodes(t', t'.grants, r) ==
                 held + (if t.codes[source] in held || (r in t.auto && source in t.active) then {code} else {})
            && RoleCodes(t', t'.exclusions, r) == excluded + if t.codes[source] in excluded then {code} else {}
  {
    var t' := Cloned(t, source, code, newId);
    var added := AutoGrants(t, newId, source in t.active);
    CopiedCodes(t, source, code, newId, t.grants, r);
    CopiedCodes(t, source, code, newId, t.exclusions, r);
    UnionCodes(t', Copied(t.grants, source, newId), added, r);
    if r in t.auto && source in t.active {
      assert (r, newId) in added;
      RoleCode(t', added, r, newId);
    }
    assert RoleCodes(t', added, r) == if r in t.auto && source in t.active then {code} else {};
  }

  /** Which of the two parts a role holds after the downgrade; never the merged code. */
  ghost predicate TakenApart(fold: Fold, held: set<Code>, first: bool, second: bool) {
    (fold.first in held <==> first) && (fold.second in held <==> second) && fold.merged !in held
  }

  lemma RestLeavesFold(t: Tables, fold: Fold, rest: seq<Rename>, pairs: Pairs, pairs': Pairs, r: RoleId)
    requires Valid(t) && Apart(fold, rest)
    requires RoleCodes(MergedAll(t, Reversed(rest)), pairs', r) == ImageAll(Reversed(rest), RoleCodes(t, pairs, r))
    ensures var before, after := RoleCodes(t, pairs, r), RoleCodes(MergedAll(t, Reversed(rest)), pairs', r);
            forall code :: InFold(fold, code) ==> (code in before <==> code in after)
  {
    var back := Reversed(rest);
    forall code ensures InFold(fold, code) ==> SubstituteAll(back, code) == code
                ensures InFold(fold, SubstituteAll(back, code)) ==> SubstituteAll(back, code) == code {
      SubstituteAllReaches(back, code, SubstituteAll(back, code));
      if InFold(fold, code) {
        SubstituteAllElsewhere(back, code);
      }
    }
  }

  /** The roles to which cloning the code gives the new permission by trigger alone. */
  predicate AutoReceives(t: Tables, code: Code, r: RoleId)
    requires CodesUnique(t)
  {
    r in t.auto && HasCode(t, code) && FindCode(t, code).value in t.active
  }

  predicate CodeBlocked(t: Tables, code: Code)
    requires CodesUnique(t)
  {
    HasCode(t, code) && FindCode(t, code).value !in t.active && Granted(t.grants, FindCode(t, code).value)
  }

  /** Renaming back moves the merged code's permission, whole, to the first code. */
  lemma RenamedBack(up: Tables, fold: Fold)
    requires Valid(up) && !HasCode(up, fold.first) && fold.first != fold.merged
    ensures var (renamed, id) := RenameBack(up, fold.merged, fold.first);
            && Valid(renamed) && renamed == up.(codes := renamed.codes)
            && (id.Some? <==> HasCode(up, fold.merged))
            && (id.Some? ==> id == FindCode(up, fold.merged) && id.value in renamed.codes &&
                             renamed.codes == up.codes[id.value := fold.first])
            && (forall code :: HasCode(renamed, code) ==> HasCode(up, code) || code == fold.first)
            && (forall code :: HasCode(renamed, code) ==> code != fold.merged)
  {
    RenameBackKeepsValid(up, fold.merged, fold.first);
  }

  /** The codes a role holds are the same but for the merged code, which reads as the first. */
  lemma RenamedBackCodes(up: Tables, fold: Fold, pairs: Pairs, r: RoleId)
    requires Valid(up) && Refers(pairs, up) && !HasCode(up, fold.first)
    ensures var renamed := RenameBack(up, fold.merged, fold.first).0;
            RoleCodes(renamed, pairs, r) == Image(Rename(fold.merged, fold.first), RoleCodes(up, pairs, r))
  {
    var rename := Rename(fold.merged, fold.first);
    RenameBackIsMerge(up, fold.merged, fold.first);
    MergedPairs(up, rename, pairs, r);
  }

  /** The first two steps: the tables once the merged code is renamed back and, if it was there, cloned. */
  function Unfolded(up: Tables, fold: Fold, newId: PermissionId): Tables
    requires Valid(up)
  {
    var (renamed, id) := RenameBack(up, fold.merged, fold.first);
    RenameBackKeepsValid(up, fold.merged, fold.first);
    if id.Some? then Cloned(renamed, id.value, fold.second, newId) else renamed
  }

  lemma UnfoldedIsValid(up: Tables, fold: Fold, newId: PermissionId)
    requires Valid(up) && newId !in up.codes && !HasCode(up, fold.first) && !HasCode(up, fold.second)
    requires fold.first != fold.second && fold.first != fold.merged && fold.second != fold.merged
    ensures Valid(Unfolded(up, fold, newId))
    ensures forall code :: HasCode(Unfolded(up, fold, newId), code) ==> HasCode(up, code) || InFold(fold, code)
  {
    RenamedBack(up, fold);
    var (renamed, id) := RenameBack(up, fold.merged, fold.first);
    if id.Some? {
      ClonedCodes(renamed, id.value, fold.second, newId, 0);
    }
  }

  /**
   The first two steps of the downgrade take the merged code apart for every role that held
   it; an including role gets the second part of an active one in any case.
   */
  lemma FoldTakenApart(up: Tables, fold: Fold, newId: PermissionId, r: RoleId)
    requires Valid(up) && newId !in up.codes && !HasCode(up, fold.first) && !HasCode(up, fold.second)
    requires fold.first != fold.second && fold.first != fold.merged && fold.second != fold.merged
    ensures var cloned := Unfolded(up, fold, newId);
            var held, excluded := RoleCodes(up, up.grants, r), RoleCodes(up, up.exclusions, r);
            && TakenApart(fold, RoleCodes(cloned, cloned.grants, r),
                          fold.merged in held, fold.merged in held || AutoReceives(up, fold.merged, r))
            && TakenApart(fold, RoleCodes(cloned, cloned.exclusions, r),
                          fold.merged in excluded, fold.merged in excluded)
  {
    var (renamed, id) := RenameBack(up, fold.merged, fold.first);
    RenamedBack(up, fold);
    OnlyExistingCodes(up, up.grants, r);
    OnlyExistingCodes(up, up.exclusions, r);
    RenamedBackCodes(up, fold, up.grants, r);
    RenamedBackCodes(up, fold, up.exclusions, r);
    ImageOf(fold, RoleCodes(up, up.grants, r));
    ImageOf(fold, RoleCodes(up, up.exclusions, r));
    if id.Some? {
      ClonedCodes(renamed, id.value, fold.second, newId, r);
    }
  }

  lemma ImageOf(fold: Fold, held: set<Code>)
    requires fold.first !in held && fold.first != fold.second && fold.first != fold.merged && fold.second != fold.merged
    ensures var image := Image(Rename(fold.merged, fold.first), held);
            && (fold.first in image <==> fold.merged in held)
            && (fold.second in image <==> fold.second in held)
            && fold.merged !in image
  {
    var image := Image(Rename(fold.merged, fold.first), held);
    if fold.merged in held {
      assert Substitute(Rename(fold.merged, fold.first), fold.merged) in image;
    }
    if fold.second in held {
      assert Substitute(Rename(fold.merged, fold.first), fold.second) in image;
    }
  }

  lemma OnlyExistingCodes(t: Tables, pairs: Pairs, r: RoleId)
    ensures forall c :: c in RoleCodes(t, pairs, r) ==> HasCode(t, c)
  {
  }

  predicate HeldAny(fold: Fold, held: set<Code>) {
    fold.first in held || fold.second in held || fold.merged in held
  }

  /** The upgrade goes through exactly when none of these merges of the tables it finds would be refused. */
  lemma FoldSucceedsExactlyWhen(t: Tables, fold: Fold, rest: seq<Rename>)
    requires Valid(t) && Apart(fold, rest)
    ensures MergeAll(t, UpgradeFold(fold, rest)).Ok? <==>
              && !Blocked(t, Rename(fold.first, fold.merged))
              && !Blocked(t, Rename(fold.second, if HasCode(t, fold.merged) then fold.merged else fold.first))
              && forall i :: 0 <= i < |rest| ==> !Blocked(t, rest[i])
  {
    var one, two := Rename(fold.first, fold.merged), Rename(fold.second, fold.merged);
    var t1 := Merged(t, one);
    MergeKeepsValid(t, one);
    var t2 := Merged(t1, two);
    MergeKeepsValid(t1, two);
    SecondBlocked(t, fold);
    SeparateSucceedsExactlyWhen(t2, rest);
    forall i | 0 <= i < |rest| ensures Blocked(t2, rest[i]) <==> Blocked(t, rest[i]) {
      BlockedElsewhere(t, one, rest[i]);
      BlockedElsewhere(t1, two, rest[i]);
    }
    var renames := UpgradeFold(fold, rest);
    assert renames[1..][1..] == rest;
    assert MergeAll(t, renames).Ok? <==> !Blocked(t, one) && MergeAll(t1, renames[1..]).Ok?;
    assert MergeAll(t1, renames[1..]).Ok? <==> !Blocked(t1, two) && MergeAll(t2, rest).Ok?;
  }

  /** The second merge finds the merged code where the first left it: in its own row or in that of the first code. */
  lemma SecondBlocked(t: Tables, fold: Fold)
    requires Valid(t) && fold.first != fold.second && fold.first != fold.merged && fold.second != fold.merged
    ensures Valid(Merged(t, Rename(fold.first, fold.merged)))
    ensures Blocked(Merged(t, Rename(fold.first, fold.merged)), Rename(fold.second, fold.merged)) <==>
            Blocked(t, Rename(fold.second, if HasCode(t, fold.merged) then fold.merged else fold.first))
  {
    var one := Rename(fold.first, fold.merged);
    CodeStays(t, one, fold.second);
    MergedHasCode(t, one, fold.merged);
    var t1 := Merged(t, one);
    if HasCode(t, fold.merged) {
      var p := FindCode(t, fold.merged).value;
      assert t1.codes[p] == fold.merged;
      assert FindCode(t1, fold.merged).value == p;
    } else if HasCode(t, fold.first) {
      var p := FindCode(t, fold.first).value;
      assert t1.codes[p] == fold.merged;
      assert FindCode(t1, fold.merged).value == p;
    } else {
      assert t1 == t;
    }
  }

  /** The downgrade goes through exactly when the merged permission is active or nobody holds it. */
  lemma DowngradeSucceedsExactlyWhen(t: Tables, fold: Fold, rest: seq<Rename>, newId: PermissionId)
    requires Valid(t) && Apart(fold, rest) && MergeAll(t, UpgradeFold(fold, rest)).Ok?
    requires newId !in MergeAll(t, UpgradeFold(fold, rest)).value.codes
    ensures var up := MergeAll(t, UpgradeFold(fold, rest)).value;
            DowngradeFold(up, fold, rest, newId).Ok? <==> !CodeBlocked(up, fold.merged)
  {
    UpgradedTables(t, fold, rest);
    RenamedBack(MergeAll(t, UpgradeFold(fold, rest)).value, fold);
  }

  /**
   0049 up and down, when both go through: a role ends with the first part exactly when it
   held any of the three codes before, and with the second exactly then or when the clone's
   trigger gave it; it excludes both exactly when it excluded any.
   */
  lemma FoldRoundTrip(t: Tables, fold: Fold, rest: seq<Rename>, newId: PermissionId, r: RoleId)
    requires Valid(t) && Apart(fold, rest) && MergeAll(t, UpgradeFold(fold, rest)).Ok?
    requires newId !in MergeAll(t, UpgradeFold(fold, rest)).value.codes
    requires DowngradeFold(MergeAll(t, UpgradeFold(fold, rest)).value, fold, rest, newId).Ok?
    ensures var up := MergeAll(t, UpgradeFold(fold, rest)).value;
            var t' := DowngradeFold(up, fold, rest, newId).value;
            var before, excluded := RoleCodes(t, t.grants, r), RoleCodes(t, t.exclusions, r);
            && TakenApart(fold, RoleCodes(t', t'.grants, r),
                          HeldAny(fold, before), HeldAny(fold, before) || AutoReceives(up, fold.merged, r))
            && TakenApart(fold, RoleCodes(t', t'.exclusions, r), HeldAny(fold, excluded), HeldAny(fold, excluded))
  {
    var up := MergeAll(t, UpgradeFold(fold, rest)).value;
    UpgradedTables(t, fold, rest);
    MergedHeldExactlyWhen(t, fold, rest, r);
    FoldTakenApart(up, fold, newId, r);
    UnfoldedIsValid(up, fold, newId);
    var cloned := Unfolded(up, fold, newId);
    RenameAllBackIsMergedAll(cloned, rest);
    var t' := MergedAll(cloned, Reversed(rest));
    MergedAllImage(cloned, Reversed(rest), r);
    RestLeavesFold(cloned, fold, rest, cloned.grants, t'.grants, r);
    RestLeavesFold(cloned, fold, rest, cloned.exclusions, t'.exclusions, r);
    assert InFold(fold, fold.first) && InFold(fold, fold.second) && InFold(fold, fold.merged);
  }

  /** Where the triggers have kept the tables, the downgrade always goes through and no role ends with one part only. */
  lemma FoldRoundTripUnderTriggers(t: Tables, fold: Fold, rest: seq<Rename>, newId: PermissionId, r: RoleId)
    requires Valid(t) && TriggersHold(t) && Apart(fold, rest) && MergeAll(t, UpgradeFold(fold, rest)).Ok?
    requires newId !in MergeAll(t, UpgradeFold(fold, rest)).value.codes
    ensures var down := DowngradeFold(MergeAll(t, UpgradeFold(fold, rest)).value, fold, rest, newId);
            var before := RoleCodes(t, t.grants, r);
            && down.Ok?
            && TakenApart(fold, RoleCodes(down.value, down.value.grants, r),
                          HeldAny(fold, before), HeldAny(fold, before))
  {
    var up := MergeAll(t, UpgradeFold(fold, rest)).value;
    MergeAllKeepsTriggers(t, UpgradeFold(fold, rest));
    DowngradeSucceedsExactlyWhen(t, fold, rest, newId);
    FoldRoundTrip(t, fold, rest, newId, r);
    MergedHeldExactlyWhen(t, fold, rest, r);
    if AutoReceives(up, fold.merged, r) {
      RoleCode(up, up.grants, r, FindCode(up, fold.merged).value);
    }
  }

  lemma MergedHeldExactlyWhen(t: Tables, fold: Fold, rest: seq<Rename>, r: RoleId)
    requires Valid(t) && Apart(fold, rest)
    ensures var up := MergedAll(t, UpgradeFold(fold, rest));
            && (fold.merged in RoleCodes(up, up.grants, r) <==> HeldAny(fold, RoleCodes(t, t.grants, r)))
            && (fold.merged in RoleCodes(up, up.exclusions, r) <==> HeldAny(fold, RoleCodes(t, t.exclusions, r)))
  {
    MergedAllImage(t, UpgradeFold(fold, rest), r);
    forall c: Code ensures SubstituteAll(UpgradeFold(fold, rest), c) == fold.merged <==> InFold(fold, c) {
      UpgradedCode(fold, rest, c);
    }
  }
}
