/**
 What the statements of a permission merge do to the tables, when no trigger refuses them.
 Codes are unique. An absent exclusion table reads as an empty one.
 */
module PermissionMerge {
  import opened Wrappers

  type RoleId = nat
  type PermissionId = nat
  type Code = string
  type Pairs = set<(RoleId, PermissionId)>

  /** `active` are the permissions in the active state, `auto` the live roles that include every new permission. */
  datatype Tables = Tables(
    codes: map<PermissionId, Code>, active: set<PermissionId>, auto: set<RoleId>, grants: Pairs, exclusions: Pairs)

  datatype Rename = Rename(source: Code, target: Code)

  ghost predicate CodesUnique(t: Tables) {
    forall p, q :: p in t.codes && q in t.codes && t.codes[p] == t.codes[q] ==> p == q
  }

  ghost predicate Refers(pairs: Pairs, t: Tables) {
    forall x :: x in pairs ==> x.1 in t.codes
  }

  /** Unique codes, and no grant or exclusion of a missing permission. */
  ghost predicate Valid(t: Tables) {
    CodesUnique(t) && t.active <= t.codes.Keys && Refers(t.grants, t) && Refers(t.exclusions, t)
  }

  predicate HasCode(t: Tables, code: Code) {
    exists p :: p in t.codes && t.codes[p] == code
  }

  function FindCode(t: Tables, code: Code): (found: Option<PermissionId>)
    requires CodesUnique(t)
    ensures found.Some? <==> HasCode(t, code)
    ensures found.Some? ==> found.value in t.codes && t.codes[found.value] == code
  {
    if HasCode(t, code) then
      var p :| p in t.codes && t.codes[p] == code;
      Some(p)
    else None
  }

  // ---- merging one code into another

  /** Rows of one permission moved to another; a row that is already there is not doubled. */
  function Repointed(pairs: Pairs, from: PermissionId, to: PermissionId): Pairs {
    (set x | x in pairs && x.1 != from) + (set x | x in pairs && x.1 == from :: (x.0, to))
  }

  /** What the statements of one merge leave behind, provided the trigger lets the insert through. */
  function Merged(t: Tables, rename: Rename): Tables
    requires CodesUnique(t)
  {
    var source, target := FindCode(t, rename.source), FindCode(t, rename.target);
    if source.None? then t
    else if target.None? then t.(codes := t.codes[source.value := rename.target])
    else if source == target then t
    else Tables(t.codes - {source.value}, t.active - {source.value}, t.auto,
                Repointed(t.grants, source.value, target.value),
                Repointed(t.exclusions, source.value, target.value))
  }

  /** The codes a role holds through a table of pairs. */
  function RoleCodes(t: Tables, pairs: Pairs, r: RoleId): set<Code> {
    set x | x in pairs && x.0 == r && x.1 in t.codes :: t.codes[x.1]
  }

  function Substitute(rename: Rename, code: Code): Code {
    if code == rename.source then rename.target else code
  }

  function Image(rename: Rename, codes: set<Code>): set<Code> {
    set c | c in codes :: Substitute(rename, c)
  }

  lemma RoleCode(t: Tables, pairs: Pairs, r: RoleId, p: PermissionId)
    requires (r, p) in pairs && p in t.codes
    ensures t.codes[p] in RoleCodes(t, pairs, r)
  {
    assert (r, p).1 in t.codes;
  }

  lemma MergeKeepsValid(t: Tables, rename: Rename)
    requires Valid(t)
    ensures Valid(Merged(t, rename))
  {
  }

  /** Whether the merge moves rows from one permission to another. */
  predicate Moves(t: Tables, rename: Rename)
    requires CodesUnique(t)
  {
    HasCode(t, rename.source) && HasCode(t, rename.target) && rename.source != rename.target
  }

  function MovedPairs(t: Tables, rename: Rename, pairs: Pairs): Pairs
    requires CodesUnique(t)
  {
    if Moves(t, rename)
    then Repointed(pairs, FindCode(t, rename.source).value, FindCode(t, rename.target).value)
    else pairs
  }

  /** Where the merge leaves the permission a pair names. */
  ghost function Successor(t: Tables, rename: Rename, p: PermissionId): PermissionId
    requires CodesUnique(t)
  {
    if Moves(t, rename) && p == FindCode(t, rename.source).value then FindCode(t, rename.target).value else p
  }

  lemma MergedCode(t: Tables, rename: Rename, p: PermissionId)
    requires CodesUnique(t) && p in t.codes
    ensures var t' := Merged(t, rename);
            Successor(t, rename, p) in t'.codes &&
            t'.codes[Successor(t, rename, p)] == Substitute(rename, t.codes[p])
  {
  }

  lemma MovedPair(t: Tables, rename: Rename, pairs: Pairs, r: RoleId, q: PermissionId)
    requires CodesUnique(t)
    ensures (r, q) in MovedPairs(t, rename, pairs) <==>
              exists p :: (r, p) in pairs && Successor(t, rename, p) == q
  {
    if Moves(t, rename) && (r, q) in MovedPairs(t, rename, pairs) && (r, q) !in pairs {
      var from := FindCode(t, rename.source).value;
      var x :| x in pairs && x.1 == from && x.0 == r;
      assert (r, from) in pairs && Successor(t, rename, from) == q;
    }
  }

  /** Merging substitutes the code in whatever a role holds, and changes nothing else. */
  lemma MergedPairs(t: Tables, rename: Rename, pairs: Pairs, r: RoleId)
    requires CodesUnique(t) && Refers(pairs, t)
    ensures RoleCodes(Merged(t, rename), MovedPairs(t, rename, pairs), r) == Image(rename, RoleCodes(t, pairs, r))
  {
    var t', pairs' := Merged(t, rename), MovedPairs(t, rename, pairs);
    var before, after := RoleCodes(t, pairs, r), RoleCodes(t', pairs', r);
    forall c | c in before ensures Substitute(rename, c) in after {
      var x :| x in pairs && x.0 == r && x.1 in t.codes && t.codes[x.1] == c;
      var q := Successor(t, rename, x.1);
      assert x == (r, x.1);
      MergedCode(t, rename, x.1);
      MovedPair(t, rename, pairs, r, q);
      RoleCode(t', pairs', r, q);
    }
    forall c | c in after ensures c in Image(rename, before) {
      var x :| x in pairs' && x.0 == r && x.1 in t'.codes && t'.codes[x.1] == c;
      assert x == (r, x.1);
      MovedPair(t, rename, pairs, r, x.1);
      var p :| (r, p) in pairs && Successor(t, rename, p) == x.1;
      assert (r, p).1 in t.codes;
      MergedCode(t, rename, p);
      RoleCode(t, pairs, r, p);
    }
  }

  lemma MergedImage(t: Tables, rename: Rename, r: RoleId)
    requires Valid(t)
    ensures RoleCodes(Merged(t, rename), Merged(t, rename).grants, r) == Image(rename, RoleCodes(t, t.grants, r))
    ensures RoleCodes(Merged(t, rename), Merged(t, rename).exclusions, r) ==
            Image(rename, RoleCodes(t, t.exclusions, r))
  {
    MergedPairs(t, rename, t.grants, r);
    MergedPairs(t, rename, t.exclusions, r);
  }

  /** Which codes exist afterwards: the images of those that existed. */
  lemma MergedHasCode(t: Tables, rename: Rename, code: Code)
    requires CodesUnique(t)
    ensures HasCode(Merged(t, rename), code) <==> exists c :: HasCode(t, c) && Substitute(rename, c) == code
  {
    var t' := Merged(t, rename);
    var source, target := FindCode(t, rename.source), FindCode(t, rename.target);
    if HasCode(t', code) {
      var p :| p in t'.codes && t'.codes[p] == code;
      assert HasCode(t, t.codes[p]) && Substitute(rename, t.codes[p]) == code;
    }
    if c :| HasCode(t, c) && Substitute(rename, c) == code {
      var p :| p in t.codes && t.codes[p] == c;
      if source.Some? && target.Some? && source != target && p == source.value {
        assert t'.codes[target.value] == code;
      } else {
        assert t'.codes[p] == code;
      }
    }
  }

  // ---- the loop over a list of renames

  function MergedAll(t: Tables, renames: seq<Rename>): (t': Tables)
    requires Valid(t)
    ensures Valid(t') && t'.auto == t.auto
    decreases |renames|
  {
    if renames == [] then t
    else
      MergeKeepsValid(t, renames[0]);
      MergedAll(Merged(t, renames[0]), renames[1..])
  }

  function SubstituteAll(renames: seq<Rename>, code: Code): Code
    decreases |renames|
  {
    if renames == [] then code else SubstituteAll(renames[1..], Substitute(renames[0], code))
  }

  function ImageAll(renames: seq<Rename>, codes: set<Code>): set<Code> {
    set c | c in codes :: SubstituteAll(renames, c)
  }

  /**
   For any list of renames the loop leaves each role exactly the image of the codes it held,
   and of those it excluded, with codes unique and nothing granted that is missing.
   */
  lemma {:induction false} MergedAllImage(t: Tables, renames: seq<Rename>, r: RoleId)
    requires Valid(t)
    ensures var t' := MergedAll(t, renames);
            && RoleCodes(t', t'.grants, r) == ImageAll(renames, RoleCodes(t, t.grants, r))
            && RoleCodes(t', t'.exclusions, r) == ImageAll(renames, RoleCodes(t, t.exclusions, r))
    decreases |renames|
  {
    if renames == [] {
      assert ImageAll(renames, RoleCodes(t, t.grants, r)) == RoleCodes(t, t.grants, r);
      assert ImageAll(renames, RoleCodes(t, t.exclusions, r)) == RoleCodes(t, t.exclusions, r);
    } else {
      MergeKeepsValid(t, renames[0]);
      MergedImage(t, renames[0], r);
      MergedAllImage(Merged(t, renames[0]), renames[1..], r);
      ImageStep(renames, RoleCodes(t, t.grants, r));
      ImageStep(renames, RoleCodes(t, t.exclusions, r));
    }
  }

  lemma ImageStep(renames: seq<Rename>, codes: set<Code>)
    requires renames != []
    ensures ImageAll(renames[1..], Image(renames[0], codes)) == ImageAll(renames, codes)
  {
    var stepped := ImageAll(renames[1..], Image(renames[0], codes));
    forall c | c in codes ensures SubstituteAll(renames, c) in stepped {
      assert Substitute(renames[0], c) in Image(renames[0], codes);
    }
  }

  // ---- round trip of 0051: the same merge in both directions

  function Reversed(renames: seq<Rename>): seq<Rename> {
    seq(|renames|, i requires 0 <= i < |renames| => Rename(renames[i].target, renames[i].source))
  }

  /** No code occurs twice among sources and targets. */
  ghost predicate Separate(renames: seq<Rename>) {
    && (forall i, j :: 0 <= i < |renames| && 0 <= j < |renames| ==> renames[i].source != renames[j].target)
    && (forall i, j :: 0 <= i < j < |renames| ==>
          renames[i].source != renames[j].source && renames[i].target != renames[j].target)
  }

  ghost predicate NoTargetExists(t: Tables, renames: seq<Rename>) {
    forall i :: 0 <= i < |renames| ==> !HasCode(t, renames[i].target)
  }

  lemma {:induction false} SubstituteAllAt(renames: seq<Rename>, code: Code, i: nat)
    requires Separate(renames) && i < |renames| && code == renames[i].source
    ensures SubstituteAll(renames, code) == renames[i].target
    decreases |renames|
  {
    if i == 0 {
      SubstituteAllElsewhere(renames[1..], renames[0].target);
    } else {
      SubstituteAllAt(renames[1..], code, i - 1);
    }
  }

  lemma {:induction false} SubstituteAllElsewhere(renames: seq<Rename>, code: Code)
    requires forall i :: 0 <= i < |renames| ==> renames[i].source != code
    ensures SubstituteAll(renames, code) == code
    decreases |renames|
  {
    if renames != [] {
      SubstituteAllElsewhere(renames[1..], code);
    }
  }

  lemma MergedRenames(t: Tables, rename: Rename)
    requires Valid(t) && !HasCode(t, rename.target)
    ensures Merged(t, rename) == t.(codes := map p | p in t.codes :: Substitute(rename, t.codes[p]))
  {
  }

  lemma TargetsStayAbsent(t: Tables, renames: seq<Rename>)
    requires Valid(t) && Separate(renames) && NoTargetExists(t, renames) && renames != []
    ensures NoTargetExists(Merged(t, renames[0]), renames[1..]) && Separate(renames[1..])
  {
    forall i | 0 <= i < |renames[1..]| ensures !HasCode(Merged(t, renames[0]), renames[1..][i].target) {
      assert renames[1..][i] == renames[i + 1];
      MergedHasCode(t, renames[0], renames[i + 1].target);
    }
  }

  ghost function Recoded(t: Tables, renames: seq<Rename>): map<PermissionId, Code> {
    map p | p in t.codes :: SubstituteAll(renames, t.codes[p])
  }

  /** With no target in the way every merge is a plain rename of one row. */
  lemma {:induction false} MergedAllRenames(t: Tables, renames: seq<Rename>)
    requires Valid(t) && Separate(renames) && NoTargetExists(t, renames)
    ensures MergedAll(t, renames) == t.(codes := Recoded(t, renames))
    decreases |renames|
  {
    if renames == [] {
      assert Recoded(t, renames) == t.codes;
    } else {
      MergeKeepsValid(t, renames[0]);
      MergedRenames(t, renames[0]);
      TargetsStayAbsent(t, renames);
      MergedAllRenames(Merged(t, renames[0]), renames[1..]);
      assert Recoded(Merged(t, renames[0]), renames[1..]) == Recoded(t, renames);
    }
  }

  lemma {:induction false} MergedAllHasCode(t: Tables, renames: seq<Rename>, code: Code)
    requires Valid(t)
    ensures HasCode(MergedAll(t, renames), code) ==> exists c :: HasCode(t, c) && SubstituteAll(renames, c) == code
    decreases |renames|
  {
    if renames == [] {
      assert SubstituteAll(renames, code) == code;
    } else {
      MergeKeepsValid(t, renames[0]);
      MergedAllHasCode(Merged(t, renames[0]), renames[1..], code);
      if HasCode(MergedAll(t, renames), code) {
        var c1 :| HasCode(Merged(t, renames[0]), c1) && SubstituteAll(renames[1..], c1) == code;
        MergedHasCode(t, renames[0], c1);
        var c :| HasCode(t, c) && Substitute(renames[0], c) == c1;
        assert SubstituteAll(renames, c) == code;
      }
    }
  }

  lemma SubstituteBack(renames: seq<Rename>, code: Code)
    requires Separate(renames) && forall i :: 0 <= i < |renames| ==> renames[i].target != code
    ensures SubstituteAll(Reversed(renames), SubstituteAll(renames, code)) == code
    ensures forall i :: 0 <= i < |renames| ==> SubstituteAll(renames, code) != renames[i].source
  {
    var back := Reversed(renames);
    if i :| 0 <= i < |renames| && renames[i].source == code {
      SubstituteAllAt(renames, code, i);
      SubstituteAllAt(back, renames[i].target, i);
    } else {
      SubstituteAllElsewhere(renames, code);
      SubstituteAllElsewhere(back, code);
    }
  }

  /** A merge list never produces a code it replaces. */
  lemma SubstituteAllAvoidsSources(renames: seq<Rename>, code: Code)
    requires Separate(renames)
    ensures forall i :: 0 <= i < |renames| ==> SubstituteAll(renames, code) != renames[i].source
  {
    if j :| 0 <= j < |renames| && renames[j].source == code {
      SubstituteAllAt(renames, code, j);
    } else {
      SubstituteAllElsewhere(renames, code);
    }
  }

  lemma SubstituteAllOnly(renames: seq<Rename>, code: Code, i: nat)
    requires Separate(renames) && i < |renames|
    ensures SubstituteAll(renames, code) == renames[i].target <==>
              code == renames[i].source || code == renames[i].target
    ensures SubstituteAll(renames, code) != renames[i].source
  {
    SubstituteAllAvoidsSources(renames, code);
    if j :| 0 <= j < |renames| && renames[j].source == code {
      SubstituteAllAt(renames, code, j);
    } else {
      SubstituteAllElsewhere(renames, code);
    }
  }

  /** Merging back restores the tables, ids and all, exactly when no target code existed before. */
  lemma StatementsRoundTrip(t: Tables, renames: seq<Rename>)
    requires Valid(t) && Separate(renames)
    ensures NoTargetExists(t, renames) ==> NoTargetExists(MergedAll(t, renames), Reversed(renames))
    ensures MergedAll(MergedAll(t, renames), Reversed(renames)) == t <==> NoTargetExists(t, renames)
  {
    MergedAllImage(t, renames, 0);
    var up := MergedAll(t, renames);
    var back := Reversed(renames);
    if NoTargetExists(t, renames) {
      MergedAllRenames(t, renames);
      forall p | p in t.codes ensures SubstituteAll(back, up.codes[p]) == t.codes[p]
                              ensures forall i :: 0 <= i < |renames| ==> up.codes[p] != renames[i].source {
        assert HasCode(t, t.codes[p]);
        SubstituteBack(renames, t.codes[p]);
      }
      assert NoTargetExists(up, back);
      MergedAllRenames(up, back);
      assert MergedAll(up, back).codes == t.codes;
    } else {
      var i :| 0 <= i < |renames| && HasCode(t, renames[i].target);
      var lost := renames[i].target;
      assert back[i].source == lost;
      MergedAllHasCode(up, back, lost);
      if HasCode(MergedAll(up, back), lost) {
        var c :| HasCode(up, c) && SubstituteAll(back, c) == lost;
        SubstituteAllAvoidsSources(back, c);
      }
    }
  }
}
