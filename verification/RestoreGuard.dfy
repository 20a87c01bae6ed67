/**
 Re-applying organization lifecycle state after a database restore. The snapshot taken before
 the restore is the authority: a row it has must read as it says, a row only the backup has
 must not come back to life.
 */
module RestoreGuard {
  import opened Wrappers
  import opened SnapshotText

  const ARCHIVED := "archived"

  predicate KnownStatus(status: string) {
    status == "pending_activation" || status == "active" || status == "suspended" || status == ARCHIVED
  }

  datatype Lifecycle = Lifecycle(status: string, deletedAt: Option<Instant>)

  datatype OrganizationState = OrganizationState(id: OrganizationId, lifecycle: Lifecycle)

  datatype Snapshot = Snapshot(capturedAt: Instant, organizations: seq<OrganizationState>, version: int)

  datatype Report = Report(ok: bool, organizationCount: nat, reapplied: nat, tombstoned: nat)

  type Table = map<OrganizationId, Lifecycle>

  // ---- the authority

  ghost predicate IdsUnique(states: seq<OrganizationState>) {
    forall i, j :: 0 <= i < j < |states| ==> states[i].id != states[j].id
  }

  /** The snapshot as a table; of two entries with one id the later counts. */
  function Authoritative(states: seq<OrganizationState>): Table {
    if states == [] then map[]
    else
      var last := states[|states| - 1];
      Authoritative(states[..|states| - 1])[last.id := last.lifecycle]
  }

  /** Every entry of the table is an entry of the snapshot. */
  lemma {:induction false} AuthoritySound(states: seq<OrganizationState>, id: OrganizationId)
    requires id in Authoritative(states)
    ensures OrganizationState(id, Authoritative(states)[id]) in states
  {
    var n := |states| - 1;
    var last := states[n];
    if last.id == id {
      assert last == OrganizationState(id, Authoritative(states)[id]);
    } else {
      AuthoritySound(states[..n], id);
    }
  }

  lemma {:induction false} AuthorityComplete(states: seq<OrganizationState>, i: nat)
    requires i < |states|
    ensures states[i].id in Authoritative(states)
    ensures IdsUnique(states) ==> Authoritative(states)[states[i].id] == states[i].lifecycle
  {
    var n := |states| - 1;
    if i < n {
      AuthorityComplete(states[..n], i);
    }
  }

  lemma {:induction false} AuthoritySize(states: seq<OrganizationState>)
    requires IdsUnique(states)
    ensures |Authoritative(states)| == |states|
  {
    if states != [] {
      var n := |states| - 1;
      AuthoritySize(states[..n]);
      if states[n].id in Authoritative(states[..n]) {
        AuthoritySound(states[..n], states[n].id);
        assert false;
      }
    }
  }

  /** Two lists with the same entries, one of them without repeated ids, are one authority. */
  lemma SameAuthority(a: seq<OrganizationState>, b: seq<OrganizationState>)
    requires IdsUnique(a)
    requires forall state :: state in a <==> state in b
    ensures Authoritative(a) == Authoritative(b)
  {
    var tableA, tableB := Authoritative(a), Authoritative(b);
    forall id | id in tableA ensures id in tableB {
      AuthoritySound(a, id);
      var j :| 0 <= j < |b| && b[j] == OrganizationState(id, tableA[id]);
      AuthorityComplete(b, j);
    }
    forall id | id in tableB ensures id in tableA && tableA[id] == tableB[id] {
      AuthoritySound(b, id);
      var i :| 0 <= i < |a| && a[i] == OrganizationState(id, tableB[id]);
      AuthorityComplete(a, i);
    }
  }

  // ---- reconciliation

  /** What the lifecycle of one restored row must become. */
  function Reconciled(authority: Table, capturedAt: Instant, id: OrganizationId): Lifecycle {
    if id in authority then authority[id] else Lifecycle(ARCHIVED, Some(capturedAt))
  }

  /** The restored rows once those in `ids` are reconciled. */
  function ReconciledRows(authority: Table, capturedAt: Instant, restored: Table, ids: set<OrganizationId>): Table {
    map id | id in restored :: if id in ids then Reconciled(authority, capturedAt, id) else restored[id]
  }

  /** Of these rows, those that only the backup has. */
  function Extra(authority: Table, ids: set<OrganizationId>): set<OrganizationId> {
    set id | id in ids && id !in authority
  }

  /** Of these rows, those of the snapshot that the backup holds with another lifecycle. */
  function Differing(authority: Table, restored: Table, ids: set<OrganizationId>): set<OrganizationId> {
    set id | id in ids && id in authority && id in restored && restored[id] != authority[id]
  }

  predicate Covered(authority: Table, restored: Table) {
    forall id :: id in authority ==> id in restored
  }

  /** Nothing is changed unless the backup holds every authoritative organization. */
  function Reconcile(s: Snapshot, restored: Table): (Table, Report) {
    var authority := Authoritative(s.organizations);
    var ids := restored.Keys;
    if !Covered(authority, restored) then (restored, Report(false, |authority|, 0, 0))
    else
      var extra := |Extra(authority, ids)|;
      (ReconciledRows(authority, s.capturedAt, restored, ids),
       Report(true, |authority|, extra + |Differing(authority, restored, ids)|, extra))
  }

  /** Reconciliation fails exactly when an authoritative organization is missing, changing nothing. */
  lemma FailsExactlyWhenMissing(s: Snapshot, restored: Table)
    ensures var (after, report) := Reconcile(s, restored);
            && (!report.ok <==> exists state :: state in s.organizations && state.id !in restored)
            && (!report.ok ==> after == restored && report.reapplied == 0 && report.tombstoned == 0)
  {
    var authority := Authoritative(s.organizations);
    if !Covered(authority, restored) {
      var id :| id in authority && id !in restored;
      AuthoritySound(s.organizations, id);
    }
    forall i | 0 <= i < |s.organizations| ensures s.organizations[i].id in authority {
      AuthorityComplete(s.organizations, i);
    }
  }

  /**
   Where it succeeds, authoritative rows equal the snapshot and every other row is archived
   and deleted at capture time, whatever the backup said.
   */
  lemma AuthorityIsReapplied(s: Snapshot, restored: Table)
    requires IdsUnique(s.organizations)
    requires Reconcile(s, restored).1.ok
    ensures var (after, report) := Reconcile(s, restored);
            && (forall id :: id in after <==> id in restored)
            && (forall state :: state in s.organizations ==>
                  state.id in after && after[state.id] == state.lifecycle)
            && (forall id :: id in after && (forall state :: state in s.organizations ==> state.id != id) ==>
                  after[id] == Lifecycle(ARCHIVED, Some(s.capturedAt)))
            && report.organizationCount == |s.organizations|
  {
    var authority := Authoritative(s.organizations);
    AuthoritySize(s.organizations);
    forall i | 0 <= i < |s.organizations|
      ensures s.organizations[i].id in authority
      ensures authority[s.organizations[i].id] == s.organizations[i].lifecycle
    {
      AuthorityComplete(s.organizations, i);
    }
    forall id | id in authority ensures OrganizationState(id, authority[id]) in s.organizations {
      AuthoritySound(s.organizations, id);
    }
  }

  /** The rows reported as reapplied are those that changed and those the snapshot does not have. */
  lemma CountsAreExact(s: Snapshot, restored: Table)
    requires Reconcile(s, restored).1.ok
    ensures var (after, report) := Reconcile(s, restored);
            var authority := Authoritative(s.organizations);
            && report.tombstoned == |set id | id in restored && id !in authority|
            && report.reapplied == |Counted(authority, restored, after)|
  {
    var authority, ids := Authoritative(s.organizations), restored.Keys;
    var after := Reconcile(s, restored).0;
    var extra, differing := Extra(authority, ids), Differing(authority, restored, ids);
    assert (set id | id in restored && id !in authority) == extra;
    SplitSizes(extra, differing, Counted(authority, restored, after));
  }

  ghost function Counted(authority: Table, restored: Table, after: Table): set<OrganizationId> {
    set id | id in restored && id in after && (id !in authority || after[id] != restored[id])
  }

  /** No row appears or goes: the snapshot's organizations and the archived extra ones are all there is. */
  lemma NoRowIsLost(s: Snapshot, restored: Table)
    requires Reconcile(s, restored).1.ok
    ensures var (after, report) := Reconcile(s, restored);
            |after| == |restored| == report.organizationCount + report.tombstoned
  {
    var authority := Authoritative(s.organizations);
    var after := Reconcile(s, restored).0;
    SplitSizes(authority.Keys, Extra(authority, restored.Keys), restored.Keys);
    assert after.Keys == restored.Keys;
  }

  lemma SplitSizes(a: set<OrganizationId>, b: set<OrganizationId>, both: set<OrganizationId>)
    requires forall id :: id in both <==> id in a || id in b
    requires forall id :: id in a ==> id !in b
    ensures |both| == |a| + |b|
  {
    assert both == a + b;
  }

  /** A second run changes nothing; it counts again only the rows the snapshot does not have. */
  lemma ReconcileIsIdempotent(s: Snapshot, restored: Table)
    requires Reconcile(s, restored).1.ok
    ensures var (after, first) := Reconcile(s, restored);
            Reconcile(s, after) == (after, first.(reapplied := first.tombstoned))
  {
    var authority, ids := Authoritative(s.organizations), restored.Keys;
    var after := ReconciledRows(authority, s.capturedAt, restored, ids);
    assert after.Keys == ids;
    assert ReconciledRows(authority, s.capturedAt, after, ids) == after;
    assert Differing(authority, after, ids) == {};
  }

  lemma OneMoreRow(authority: Table, restored: Table, done: set<OrganizationId>, id: OrganizationId)
    requires id in restored && id !in done
    ensures |Extra(authority, done + {id})| == |Extra(authority, done)| + (if id in authority then 0 else 1)
    ensures |Differing(authority, restored, done + {id})|
         == |Differing(authority, restored, done)| + (if id in authority && restored[id] != authority[id] then 1 else 0)
  {
    if id in authority {
      assert Extra(authority, done + {id}) == Extra(authority, done);
    } else {
      assert Extra(authority, done + {id}) == Extra(authority, done) + {id};
    }
    if id in authority && restored[id] != authority[id] {
      assert Differing(authority, restored, done + {id}) == Differing(authority, restored, done) + {id};
    } else {
      assert Differing(authority, restored, done + {id}) == Differing(authority, restored, done);
    }
  }

  lemma NoWriteYet(authority: Table, capturedAt: Instant, restored: Table)
    ensures ReconciledRows(authority, capturedAt, restored, {}) == restored
    ensures Extra(authority, {}) == Differing(authority, restored, {}) == {}
  {
  }

  lemma OneMoreWrite(
    authority: Table, capturedAt: Instant, restored: Table, done: set<OrganizationId>, id: OrganizationId)
    requires id in restored && id !in done
    ensures id in ReconciledRows(authority, capturedAt, restored, done)
    ensures ReconciledRows(authority, capturedAt, restored, done)[id] == restored[id]
    ensures ReconciledRows(authority, capturedAt, restored, done + {id})
         == ReconciledRows(authority, capturedAt, restored, done)[id := Reconciled(authority, capturedAt, id)]
  {
  }

  // ---- the restored database

  class RestoredDatabase {
    var rows: Table

    constructor (rows: Table)
      ensures this.rows == rows
    {
      this.rows := rows;
    }

    /** Writes one row, unless it already reads as the authority says. */
    method ReapplyRow(authority: Table, capturedAt: Instant, id: OrganizationId) returns (changed: bool, extra: bool)
      requires id in rows
      modifies this
      ensures rows == old(rows)[id := Reconciled(authority, capturedAt, id)]
      ensures extra <==> id !in authority
      ensures changed <==> id !in authority || old(rows[id]) != authority[id]
    {
      if id !in authority {
        rows := rows[id := Lifecycle(ARCHIVED, Some(capturedAt))];
        return true, true;
      }
      changed, extra := rows[id] != authority[id], false;
      if changed {
        rows := rows[id := authority[id]];
      } else {
        assert rows[id := authority[id]] == rows;
      }
    }

    /** Writes row after row, counting what it writes. */
    method ReapplyEach(authority: Table, capturedAt: Instant) returns (reapplied: nat, tombstoned: nat)
      modifies this
      ensures rows == ReconciledRows(authority, capturedAt, old(rows), old(rows).Keys)
      ensures tombstoned == |Extra(authority, old(rows).Keys)|
      ensures reapplied == tombstoned + |Differing(authority, old(rows), old(rows).Keys)|
    {
      ghost var restored := rows;
      reapplied, tombstoned := 0, 0;
      var left := rows.Keys;
      ghost var done: set<OrganizationId> := {};
      NoWriteYet(authority, capturedAt, restored);
      while left != {}
        invariant forall id :: id in restored <==> id in left || id in done
        invariant forall id :: id in left ==> id !in done
        invariant rows == ReconciledRows(authority, capturedAt, restored, done)
        invariant tombstoned == |Extra(authority, done)|
        invariant reapplied == tombstoned + |Differing(authority, restored, done)|
        decreases |left|
      {
        var id :| id in left;
        OneMoreRow(authority, restored, done, id);
        OneMoreWrite(authority, capturedAt, restored, done, id);
        var changed, extra := ReapplyRow(authority, capturedAt, id);
        reapplied := reapplied + if changed then 1 else 0;
        tombstoned := tombstoned + if extra then 1 else 0;
        left := left - {id};
        done := done + {id};
      }
      assert done == restored.Keys;
    }

    method Reapply(s: Snapshot) returns (report: Report)
      modifies this
      ensures (rows, report) == Reconcile(s, old(rows))
    {
      var authority := Authoritative(s.organizations);
      if !Covered(authority, rows) {
        return Report(false, |authority|, 0, 0);
      }
      var reapplied, tombstoned := ReapplyEach(authority, s.capturedAt);
      report := Report(true, |authority|, reapplied, tombstoned);
    }
  }
}
