/** Capture before a restore, and what the whole of capture, transport and reconciliation promises. */
module RestoreCapture {
  import opened Wrappers
  import opened SnapshotText
  import opened RestoreGuard
  import opened RestoreSnapshot

  /** s lists exactly the rows of the table, in order of id. */
  ghost predicate ListsTable(states: seq<OrganizationState>, current: Table) {
    && IdsUnique(states) && Ascending(states)
    && forall state :: state in states <==> state.id in current && current[state.id] == state.lifecycle
  }

  predicate AllKnown(current: Table) {
    forall id :: id in current ==> KnownStatus(current[id].status)
  }

  ghost predicate IsCapture(s: Snapshot, current: Table, now: Instant) {
    s.version == SNAPSHOT_VERSION && s.capturedAt == now && ListsTable(s.organizations, current) && AllKnown(current)
  }

  lemma CapturedAuthority(states: seq<OrganizationState>, current: Table)
    requires ListsTable(states, current)
    ensures Authoritative(states) == current
  {
    var authority := Authoritative(states);
    forall id | id in current ensures id in authority && authority[id] == current[id] {
      var state := OrganizationState(id, current[id]);
      var i :| 0 <= i < |states| && states[i] == state;
      AuthorityComplete(states, i);
    }
    forall id | id in authority ensures id in current {
      AuthoritySound(states, id);
    }
  }

  /** A captured snapshot survives its JSON unchanged, entry order included. */
  lemma CaptureSurvivesJson(s: Snapshot, current: Table, now: Instant, reader: Reader)
    requires IsCapture(s, current, now)
    ensures FromJson(ToJson(s), reader) == Ok(s)
  {
    forall i | 0 <= i < |s.organizations| ensures KnownStatus(s.organizations[i].lifecycle.status) {
      assert s.organizations[i] in s.organizations;
    }
    SnapshotRoundTrip(s, reader);
    SortedStays(s.organizations);
  }

  /**
   The restore keeps lifecycle truth: it is certified exactly when the backup knows every
   organization that existed at capture; then each of them is exactly as it was captured,
   and every other one is archived and deleted, so that none comes back to life.
   */
  lemma RestoreKeepsLifecycle(s: Snapshot, current: Table, now: Instant, backup: Table, reader: Reader)
    requires IsCapture(s, current, now)
    ensures FromJson(ToJson(s), reader).Ok?
    ensures var (after, report) := Reconcile(FromJson(ToJson(s), reader).value, backup);
            && (report.ok <==> forall id :: id in current ==> id in backup)
            && (!report.ok ==> after == backup)
            && (report.ok ==>
                  && (forall id :: id in after <==> id in backup)
                  && (forall id :: id in current ==> after[id] == current[id])
                  && (forall id :: id in backup && id !in current ==> after[id] == Lifecycle(ARCHIVED, Some(now))))
  {
    CaptureSurvivesJson(s, current, now, reader);
    CapturedAuthority(s.organizations, current);
  }

  /** Reconciling the very database that was captured changes and counts nothing. */
  lemma SameDatabaseUnchanged(s: Snapshot, current: Table, now: Instant)
    requires IsCapture(s, current, now)
    ensures Reconcile(s, current) == (current, Report(true, |current|, 0, 0))
  {
    CapturedAuthority(s.organizations, current);
    assert Extra(current, current.Keys) == {};
    assert Differing(current, current, current.Keys) == {};
    assert ReconciledRows(current, now, current, current.Keys) == current;
  }

  lemma InsertOneMore(states: seq<OrganizationState>, current: Table, id: OrganizationId, lifecycle: Lifecycle)
    requires ListsTable(states, current) && id !in current
    ensures ListsTable(InsertById(OrganizationState(id, lifecycle), states), current[id := lifecycle])
  {
    var state := OrganizationState(id, lifecycle);
    var inserted := InsertById(state, states);
    InsertedAscending(state, states);
    forall x ensures x in inserted <==> x == state || x in states {
      InsertedHas(state, states, x);
    }
    InsertedUnique(state, states);
  }

  lemma InsertedHas(state: OrganizationState, states: seq<OrganizationState>, x: OrganizationState)
    ensures x in InsertById(state, states) <==> x == state || x in states
  {
    InsertedMembers(state, states);
    assert x in InsertById(state, states) <==> x in multiset(InsertById(state, states));
    assert x in states <==> x in multiset(states);
  }

  lemma {:induction false} InsertedUnique(state: OrganizationState, states: seq<OrganizationState>)
    requires IdsUnique(states) && forall i :: 0 <= i < |states| ==> states[i].id != state.id
    ensures IdsUnique(InsertById(state, states))
  {
    if !(states == [] || state.id <= states[0].id) {
      InsertedUnique(state, states[1..]);
      var rest := InsertById(state, states[1..]);
      forall i | 0 <= i < |rest| ensures rest[i].id != states[0].id {
        InsertedHas(state, states[1..], rest[i]);
      }
    }
  }

  /** Lists all rows in order of id; refused exactly when a row has an unknown status. */
  method Capture(current: Table, now: Instant) returns (r: Result<Snapshot, FormatError>)
    ensures r.Ok? <==> AllKnown(current)
    ensures r.Ok? ==> IsCapture(r.value, current, now)
  {
    var states: seq<OrganizationState> := [];
    var left := current.Keys;
    ghost var done: Table := map[];
    while left != {}
      invariant forall id :: id in current <==> id in left || id in done
      invariant forall id :: id in left ==> id !in done
      invariant forall id :: id in done ==> done[id] == current[id]
      invariant ListsTable(states, done)
      decreases |left|
    {
      var id :| id in left;
      InsertOneMore(states, done, id, current[id]);
      states := InsertById(OrganizationState(id, current[id]), states);
      done := done[id := current[id]];
      left := left - {id};
    }
    assert done == current;
    for i := 0 to |states|
      invariant forall k :: 0 <= k < i ==> KnownStatus(states[k].lifecycle.status)
    {
      if !KnownStatus(states[i].lifecycle.status) {
        assert states[i] in states;
        return Err(InvalidStatus);
      }
    }
    forall id | id in current ensures KnownStatus(current[id].status) {
      assert OrganizationState(id, current[id]) in states;
    }
    r := Ok(Snapshot(now, states, SNAPSHOT_VERSION));
  }
}
