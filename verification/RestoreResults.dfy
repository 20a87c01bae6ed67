/** Which snapshots are read, entry by entry, and what becomes of a status. */
module RestoreResults {
  import opened Wrappers
  import opened SnapshotText
  import opened RestoreGuard
  import opened RestoreSnapshot

  predicate IsStatus(text: string) {
    text in ["pending_activation", "active", "suspended", "archived"]
  }

  predicate IsInstant(value: Scalar, reader: Reader) {
    value.JString? && (ReadInstant(value.text).Some? || reader.otherInstant(value.text).Ok?)
  }

  function InstantOf(value: Scalar, reader: Reader): Instant
    requires IsInstant(value, reader)
  {
    if ReadInstant(value.text).Some? then ReadInstant(value.text).value else reader.otherInstant(value.text).value
  }

  /** An object with a readable identifier, a known status and, unless it is missing or null, an instant. */
  predicate IsGood(item: Item, reader: Reader) {
    && item.Entry?
    && ParseId(Get(item.fields, "organization_id"), reader).Some?
    && Get(item.fields, "status").JString? && IsStatus(Get(item.fields, "status").text)
    && (Get(item.fields, "deleted_at") == JNull || IsInstant(Get(item.fields, "deleted_at"), reader))
  }

  function StateOf(item: Item, reader: Reader): OrganizationState
    requires IsGood(item, reader)
  {
    var deleted := Get(item.fields, "deleted_at");
    OrganizationState(
      ParseId(Get(item.fields, "organization_id"), reader).value,
      Lifecycle(Get(item.fields, "status").text, if deleted == JNull then None else Some(InstantOf(deleted, reader))))
  }

  lemma OneState(item: Item, seen: set<OrganizationId>, reader: Reader)
    ensures var r := ParseState(item, seen, reader);
            && (r.Ok? <==> IsGood(item, reader) && StateOf(item, reader).id !in seen)
            && (r.Ok? ==> r.value == StateOf(item, reader))
  {
  }

  ghost predicate AllGood(items: seq<Item>, reader: Reader) {
    && (forall i :: 0 <= i < |items| ==> IsGood(items[i], reader))
    && (forall i, j :: 0 <= i < j < |items| ==> StateOf(items[i], reader).id != StateOf(items[j], reader).id)
  }

  /** The entry names an organization that none of the others names. */
  ghost predicate IsNew(item: Item, items: seq<Item>, reader: Reader)
    requires IsGood(item, reader)
  {
    forall i :: 0 <= i < |items| && IsGood(items[i], reader) ==>
      StateOf(items[i], reader).id != StateOf(item, reader).id
  }

  lemma GoodSplits(items: seq<Item>, last: Item, reader: Reader)
    ensures AllGood(items + [last], reader) <==>
              AllGood(items, reader) && IsGood(last, reader) && IsNew(last, items, reader)
  {
    var all := items + [last];
    assert all[|items|] == last && forall i :: 0 <= i < |items| ==> all[i] == items[i];
  }

  /** The states are those of the entries, one by one. */
  ghost predicate AreStatesOf(states: seq<OrganizationState>, items: seq<Item>, reader: Reader) {
    |states| == |items| &&
    forall i :: 0 <= i < |items| ==> IsGood(items[i], reader) && states[i] == StateOf(items[i], reader)
  }

  lemma NewMeansUnseen(states: seq<OrganizationState>, items: seq<Item>, last: Item, reader: Reader)
    requires AreStatesOf(states, items, reader) && IsGood(last, reader)
    ensures IsNew(last, items, reader) <==> StateOf(last, reader).id !in Ids(states)
  {
    IdsHold(states, StateOf(last, reader).id);
    if i :| 0 <= i < |states| && states[i].id == StateOf(last, reader).id {
      assert IsGood(items[i], reader) && states[i] == StateOf(items[i], reader);
    }
  }

  lemma {:induction false} AllStates(items: seq<Item>, reader: Reader)
    ensures ParseStates(items, reader).Ok? <==> AllGood(items, reader)
    ensures ParseStates(items, reader).Ok? ==> AreStatesOf(ParseStates(items, reader).value, items, reader)
  {
    if items != [] {
      var n := |items| - 1;
      AllStates(items[..n], reader);
      assert items == items[..n] + [items[n]];
      GoodSplits(items[..n], items[n], reader);
      if ParseStates(items[..n], reader).Ok? {
        var states := ParseStates(items[..n], reader).value;
        OneState(items[n], Ids(states), reader);
        if IsGood(items[n], reader) {
          NewMeansUnseen(states, items[..n], items[n], reader);
        }
      }
    }
  }

  /**
   A payload is read exactly if it is an object of version 1 with a capture instant and a list
   of good entries that name no organization twice; the snapshot then has just those entries.
   */
  lemma AcceptedExactlyWhen(payload: Payload, reader: Reader)
    ensures FromJson(payload, reader).Ok? <==>
              && payload.Object? && Get(payload.fields, "version") == JNumber(1)
              && IsInstant(Get(payload.fields, "captured_at"), reader)
              && payload.organizations.Entries? && AllGood(payload.organizations.items, reader)
    ensures FromJson(payload, reader).Ok? ==>
              var s, items := FromJson(payload, reader).value, payload.organizations.items;
              && s.version == 1 && s.capturedAt == InstantOf(Get(payload.fields, "captured_at"), reader)
              && |s.organizations| == |items|
              && forall i :: 0 <= i < |items| ==> StateOf(items[i], reader) in s.organizations
  {
    if payload.Object? && payload.organizations.Entries? {
      var items := payload.organizations.items;
      AllStates(items, reader);
      if FromJson(payload, reader).Ok? {
        var states := ParseStates(items, reader).value;
        AcceptedIsReadable(payload, reader);
        forall i | 0 <= i < |items| ensures StateOf(items[i], reader) in SortById(states) {
          SortedHasSame(states, states[i]);
        }
      }
    }
  }

  /** The fields a snapshot is written with, and those of each entry. */
  lemma WrittenFields(s: Snapshot)
    ensures Get(ToJson(s).fields, "version") == JNumber(s.version)
    ensures Get(ToJson(s).fields, "captured_at") == JString(InstantText(s.capturedAt))
  {
    PayloadFields(s);
  }

  lemma WrittenEntry(state: OrganizationState)
    ensures var fields := FormatState(state).fields;
            && Get(fields, "organization_id") == JString(IdText(state.id))
            && Get(fields, "status") == JString(state.lifecycle.status)
            && Get(fields, "deleted_at") == FormatInstant(state.lifecycle.deletedAt)
  {
    assert "organization_id" != "status" && "organization_id" != "deleted_at" && "status" != "deleted_at";
  }

  /** After a reconciliation no organization the snapshot does not have is anything but archived and deleted. */
  lemma ExtraIsArchived(s: Snapshot, restored: Table, id: OrganizationId)
    requires Reconcile(s, restored).1.ok && id in restored
    requires forall state :: state in s.organizations ==> state.id != id
    ensures Reconcile(s, restored).0[id].status == "archived"
    ensures Reconcile(s, restored).0[id].deletedAt == Some(s.capturedAt)
  {
    if id in Authoritative(s.organizations) {
      AuthoritySound(s.organizations, id);
    }
  }
}
