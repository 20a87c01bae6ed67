/**
 The restore snapshot written as JSON and read back. The JSON is a tree; the strings in it are
 the texts of identifiers, instants and statuses.

 Its reader takes every text of the layout the writer uses; what it makes of another text that
 may still denote an identifier or an instant is left open, as a parameter.
 */
module RestoreSnapshot {
  import opened Wrappers
  import opened SnapshotText
  import opened RestoreGuard

  const SNAPSHOT_VERSION := 1

  /** What one value of the JSON may be, its lists and objects aside. */
  datatype Scalar = JNull | JNumber(n: int) | JString(text: string) | JOther

  type Fields = map<string, Scalar>

  datatype Item = Entry(fields: Fields) | NotAnObject

  datatype Items = Entries(items: seq<Item>) | NotAListValue

  /** The top level; `organizations` is apart because it alone holds more than a scalar. */
  datatype Payload = Object(fields: Fields, organizations: Items) | NotAnObjectPayload

  datatype FormatError =
    | UnsupportedVersion
    | MissingCapturedAt
    | InvalidDatetime
    | NoTimezone
    | NotAList
    | InvalidEntry
    | InvalidId
    | DuplicateId
    | InvalidStatus

  function Get(fields: Fields, key: string): Scalar {
    if key in fields then fields[key] else JNull
  }

  // ---- writing

  function FormatInstant(at: Option<Instant>): Scalar {
    if at.None? then JNull else JString(InstantText(at.value))
  }

  function FormatState(state: OrganizationState): Item {
    Entry(map[
      "organization_id" := JString(IdText(state.id)),
      "status" := JString(state.lifecycle.status),
      "deleted_at" := FormatInstant(state.lifecycle.deletedAt)])
  }

  function FormatStates(states: seq<OrganizationState>): (items: seq<Item>)
    ensures |items| == |states|
  {
    if states == [] then [] else FormatStates(states[..|states| - 1]) + [FormatState(states[|states| - 1])]
  }

  function ToJson(s: Snapshot): Payload {
    Object(map["version" := JNumber(s.version), "captured_at" := FormatInstant(Some(s.capturedAt))],
           Entries(FormatStates(s.organizations)))
  }

  // ---- reading

  /** What is made of texts of another layout than the writer's. */
  datatype Reader = Reader(
    otherInstant: string -> Result<Instant, FormatError>,
    otherId: string -> Option<OrganizationId>)

  function ParseInstant(value: Scalar, required: bool, reader: Reader): Result<Option<Instant>, FormatError> {
    match value
    case JNull => if required then Err(MissingCapturedAt) else Ok(None)
    case JString(text) =>
      var at := ReadInstant(text);
      if at.Some? then Ok(at)
      else
        (match reader.otherInstant(text)
         case Ok(other) => Ok(Some(other))
         case Err(error) => Err(error))
    case _ => Err(InvalidDatetime)
  }

  function ParseId(value: Scalar, reader: Reader): Option<OrganizationId> {
    if !value.JString? then None
    else
      var id := ReadId(value.text);
      if id.Some? then id else reader.otherId(value.text)
  }

  function ParseState(item: Item, seen: set<OrganizationId>, reader: Reader): Result<OrganizationState, FormatError> {
    if item.NotAnObject? then Err(InvalidEntry)
    else
      var id := ParseId(Get(item.fields, "organization_id"), reader);
      if id.None? then Err(InvalidId)
      else if id.value in seen then Err(DuplicateId)
      else
        var status := Get(item.fields, "status");
        if !(status.JString? && KnownStatus(status.text)) then Err(InvalidStatus)
        else
          var deletedAt := ParseInstant(Get(item.fields, "deleted_at"), false, reader);
          if deletedAt.Err? then Err(deletedAt.error)
          else Ok(OrganizationState(id.value, Lifecycle(status.text, deletedAt.value)))
  }

  function Ids(states: seq<OrganizationState>): set<OrganizationId> {
    if states == [] then {} else Ids(states[..|states| - 1]) + {states[|states| - 1].id}
  }

  /** Reads the entries one after the other; the first error ends it. */
  function ParseStates(items: seq<Item>, reader: Reader): Result<seq<OrganizationState>, FormatError> {
    if items == [] then Ok([])
    else
      var earlier := ParseStates(items[..|items| - 1], reader);
      if earlier.Err? then earlier
      else
        var state := ParseState(items[|items| - 1], Ids(earlier.value), reader);
        if state.Err? then Err(state.error) else Ok(earlier.value + [state.value])
  }

  function InsertById(state: OrganizationState, sorted: seq<OrganizationState>): seq<OrganizationState> {
    if sorted == [] || state.id <= sorted[0].id then [state] + sorted
    else [sorted[0]] + InsertById(state, sorted[1..])
  }

  function SortById(states: seq<OrganizationState>): seq<OrganizationState> {
    if states == [] then [] else InsertById(states[0], SortById(states[1..]))
  }

  function FromJson(payload: Payload, reader: Reader): Result<Snapshot, FormatError> {
    if payload.NotAnObjectPayload? || Get(payload.fields, "version") != JNumber(SNAPSHOT_VERSION) then
      Err(UnsupportedVersion)
    else
      var capturedAt := ParseInstant(Get(payload.fields, "captured_at"), true, reader);
      if capturedAt.Err? then Err(capturedAt.error)
      else if payload.organizations.NotAListValue? then Err(NotAList)
      else
        var states := ParseStates(payload.organizations.items, reader);
        if states.Err? then Err(states.error)
        else Ok(Snapshot(capturedAt.value.value, SortById(states.value), SNAPSHOT_VERSION))
  }

  // ---- sorting

  ghost predicate Ascending(states: seq<OrganizationState>) {
    forall i, j :: 0 <= i < j < |states| ==> states[i].id <= states[j].id
  }

  lemma {:induction false} InsertedMembers(state: OrganizationState, sorted: seq<OrganizationState>)
    ensures multiset(InsertById(state, sorted)) == multiset(sorted) + multiset{state}
  {
    if !(sorted == [] || state.id <= sorted[0].id) {
      InsertedMembers(state, sorted[1..]);
      assert sorted == [sorted[0]] + sorted[1..];
    }
  }

  lemma {:induction false} InsertedAscending(state: OrganizationState, sorted: seq<OrganizationState>)
    requires Ascending(sorted)
    ensures Ascending(InsertById(state, sorted))
    ensures InsertById(state, sorted)[0].id ==
            if sorted == [] || state.id <= sorted[0].id then state.id else sorted[0].id
  {
    if !(sorted == [] || state.id <= sorted[0].id) {
      InsertedAscending(state, sorted[1..]);
      var rest := InsertById(state, sorted[1..]);
      assert sorted[0].id <= rest[0].id;
      assert forall i :: 0 <= i < |rest| ==> rest[0].id <= rest[i].id;
    }
  }

  lemma {:induction false} SortedById(states: seq<OrganizationState>)
    ensures Ascending(SortById(states)) && multiset(SortById(states)) == multiset(states)
  {
    if states != [] {
      SortedById(states[1..]);
      InsertedMembers(states[0], SortById(states[1..]));
      InsertedAscending(states[0], SortById(states[1..]));
      assert states == [states[0]] + states[1..];
    }
  }

  /** Sorting leaves a sorted list as it is. */
  lemma {:induction false} SortedStays(states: seq<OrganizationState>)
    requires Ascending(states)
    ensures SortById(states) == states
  {
    if states != [] {
      SortedStays(states[1..]);
    }
  }

  // ---- round trip

  ghost predicate StatusesKnown(states: seq<OrganizationState>) {
    forall i :: 0 <= i < |states| ==> KnownStatus(states[i].lifecycle.status)
  }

  lemma FormattedInstant(at: Option<Instant>, required: bool, reader: Reader)
    requires required ==> at.Some?
    ensures ParseInstant(FormatInstant(at), required, reader) == Ok(at)
  {
    if at.Some? {
      InstantReadsBack(at.value);
    }
  }

  lemma StateRoundTrip(state: OrganizationState, seen: set<OrganizationId>, reader: Reader)
    ensures ParseState(FormatState(state), seen, reader)
         == if state.id in seen then Err(DuplicateId)
            else if !KnownStatus(state.lifecycle.status) then Err(InvalidStatus)
            else Ok(state)
  {
    var fields := FormatState(state).fields;
    assert "organization_id" != "status" && "organization_id" != "deleted_at" && "status" != "deleted_at";
    IdReadsBack(state.id);
    FormattedInstant(state.lifecycle.deletedAt, false, reader);
    assert Get(fields, "organization_id") == JString(IdText(state.id));
    assert Get(fields, "status") == JString(state.lifecycle.status);
    assert Get(fields, "deleted_at") == FormatInstant(state.lifecycle.deletedAt);
  }

  lemma {:induction false} IdsHold(states: seq<OrganizationState>, id: OrganizationId)
    ensures id in Ids(states) <==> exists i :: 0 <= i < |states| && states[i].id == id
  {
    if states != [] {
      var n := |states| - 1;
      IdsHold(states[..n], id);
      if i :| 0 <= i < n && states[i].id == id {
        assert states[..n][i].id == id;
      }
    }
  }

  lemma UniqueSplits(states: seq<OrganizationState>)
    requires states != []
    ensures var n := |states| - 1;
            IdsUnique(states) <==> IdsUnique(states[..n]) && states[n].id !in Ids(states[..n])
  {
    var n := |states| - 1;
    var earlier := states[..n];
    IdsHold(earlier, states[n].id);
    assert forall i :: 0 <= i < n ==> earlier[i] == states[i];
    if i :| 0 <= i < n && earlier[i].id == states[n].id {
      assert !IdsUnique(states);
    }
    if IdsUnique(states) {
      assert IdsUnique(earlier);
    }
  }

  lemma StatusesSplit(states: seq<OrganizationState>)
    requires states != []
    ensures var n := |states| - 1;
            StatusesKnown(states) <==> StatusesKnown(states[..n]) && KnownStatus(states[n].lifecycle.status)
  {
    var n := |states| - 1;
    if StatusesKnown(states) {
      assert forall i :: 0 <= i < n ==> states[..n][i] == states[i];
    }
    if StatusesKnown(states[..n]) {
      assert forall i :: 0 <= i < n ==> states[i] == states[..n][i];
    }
  }

  lemma OneMoreState(earlier: seq<OrganizationState>, last: OrganizationState, reader: Reader)
    requires ParseStates(FormatStates(earlier), reader) == Ok(earlier)
    ensures var read := ParseStates(FormatStates(earlier + [last]), reader);
            && (read.Ok? <==> last.id !in Ids(earlier) && KnownStatus(last.lifecycle.status))
            && (read.Ok? ==> read.value == earlier + [last])
  {
    var states := earlier + [last];
    assert states[..|states| - 1] == earlier;
    var items := FormatStates(states);
    assert items[..|items| - 1] == FormatStates(earlier);
    StateRoundTrip(last, Ids(earlier), reader);
  }

  lemma {:induction false} StatesRoundTrip(states: seq<OrganizationState>, reader: Reader)
    ensures ParseStates(FormatStates(states), reader).Ok? <==> IdsUnique(states) && StatusesKnown(states)
    ensures ParseStates(FormatStates(states), reader).Ok? ==> ParseStates(FormatStates(states), reader).value == states
  {
    if states != [] {
      var n := |states| - 1;
      StatesRoundTrip(states[..n], reader);
      UniqueSplits(states);
      StatusesSplit(states);
      if ParseStates(FormatStates(states[..n]), reader).Ok? {
        OneMoreState(states[..n], states[n], reader);
        assert states[..n] + [states[n]] == states;
      } else {
        assert FormatStates(states)[..n] == FormatStates(states[..n]);
      }
    }
  }

  lemma PayloadFields(s: Snapshot)
    ensures Get(ToJson(s).fields, "version") == JNumber(s.version)
    ensures Get(ToJson(s).fields, "captured_at") == FormatInstant(Some(s.capturedAt))
  {
    assert "version" != "captured_at";
  }

  ghost predicate Readable(s: Snapshot) {
    s.version == SNAPSHOT_VERSION && IdsUnique(s.organizations) && StatusesKnown(s.organizations)
  }

  /**
   A snapshot reads back from its own JSON exactly when it has this version, known statuses
   and no organization twice; what comes back differs only in being sorted.
   */
  lemma SnapshotRoundTrip(s: Snapshot, reader: Reader)
    ensures FromJson(ToJson(s), reader).Ok? <==> Readable(s)
    ensures Readable(s) ==> FromJson(ToJson(s), reader).value == s.(organizations := SortById(s.organizations))
  {
    PayloadFields(s);
    FormattedInstant(Some(s.capturedAt), true, reader);
    StatesRoundTrip(s.organizations, reader);
  }

  /** The snapshot that comes back has the same entries in order of id, and is the one written if that was in order. */
  lemma SameUpToOrder(s: Snapshot, reader: Reader)
    requires FromJson(ToJson(s), reader).Ok?
    ensures var back := FromJson(ToJson(s), reader).value;
            && back.capturedAt == s.capturedAt && back.version == s.version
            && multiset(back.organizations) == multiset(s.organizations) && Ascending(back.organizations)
            && (Ascending(s.organizations) ==> back == s)
  {
    SnapshotRoundTrip(s, reader);
    SortedById(s.organizations);
    if Ascending(s.organizations) {
      SortedStays(s.organizations);
    }
  }

  lemma SortedHasSame(states: seq<OrganizationState>, state: OrganizationState)
    ensures state in states <==> state in SortById(states)
  {
    SortedById(states);
    assert state in states <==> state in multiset(states);
    assert state in SortById(states) <==> state in multiset(SortById(states));
  }

  /** Reconciling with the snapshot that came back reconciles as with the one written. */
  lemma RestoredSnapshotActsAlike(s: Snapshot, restored: Table, reader: Reader)
    requires FromJson(ToJson(s), reader).Ok?
    ensures Reconcile(FromJson(ToJson(s), reader).value, restored) == Reconcile(s, restored)
  {
    SnapshotRoundTrip(s, reader);
    var sorted := SortById(s.organizations);
    forall state ensures state in s.organizations <==> state in sorted {
      SortedHasSame(s.organizations, state);
    }
    SameAuthority(s.organizations, sorted);
    SameAuthoritySameResult(s, s.(organizations := sorted), restored);
  }

  lemma SameAuthoritySameResult(s: Snapshot, t: Snapshot, restored: Table)
    requires Authoritative(s.organizations) == Authoritative(t.organizations) && s.capturedAt == t.capturedAt
    ensures Reconcile(s, restored) == Reconcile(t, restored)
  {
  }

  // ---- every snapshot that is read

  lemma ParsedState(item: Item, seen: set<OrganizationId>, reader: Reader)
    requires ParseState(item, seen, reader).Ok?
    ensures var state := ParseState(item, seen, reader).value;
            state.id !in seen && KnownStatus(state.lifecycle.status)
  {
  }

  lemma {:induction false} ParsedStates(items: seq<Item>, reader: Reader)
    requires ParseStates(items, reader).Ok?
    ensures var states := ParseStates(items, reader).value;
            |states| == |items| && IdsUnique(states) && StatusesKnown(states)
  {
    if items != [] {
      var n := |items| - 1;
      ParsedStates(items[..n], reader);
      var states := ParseStates(items, reader).value;
      ParsedState(items[n], Ids(ParseStates(items[..n], reader).value), reader);
      assert states[..n] == ParseStates(items[..n], reader).value;
      UniqueSplits(states);
      StatusesSplit(states);
    }
  }

  lemma MembersUnique(a: seq<OrganizationState>, b: seq<OrganizationState>)
    requires IdsUnique(a) && multiset(a) == multiset(b)
    ensures IdsUnique(b)
  {
    forall i, j | 0 <= i < j < |b| ensures b[i].id != b[j].id {
      if b[i].id == b[j].id {
        MemberOf(b, i);
        MemberOf(b, j);
        var k :| 0 <= k < |a| && a[k] == b[i];
        var l :| 0 <= l < |a| && a[l] == b[j];
        assert k == l;
        Twice(b, i, j);
        Once(a, k);
        assert false;
      }
    }
  }

  lemma MemberOf(b: seq<OrganizationState>, i: nat)
    requires i < |b|
    ensures b[i] in multiset(b)
  {
  }

  lemma Twice(b: seq<OrganizationState>, i: nat, j: nat)
    requires i < j < |b| && b[i] == b[j]
    ensures multiset(b)[b[i]] >= 2
  {
    assert b == b[..j] + b[j..];
    assert b[i] in b[..j] && b[j] in b[j..];
  }

  lemma Once(a: seq<OrganizationState>, k: nat)
    requires IdsUnique(a) && k < |a|
    ensures multiset(a)[a[k]] == 1
  {
    assert a == a[..k] + [a[k]] + a[k + 1..];
    assert a[k] !in a[..k] && a[k] !in a[k + 1..];
    assert a[k] !in multiset(a[..k]) && a[k] !in multiset(a[k + 1..]);
  }

  /** Whatever is read, an accepted snapshot is sorted, has unique ids and known statuses, and writes back to itself. */
  lemma AcceptedIsReadable(payload: Payload, reader: Reader)
    requires FromJson(payload, reader).Ok?
    ensures var s := FromJson(payload, reader).value;
            && Readable(s) && Ascending(s.organizations)
            && |s.organizations| == |payload.organizations.items|
            && FromJson(ToJson(s), reader) == Ok(s)
  {
    var states := ParseStates(payload.organizations.items, reader).value;
    var s := FromJson(payload, reader).value;
    ParsedStates(payload.organizations.items, reader);
    SortedById(states);
    MembersUnique(states, s.organizations);
    assert |states| == |multiset(states)| == |multiset(s.organizations)|;
    forall i | 0 <= i < |s.organizations| ensures KnownStatus(s.organizations[i].lifecycle.status) {
      MemberOf(s.organizations, i);
      var k :| 0 <= k < |states| && states[k] == s.organizations[i];
    }
    SnapshotRoundTrip(s, reader);
    SortedStays(s.organizations);
  }

  // ---- the reader

  lemma {:induction false} ErrorStops(items: seq<Item>, n: nat, reader: Reader)
    requires n <= |items| && ParseStates(items[..n], reader).Err?
    ensures ParseStates(items, reader) == ParseStates(items[..n], reader)
  {
    if n < |items| {
      var last := |items| - 1;
      assert items[..last][..n] == items[..n];
      ErrorStops(items[..last], n, reader);
    } else {
      assert items[..n] == items;
    }
  }

  /** Reads the entries in a loop that remembers the ids it has seen. */
  method ReadStates(items: seq<Item>, reader: Reader) returns (r: Result<seq<OrganizationState>, FormatError>)
    ensures r == ParseStates(items, reader)
  {
    var states: seq<OrganizationState> := [];
    var seen: set<OrganizationId> := {};
    for i := 0 to |items|
      invariant ParseStates(items[..i], reader) == Ok(states)
      invariant seen == Ids(states)
    {
      assert items[..i + 1][..i] == items[..i];
      var state := ParseState(items[i], seen, reader);
      if state.Err? {
        assert ParseStates(items[..i + 1], reader) == Err(state.error);
        ErrorStops(items, i + 1, reader);
        return Err(state.error);
      }
      seen := seen + {state.value.id};
      assert (states + [state.value])[..|states|] == states;
      states := states + [state.value];
    }
    assert items[..|items|] == items;
    r := Ok(states);
  }
}
