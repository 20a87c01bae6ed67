/** A notification sent again under its idempotency key. */
module NotificationReplay {
  import opened Wrappers
  import opened Notifications

  /** What no step changes in a notification. */
  predicate SameRequest(a: Notification, b: Notification) {
    && a.organization == b.organization && a.channel == b.channel && a.content == b.content
    && a.idempotencyKey == b.idempotencyKey
  }

  ghost predicate RequestsKept(table: seq<Notification>, table': seq<Notification>) {
    |table| <= |table'| && forall i :: 0 <= i < |table| ==> SameRequest(table[i], table'[i])
  }

  lemma DispatchKeepsRequests(s: State, id: Id, setting: bool, hasAdapter: bool, delivery: Delivery, now: Time)
    requires Aligned(s)
    ensures RequestsKept(s.table, Dispatch(s, id, setting, hasAdapter, delivery, now).0.table)
  {
    if id < |s.table| {
      var row := Dispatch(s, id, setting, hasAdapter, delivery, now).0.table[id];
      assert SameRequest(s.table[id], row);
    }
  }

  lemma NextKeepsRequests(s: State, e: Event)
    requires Aligned(s)
    ensures RequestsKept(s.table, Next(s, e).table)
  {
    match e
    case SendEvent(_, _, _) =>
    case DispatchEvent(id, setting, hasAdapter, delivery, _, now) =>
      DispatchKeepsRequests(s, id, setting, hasAdapter, delivery, now);
  }

  lemma {:induction false} RunKeepsRequests(s: State, events: seq<Event>)
    requires Aligned(s)
    ensures RequestsKept(s.table, Run(s, events).table)
    decreases |events|
  {
    if events != [] {
      var s1 := Next(s, events[0]);
      NextKeepsRequests(s, events[0]);
      RunKeepsRequests(s1, events[1..]);
      forall i | 0 <= i < |s.table| ensures SameRequest(s.table[i], Run(s, events).table[i]) {
        assert SameRequest(s.table[i], s1.table[i]);
      }
    }
  }

  lemma FirstMatchStays(table: seq<Notification>, table': seq<Notification>, command: SendCommand)
    requires RequestsKept(table, table') && FindByIdempotency(table, command).Some?
    ensures FindByIdempotency(table', command) == FindByIdempotency(table, command)
  {
    var id := FindByIdempotency(table, command).value;
    assert SameRequest(table[id], table'[id]);
    assert forall i :: 0 <= i < id ==> SameRequest(table[i], table'[i]) && !command.Matches(table'[i]);
  }

  lemma SentIsFound(s: State, command: SendCommand, setting: bool, enqueue: EnqueueOutcome)
    requires Aligned(s)
    requires command.idempotencyKey.Some? && Send(s, command, setting, enqueue).1.Ok?
    ensures var (s', r) := Send(s, command, setting, enqueue);
            && FindByIdempotency(s'.table, command) == Some(r.value.id)
            && s'.table[r.value.id].channel == command.channel && s'.table[r.value.id].content == command.content
  {
    var (s', r) := Send(s, command, setting, enqueue);
    if !r.value.replay {
      assert command.Matches(s'.table[r.value.id]);
      assert forall i :: 0 <= i < |s.table| ==> s'.table[i] == s.table[i];
    }
  }

  /**
   Sending again under the same key, after any run of sends and dispatches, stores nothing,
   enqueues nothing and calls nothing: it names the first notification, or refuses if the
   channel or the content differs.
   */
  lemma SentOnce(
    s: State, first: SendCommand, setting: bool, enqueue: EnqueueOutcome, events: seq<Event>,
    again: SendCommand, laterSetting: bool, laterEnqueue: EnqueueOutcome)
    requires Aligned(s)
    requires first.idempotencyKey.Some? && Send(s, first, setting, enqueue).1.Ok?
    requires again.idempotencyKey == first.idempotencyKey && again.organization == first.organization
    requires again.channel.InApp? ==> again.organization.None?
    ensures var (s1, r) := Send(s, first, setting, enqueue);
            var later := Run(s1, events);
            Send(later, again, laterSetting, laterEnqueue) ==
            (later, if again.channel == first.channel && again.content == first.content
                    then Ok(SendResult(r.value.id, true)) else Err(IdempotencyConflict))
  {
    var (s1, r) := Send(s, first, setting, enqueue);
    SentIsFound(s, first, setting, enqueue);
    RunKeepsRequests(s1, events);
    var later := Run(s1, events);
    FirstMatchStays(s1.table, later.table, first);
    SameMatches(later.table, first, again);
    assert SameRequest(s1.table[r.value.id], later.table[r.value.id]);
  }

  lemma SameMatches(table: seq<Notification>, a: SendCommand, b: SendCommand)
    requires a.idempotencyKey == b.idempotencyKey && a.organization == b.organization
    ensures FindByIdempotency(table, a) == FindByIdempotency(table, b)
  {
    assert forall row: Notification :: a.Matches(row) == b.Matches(row);
  }
}
