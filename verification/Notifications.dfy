/**
 The notification lifecycle: sending, and dispatching as often as the worker tries.

 A dispatch runs in a transaction of its own. It is kept when that commits; an interruption or
 a failed commit takes its saves back, but not the adapter call it made. Besides the table the
 state records what each kept operation saved, in order, how each adapter call of a kept
 dispatch ended, and how those of dispatches taken back ended.
 */
module Notifications {
  import opened Wrappers

  type Id = nat
  type Time = int

  datatype Channel = Email | InApp {
    function Value(): string {
      match this
      case Email => "email"
      case InApp => "in_app"
    }
  }

  datatype Status = Pending | Queued | Sending | Sent | Failed | Suppressed {
    predicate IsTerminal() {
      Sent? || Failed? || Suppressed?
    }

    /** The transition table. */
    predicate CanTransitionTo(next: Status) {
      match this
      case Pending => next.Queued? || next.Suppressed?
      case Queued => next.Sending? || next.Failed? || next.Suppressed?
      case Sending => next.Sent? || next.Failed? || next.Suppressed?
      case Sent => false
      case Failed => false
      case Suppressed => false
    }
  }

  datatype FailureReason = FailureReason(message: string, code: string)

  /** What the sender fixes: recipient, subject, body and template, here as one value. */
  type Content = nat

  datatype Notification = Notification(
    organization: Option<nat>, channel: Channel, content: Content, status: Status,
    idempotencyKey: Option<string>, jobId: Option<nat>, failureReason: Option<FailureReason>,
    queuedAt: Option<Time>, sentAt: Option<Time>, failedAt: Option<Time>, suppressedAt: Option<Time>)

  /** How a call of adapter.send ended; an interruption is not an ordinary exception. */
  datatype CallOutcome = CallReturned | CallRefused(message: string) | CallRaised | CallInterrupted

  datatype State = State(
    table: seq<Notification>,
    saves: seq<seq<Status>>,
    calls: seq<seq<CallOutcome>>,
    lost: seq<seq<CallOutcome>>)

  predicate Aligned(s: State) {
    |s.table| == |s.saves| == |s.calls| == |s.lost|
  }

  /** What rendering and the adapter do for one dispatch. */
  datatype Delivery =
    | RenderRefused(message: string)
    | RenderRaised
    | RenderInterrupted
    | Called(outcome: CallOutcome)

  datatype DispatchError = NotFound | InvalidTransition | Interrupted | CommitFailed

  datatype DispatchResult = DispatchResult(status: Status, noop: bool)

  function Saved(s: State, id: Id, row: Notification): State
    requires id < |s.table| == |s.saves|
  {
    s.(table := s.table[id := row], saves := s.saves[id := s.saves[id] + [row.status]])
  }

  function Inserted(s: State, row: Notification): State {
    State(s.table + [row], s.saves + [[row.status]], s.calls + [[]], s.lost + [[]])
  }

  function RecordCall(s: State, id: Id, outcome: CallOutcome): State
    requires id < |s.calls|
  {
    s.(calls := s.calls[id := s.calls[id] + [outcome]])
  }

  // ---- send

  datatype SendCommand = SendCommand(
    organization: Option<nat>, channel: Channel, content: Content, idempotencyKey: Option<string>, now: Time)
  {
    predicate Matches(row: Notification) {
      idempotencyKey.Some? && row.idempotencyKey == idempotencyKey && row.organization == organization
    }
  }

  datatype SendError = InAppNeedsSystemScope | IdempotencyConflict

  datatype SendResult = SendResult(id: Id, replay: bool)

  /** How enqueueing the dispatch job ended; a raised message is one a reason accepts. */
  datatype EnqueueOutcome = Enqueued(jobId: nat) | EnqueueRaised(message: string)

  function NewNotification(command: SendCommand, status: Status, suppressedAt: Option<Time>): Notification {
    Notification(command.organization, command.channel, command.content, status, command.idempotencyKey,
                 None, None, None, None, None, suppressedAt)
  }

  /** The position of the first row with the command's idempotency key. */
  function FindByIdempotency(table: seq<Notification>, command: SendCommand): (found: Option<Id>)
    ensures found.Some? ==> found.value < |table| && command.Matches(table[found.value])
    ensures found.Some? ==> forall i :: 0 <= i < found.value ==> !command.Matches(table[i])
    ensures found.None? ==> forall i :: 0 <= i < |table| ==> !command.Matches(table[i])
  {
    if table == [] then None
    else
      var earlier := FindByIdempotency(table[..|table| - 1], command);
      if earlier.Some? then earlier
      else if command.Matches(table[|table| - 1]) then Some(|table| - 1)
      else None
  }

  function EmailEnabled(organization: Option<nat>, setting: bool): bool {
    organization.None? || setting
  }

  function Send(s: State, command: SendCommand, emailSetting: bool, enqueue: EnqueueOutcome)
    : (State, Result<SendResult, SendError>)
    requires Aligned(s)
  {
    if command.channel.InApp? && command.organization.Some? then (s, Err(InAppNeedsSystemScope))
    else
      var existing := FindByIdempotency(s.table, command);
      if existing.Some? then
        if s.table[existing.value].channel != command.channel || s.table[existing.value].content != command.content
        then (s, Err(IdempotencyConflict))
        else (s, Ok(SendResult(existing.value, true)))
      else
        var id := |s.table|;
        if command.channel.Email? && !EmailEnabled(command.organization, emailSetting) then
          (Inserted(s, NewNotification(command, Suppressed, Some(command.now))), Ok(SendResult(id, false)))
        else
          var pending := NewNotification(command, Pending, None);
          var inserted := Inserted(s, pending);
          var settled :=
            if command.channel.InApp? then pending.(status := Sent, sentAt := Some(command.now))
            else match enqueue
              case Enqueued(jobId) => pending.(status := Queued, jobId := Some(jobId), queuedAt := Some(command.now))
              case EnqueueRaised(message) =>
                pending.(status := Failed, failedAt := Some(command.now),
                         failureReason := Some(FailureReason(message, "enqueue_failed")));
          (Saved(inserted, id, settled), Ok(SendResult(id, false)))
  }

  // ---- dispatch

  function FailedRow(row: Notification, reason: FailureReason, now: Time): Notification {
    row.(status := Failed, failureReason := Some(reason), failedAt := Some(now))
  }

  function NoAdapter(channel: Channel): FailureReason {
    FailureReason("No adapter registered for channel " + channel.Value(), "unsupported_channel")
  }

  /** Where the delivery leaves a row that is being sent; None when it stays there. */
  function Delivered(row: Notification, delivery: Delivery, now: Time): Option<Notification> {
    match delivery
    case RenderRefused(message) => Some(FailedRow(row, FailureReason(message, "dispatch_failed"), now))
    case RenderRaised => Some(FailedRow(row, FailureReason("Notification dispatch failed", "dispatch_error"), now))
    case RenderInterrupted => None
    case Called(CallRefused(message)) => Some(FailedRow(row, FailureReason(message, "dispatch_failed"), now))
    case Called(CallRaised) =>
      Some(FailedRow(row, FailureReason("Notification dispatch failed", "dispatch_error"), now))
    case Called(CallInterrupted) => None
    case Called(CallReturned) => Some(row.(status := Sent, sentAt := Some(now)))
  }

  function Dispatch(s: State, id: Id, emailSetting: bool, hasAdapter: bool, delivery: Delivery, now: Time)
    : (r: (State, Result<DispatchResult, DispatchError>))
    requires Aligned(s)
    ensures Aligned(r.0) && |r.0.table| == |s.table|
  {
    if id >= |s.table| then (s, Err(NotFound))
    else
      var row := s.table[id];
      if row.status.IsTerminal() then (s, Ok(DispatchResult(row.status, true)))
      else if row.channel.Email? && !EmailEnabled(row.organization, emailSetting) then
        if !row.status.CanTransitionTo(Suppressed) then (s, Err(InvalidTransition))
        else
          (Saved(s, id, row.(status := Suppressed, suppressedAt := Some(now))), Ok(DispatchResult(Suppressed, false)))
      else if !row.status.CanTransitionTo(Sending) then (s, Err(InvalidTransition))
      else
        var sending := row.(status := Sending);
        var s1 := Saved(s, id, sending);
        if !hasAdapter then
          (Saved(s1, id, FailedRow(sending, NoAdapter(row.channel), now)), Ok(DispatchResult(Failed, false)))
        else
          var s2 := if delivery.Called? then RecordCall(s1, id, delivery.outcome) else s1;
          var delivered := Delivered(sending, delivery, now);
          if delivered.None? then (s2, Err(Interrupted))
          else (Saved(s2, id, delivered.value), Ok(DispatchResult(delivered.value.status, false)))
  }

  /** A transaction that ends without a commit: what was saved is gone, a call that was made is not. */
  function RolledBack(s: State, s': State, id: Id): State
    requires Aligned(s) && Aligned(s')
  {
    if id < |s.table| && id < |s'.table| && |s.calls[id]| <= |s'.calls[id]|
    then s.(lost := s.lost[id := s.lost[id] + s'.calls[id][|s.calls[id]|..]])
    else s
  }

  /** The job handler around one dispatch: what raises is rolled back, and so is a commit that fails. */
  function Handle(
    s: State, id: Id, emailSetting: bool, hasAdapter: bool, delivery: Delivery, committed: bool, now: Time)
    : (State, Result<DispatchResult, DispatchError>)
    requires Aligned(s)
  {
    var (s', r) := Dispatch(s, id, emailSetting, hasAdapter, delivery, now);
    if r.Err? then (RolledBack(s, s', id), r)
    else if committed then (s', r)
    else (RolledBack(s, s', id), Err(CommitFailed))
  }

  // ---- runs

  datatype Event =
    | SendEvent(command: SendCommand, emailSetting: bool, enqueue: EnqueueOutcome)
    | DispatchEvent(id: Id, setting: bool, hasAdapter: bool, delivery: Delivery, committed: bool, now: Time)

  function Next(s: State, e: Event): (s': State)
    requires Aligned(s)
    ensures Aligned(s')
  {
    match e
    case SendEvent(command, setting, enqueue) => Send(s, command, setting, enqueue).0
    case DispatchEvent(id, setting, hasAdapter, delivery, committed, now) =>
      Handle(s, id, setting, hasAdapter, delivery, committed, now).0
  }

  function Run(s: State, events: seq<Event>): (s': State)
    requires Aligned(s)
    ensures Aligned(s')
    decreases |events|
  {
    if events == [] then s else Run(Next(s, events[0]), events[1..])
  }

  // ---- what every notification satisfies

  /** The table, and the two edges the sender takes around it. */
  predicate AllowedEdge(channel: Channel, from: Status, to: Status) {
    from.CanTransitionTo(to) || (from.Pending? && to.Failed?) || (channel.InApp? && from.Pending? && to.Sent?)
  }

  ghost predicate AllowedHistory(channel: Channel, saves: seq<Status>) {
    && saves != [] && (saves[0].Pending? || saves[0].Suppressed?)
    && forall i, j :: 0 <= i && i + 1 == j < |saves| ==> AllowedEdge(channel, saves[i], saves[j])
  }

  /** Status, timestamps, reason and calls of one notification agree. */
  ghost predicate Settled(row: Notification, calls: seq<CallOutcome>) {
    // exactly the timestamp of a terminal status is set
    && (row.sentAt.Some? <==> row.status.Sent?)
    && (row.failedAt.Some? <==> row.status.Failed?)
    && (row.suppressedAt.Some? <==> row.status.Suppressed?)
    // a failure carries its reason, and only a failure does
    && (row.failureReason.Some? <==> row.status.Failed?)
    // no kept operation leaves a row in the middle of a dispatch; the adapter is called at most once
    && !row.status.Sending?
    && |calls| <= 1
    && (!row.status.IsTerminal() ==> calls == [])
    // delivered exactly when that call returned
    && (row.channel.Email? && row.status.Sent? ==> calls == [CallReturned])
    && (calls == [CallReturned] ==> row.status.Sent?)
    // an in-app notification is delivered by being stored
    && (row.channel.InApp? ==> row.status.Sent? && calls == [])
  }

  /** The history follows the edges and ends in the stored status. */
  ghost predicate Consistent(row: Notification, saves: seq<Status>, calls: seq<CallOutcome>) {
    AllowedHistory(row.channel, saves) && saves[|saves| - 1] == row.status && Settled(row, calls)
  }

  ghost predicate Inv(s: State) {
    && Aligned(s)
    && forall i :: 0 <= i < |s.table| ==> Consistent(s.table[i], s.saves[i], s.calls[i])
  }

  lemma HistoryGrows(channel: Channel, saves: seq<Status>, next: Status)
    requires AllowedHistory(channel, saves) && AllowedEdge(channel, saves[|saves| - 1], next)
    ensures AllowedHistory(channel, saves + [next])
  {
  }

  lemma OthersStayConsistent(s: State, s': State, id: Id)
    requires Inv(s) && id < |s.table| && Aligned(s') && |s'.table| == |s.table|
    requires forall i :: 0 <= i < |s.table| && i != id ==>
               s'.table[i] == s.table[i] && s'.saves[i] == s.saves[i] && s'.calls[i] == s.calls[i]
    requires Consistent(s'.table[id], s'.saves[id], s'.calls[id])
    ensures Inv(s')
  {
  }

  lemma SendKeepsInv(s: State, command: SendCommand, setting: bool, enqueue: EnqueueOutcome)
    requires Inv(s)
    ensures Inv(Send(s, command, setting, enqueue).0)
  {
  }

  /** A dispatch that suppresses the email. */
  lemma SuppressionKeepsInv(s: State, id: Id, hasAdapter: bool, delivery: Delivery, now: Time)
    requires Inv(s) && id < |s.table| && !s.table[id].status.IsTerminal()
    requires s.table[id].channel.Email? && !EmailEnabled(s.table[id].organization, false)
    ensures Inv(Dispatch(s, id, false, hasAdapter, delivery, now).0)
  {
    var row, saves := s.table[id], s.saves[id];
    assert Consistent(row, saves, s.calls[id]);
    if row.status.CanTransitionTo(Suppressed) {
      HistoryGrows(row.channel, saves, Suppressed);
      OthersStayConsistent(s, Dispatch(s, id, false, hasAdapter, delivery, now).0, id);
    }
  }

  /** The tables once a row has gone through the sending state to another one, with the calls made on the way. */
  ghost function Through(s: State, id: Id, next: Notification, calls: seq<CallOutcome>): State
    requires Aligned(s) && id < |s.table|
  {
    s.(table := s.table[id := next],
       saves := s.saves[id := s.saves[id] + [Sending] + [next.status]],
       calls := s.calls[id := s.calls[id] + calls])
  }

  lemma ThroughKeepsInv(s: State, id: Id, next: Notification, calls: seq<CallOutcome>)
    requires Inv(s) && id < |s.table| && s.table[id].status.CanTransitionTo(Sending)
    requires Sending.CanTransitionTo(next.status) && next.channel == s.table[id].channel && Settled(next, calls)
    ensures Inv(Through(s, id, next, calls))
  {
    var row, saves := s.table[id], s.saves[id];
    assert Consistent(row, saves, s.calls[id]);
    HistoryGrows(row.channel, saves, Sending);
    HistoryGrows(row.channel, saves + [Sending], next.status);
    OthersStayConsistent(s, Through(s, id, next, calls), id);
  }

  /** A dispatch that finds no adapter, or whose delivery ends in one of the terminal states. */
  lemma SendingKeepsInv(s: State, id: Id, setting: bool, hasAdapter: bool, delivery: Delivery, now: Time)
    requires Inv(s) && id < |s.table| && s.table[id].status.CanTransitionTo(Sending)
    requires s.table[id].channel.Email? ==> EmailEnabled(s.table[id].organization, setting)
    requires hasAdapter ==> Delivered(s.table[id], delivery, now).Some?
    ensures Inv(Dispatch(s, id, setting, hasAdapter, delivery, now).0)
  {
    var row := s.table[id];
    assert Consistent(row, s.saves[id], s.calls[id]);
    var sending := row.(status := Sending);
    var next := if hasAdapter then Delivered(sending, delivery, now).value
                else FailedRow(sending, NoAdapter(row.channel), now);
    var calls := if hasAdapter && delivery.Called? then [delivery.outcome] else [];
    ThroughKeepsInv(s, id, next, calls);
    assert Dispatch(s, id, setting, hasAdapter, delivery, now).0 == Through(s, id, next, calls);
  }

  /** A dispatch that is not interrupted keeps the invariant. */
  lemma DispatchKeepsInv(s: State, id: Id, setting: bool, hasAdapter: bool, delivery: Delivery, now: Time)
    requires Inv(s) && Dispatch(s, id, setting, hasAdapter, delivery, now).1 != Err(Interrupted)
    ensures Inv(Dispatch(s, id, setting, hasAdapter, delivery, now).0)
  {
    if id < |s.table| && !s.table[id].status.IsTerminal() {
      if s.table[id].channel.Email? && !EmailEnabled(s.table[id].organization, setting) {
        SuppressionKeepsInv(s, id, hasAdapter, delivery, now);
      } else if s.table[id].status.CanTransitionTo(Sending) {
        SendingKeepsInv(s, id, setting, hasAdapter, delivery, now);
      }
    }
  }

  lemma RollbackKeepsInv(s: State, s': State, id: Id)
    requires Inv(s) && Aligned(s')
    ensures Inv(RolledBack(s, s', id))
  {
  }

  lemma NextKeepsInv(s: State, e: Event)
    requires Inv(s)
    ensures Inv(Next(s, e))
  {
    match e
    case SendEvent(command, setting, enqueue) => SendKeepsInv(s, command, setting, enqueue);
    case DispatchEvent(id, setting, hasAdapter, delivery, committed, now) =>
      if committed && Dispatch(s, id, setting, hasAdapter, delivery, now).1.Ok? {
        DispatchKeepsInv(s, id, setting, hasAdapter, delivery, now);
      } else {
        RollbackKeepsInv(s, Dispatch(s, id, setting, hasAdapter, delivery, now).0, id);
      }
  }

  /**
   In every reachable state each notification was saved along allowed edges only, the kept
   dispatches called its adapter at most once, it is sent exactly when that call returned,
   exactly the timestamp of its terminal status is set, and it carries a reason exactly when
   it failed.
   */
  lemma {:induction false} RunKeepsInv(s: State, events: seq<Event>)
    requires Inv(s)
    ensures Inv(Run(s, events))
    decreases |events|
  {
    if events != [] {
      NextKeepsInv(s, events[0]);
      RunKeepsInv(Next(s, events[0]), events[1..]);
    }
  }

  /** What no step ever takes back: the calls made, the kept saves, and a terminal row. */
  ghost predicate Extends(s: State, s': State) {
    && |s.table| <= |s'.table| && Aligned(s) && Aligned(s')
    && forall i :: 0 <= i < |s.table| ==>
         && s.saves[i] <= s'.saves[i] && s.calls[i] <= s'.calls[i] && s.lost[i] <= s'.lost[i]
         && (s.table[i].status.IsTerminal() ==>
               s'.table[i] == s.table[i] && s'.calls[i] == s.calls[i] && s'.lost[i] == s.lost[i])
  }

  lemma DispatchExtends(s: State, id: Id, setting: bool, hasAdapter: bool, delivery: Delivery, now: Time)
    requires Inv(s)
    ensures Extends(s, Dispatch(s, id, setting, hasAdapter, delivery, now).0)
  {
    var s' := Dispatch(s, id, setting, hasAdapter, delivery, now).0;
    if s' != s {
      assert s.saves[id] <= s'.saves[id];
      assert s.calls[id] <= s'.calls[id];
    }
  }

  lemma RollbackExtends(s: State, id: Id, setting: bool, hasAdapter: bool, delivery: Delivery, now: Time)
    requires Inv(s)
    ensures var s' := Dispatch(s, id, setting, hasAdapter, delivery, now).0;
            Extends(s, RolledBack(s, s', id))
  {
  }

  lemma NextExtends(s: State, e: Event)
    requires Inv(s)
    ensures Extends(s, Next(s, e))
  {
    match e
    case SendEvent(command, setting, enqueue) =>
      assert forall i :: 0 <= i < |s.table| ==>
               && Next(s, e).saves[i] == s.saves[i] && Next(s, e).calls[i] == s.calls[i]
               && Next(s, e).lost[i] == s.lost[i];
    case DispatchEvent(id, setting, hasAdapter, delivery, committed, now) =>
      DispatchExtends(s, id, setting, hasAdapter, delivery, now);
      RollbackExtends(s, id, setting, hasAdapter, delivery, now);
  }

  /** A terminal notification stays as it is, and no later dispatch calls its adapter again. */
  lemma {:induction false} RunExtends(s: State, events: seq<Event>)
    requires Inv(s)
    ensures Extends(s, Run(s, events))
    decreases |events|
  {
    if events != [] {
      NextExtends(s, events[0]);
      NextKeepsInv(s, events[0]);
      RunExtends(Next(s, events[0]), events[1..]);
    }
  }

  lemma EmailSentExactlyWhenReturned(s: State, id: Id)
    requires Inv(s) && id < |s.table|
    ensures |s.calls[id]| <= 1
    ensures s.table[id].channel.Email? ==> (s.table[id].status.Sent? <==> s.calls[id] == [CallReturned])
  {
    assert Consistent(s.table[id], s.saves[id], s.calls[id]);
  }

  /** In every state reached from an empty table the committed dispatches called an adapter at most once. */
  lemma EveryReachableState(events: seq<Event>, id: Id)
    requires id < |Run(State([], [], [], []), events).table|
    ensures var s := Run(State([], [], [], []), events);
            && Inv(s) && |s.calls[id]| <= 1
            && (s.table[id].channel.Email? ==> (s.table[id].status.Sent? <==> s.calls[id] == [CallReturned]))
  {
    RunKeepsInv(State([], [], [], []), events);
    EmailSentExactlyWhenReturned(Run(State([], [], [], []), events), id);
  }

  // ---- how often an adapter is called

  /** The step is a dispatch of this notification that is interrupted or whose commit fails. */
  predicate TakenBack(s: State, e: Event, id: Id)
    requires Aligned(s)
  {
    && e.DispatchEvent? && e.id == id
    && var r := Handle(s, id, e.setting, e.hasAdapter, e.delivery, e.committed, e.now).1;
       r == Err(Interrupted) || r == Err(CommitFailed)
  }

  function CountTakenBack(s: State, events: seq<Event>, id: Id): nat
    requires Aligned(s)
    decreases |events|
  {
    if events == [] then 0
    else (if TakenBack(s, events[0], id) then 1 else 0) + CountTakenBack(Next(s, events[0]), events[1..], id)
  }

  lemma StepLosesOne(s: State, e: Event, id: Id)
    requires Inv(s) && id < |s.table|
    ensures |s.table| <= |Next(s, e).table|
    ensures |Next(s, e).lost[id]| <= |s.lost[id]| + if TakenBack(s, e, id) then 1 else 0
  {
  }

  /** A dispatch taken back loses at most one call; only those of this notification count. */
  lemma {:induction false} LostCalls(s: State, events: seq<Event>, id: Id)
    requires Inv(s) && id < |s.table|
    ensures Inv(Run(s, events)) && id < |Run(s, events).table|
    ensures |Run(s, events).lost[id]| <= |s.lost[id]| + CountTakenBack(s, events, id)
    decreases |events|
  {
    if events != [] {
      StepLosesOne(s, events[0], id);
      NextKeepsInv(s, events[0]);
      LostCalls(Next(s, events[0]), events[1..], id);
    }
  }

  function CallsMade(s: State, id: Id): nat
    requires Aligned(s) && id < |s.table|
  {
    |s.calls[id]| + |s.lost[id]|
  }

  /**
   From sending on, whatever runs, the adapter is called at most once more often than
   dispatches of the notification were taken back: at most once if none was.
   */
  lemma CallsAreBounded(s: State, command: SendCommand, setting: bool, enqueue: EnqueueOutcome, events: seq<Event>)
    requires Inv(s) && Send(s, command, setting, enqueue).1.Ok? && !Send(s, command, setting, enqueue).1.value.replay
    ensures var (sent, r) := Send(s, command, setting, enqueue);
            var s' := Run(sent, events);
            && r.value.id < |s'.table|
            && CallsMade(s', r.value.id) <= 1 + CountTakenBack(sent, events, r.value.id)
  {
    var (sent, r) := Send(s, command, setting, enqueue);
    SendKeepsInv(s, command, setting, enqueue);
    LostCalls(sent, events, r.value.id);
    var s' := Run(sent, events);
    assert Consistent(s'.table[r.value.id], s'.saves[r.value.id], s'.calls[r.value.id]);
  }

  /** The bound is reached: a queued email whose dispatches keep losing their commit is delivered every time. */
  lemma {:induction false} DeliveredAgainAndAgain(s: State, id: Id, times: nat, now: Time) returns (events: seq<Event>)
    requires Aligned(s) && id < |s.table|
    requires s.table[id].status.Queued? && s.table[id].channel.Email? && s.table[id].organization.None?
    ensures CountTakenBack(s, events, id) == times
    ensures var s' := Run(s, events);
            && |s'.table| == |s.table| && s'.table[id].status.Sent?
            && CallsMade(s', id) == CallsMade(s, id) + times + 1
    decreases times
  {
    var e := DispatchEvent(id, true, true, Called(CallReturned), times == 0, now);
    if times == 0 {
      events := [e];
      assert Run(s, events) == Run(Next(s, e), []);
    } else {
      var rest := DeliveredAgainAndAgain(Next(s, e), id, times - 1, now);
      events := [e] + rest;
      assert events[1..] == rest;
    }
  }
}
