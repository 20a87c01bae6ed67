/** The send and dispatch use cases as they save each status in place. */
module NotificationService {
  import opened Wrappers
  import opened Notifications

  class Service {
    var table: seq<Notification>
    var saves: seq<seq<Status>>
    var calls: seq<seq<CallOutcome>>
    var lost: seq<seq<CallOutcome>>

    function Snapshot(): State
      reads this
    {
      State(table, saves, calls, lost)
    }

    constructor ()
      ensures Snapshot() == State([], [], [], [])
    {
      table, saves, calls, lost := [], [], [], [];
    }

    method Insert(row: Notification) returns (id: Id)
      requires Aligned(Snapshot())
      modifies this
      ensures Aligned(Snapshot()) && id == old(|table|) && Snapshot() == Inserted(old(Snapshot()), row)
    {
      id := |table|;
      table, saves, calls, lost := table + [row], saves + [[row.status]], calls + [[]], lost + [[]];
    }

    method Save(id: Id, row: Notification)
      requires Aligned(Snapshot()) && id < |table|
      modifies this`table, this`saves
      ensures Aligned(Snapshot()) && Snapshot() == Saved(old(Snapshot()), id, row)
    {
      table := table[id := row];
      saves := saves[id := saves[id] + [row.status]];
    }

    /** Calls the adapter; the state keeps a record of how the call ended. */
    method CallAdapter(id: Id, outcome: CallOutcome)
      requires Aligned(Snapshot()) && id < |table|
      modifies this`calls
      ensures Aligned(Snapshot()) && Snapshot() == RecordCall(old(Snapshot()), id, outcome)
    {
      calls := calls[id := calls[id] + [outcome]];
    }

    method Send(command: SendCommand, emailSetting: bool, enqueue: EnqueueOutcome)
      returns (r: Result<SendResult, SendError>)
      requires Aligned(Snapshot())
      modifies this
      ensures Aligned(Snapshot())
      ensures (Snapshot(), r) == Notifications.Send(old(Snapshot()), command, emailSetting, enqueue)
    {
      if command.channel.InApp? && command.organization.Some? {
        return Err(InAppNeedsSystemScope);
      }
      var existing := FindByIdempotency(table, command);
      if existing.Some? {
        var row := table[existing.value];
        if row.channel != command.channel || row.content != command.content {
          return Err(IdempotencyConflict);
        }
        return Ok(SendResult(existing.value, true));
      }
      if command.channel.Email? && !EmailEnabled(command.organization, emailSetting) {
        var id := Insert(NewNotification(command, Suppressed, Some(command.now)));
        return Ok(SendResult(id, false));
      }
      var id := Insert(NewNotification(command, Pending, None));
      var saved := table[id];
      if command.channel.InApp? {
        saved := saved.(status := Sent);
        saved := saved.(sentAt := Some(command.now));
        Save(id, saved);
        return Ok(SendResult(id, false));
      }
      match enqueue {
        case EnqueueRaised(message) =>
          Save(id, saved.(status := Failed, failureReason := Some(FailureReason(message, "enqueue_failed")),
                          failedAt := Some(command.now)));
        case Enqueued(jobId) =>
          Save(id, saved.(status := Queued, jobId := Some(jobId), queuedAt := Some(command.now)));
      }
      return Ok(SendResult(id, false));
    }

    method Dispatch(id: Id, emailSetting: bool, hasAdapter: bool, delivery: Delivery, now: Time)
      returns (r: Result<DispatchResult, DispatchError>)
      requires Aligned(Snapshot())
      modifies this
      ensures Aligned(Snapshot())
      ensures lost == old(lost)
      ensures (Snapshot(), r) == Notifications.Dispatch(old(Snapshot()), id, emailSetting, hasAdapter, delivery, now)
    {
      if id >= |table| {
        return Err(NotFound);
      }
      var row := table[id];
      if row.status.IsTerminal() {
        return Ok(DispatchResult(row.status, true));
      }
      if row.channel.Email? && !EmailEnabled(row.organization, emailSetting) {
        if !row.status.CanTransitionTo(Suppressed) {
          return Err(InvalidTransition);
        }
        Save(id, row.(status := Suppressed, suppressedAt := Some(now)));
        return Ok(DispatchResult(Suppressed, false));
      }
      if !row.status.CanTransitionTo(Sending) {
        return Err(InvalidTransition);
      }
      var sending := row.(status := Sending);
      Save(id, sending);
      if !hasAdapter {
        Save(id, FailedRow(sending, NoAdapter(row.channel), now));
        return Ok(DispatchResult(Failed, false));
      }
      if delivery.Called? {
        CallAdapter(id, delivery.outcome);
      }
      var delivered := Delivered(sending, delivery, now);
      if delivered.None? {
        return Err(Interrupted);
      }
      Save(id, delivered.value);
      return Ok(DispatchResult(delivered.value.status, false));
    }

    /** Ends the transaction without a commit: the rows are as they were, a call made stays made. */
    method Rollback(begin: State, id: Id)
      requires Aligned(begin) && Aligned(Snapshot()) && lost == begin.lost
      modifies this
      ensures Aligned(Snapshot()) && Snapshot() == RolledBack(begin, old(Snapshot()), id)
    {
      var made := calls;
      var known := |table|;
      table, saves, calls := begin.table, begin.saves, begin.calls;
      if id < |table| && id < known && |calls[id]| <= |made[id]| {
        lost := lost[id := lost[id] + made[id][|calls[id]|..]];
      }
    }

    /** The job handler: one dispatch in a transaction of its own, kept only if that commits. */
    method Handle(id: Id, emailSetting: bool, hasAdapter: bool, delivery: Delivery, committed: bool, now: Time)
      returns (r: Result<DispatchResult, DispatchError>)
      requires Aligned(Snapshot())
      modifies this
      ensures Aligned(Snapshot())
      ensures (Snapshot(), r) ==
              Notifications.Handle(old(Snapshot()), id, emailSetting, hasAdapter, delivery, committed, now)
    {
      var begin := Snapshot();
      r := Dispatch(id, emailSetting, hasAdapter, delivery, now);
      if r.Err? {
        Rollback(begin, id);
      } else if !committed {
        Rollback(begin, id);
        r := Err(CommitFailed);
      }
    }
  }
}
