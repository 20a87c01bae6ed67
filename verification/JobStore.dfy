/** The job table, the claim queries and the batch loop as they update rows in place. */
module JobStore {
  import opened Wrappers
  import opened JobQueue

  /** A claimed job as the worker holds it; only a save writes it back. */
  class ClaimedJob {
    const id: nat
    var job: Job

    constructor (id: nat, job: Job)
      ensures this.id == id && this.job == job
    {
      this.id, this.job := id, job;
    }

    method MarkCompleted(result: Option<Json>, now: Time)
      modifies this
      ensures job == JobQueue.MarkCompleted(old(job), result, now)
    {
      if !job.status.CanTransitionTo(Completed) {
        return;
      }
      job := job.(status := Completed);
      job := job.(result := Some(if result.Some? then result.value else EMPTY_RESULT));
      job := job.(failureReason := None);
      job := job.(finishedAt := Some(now));
    }

    method MarkTerminalFailure(reason: FailureReason, now: Time)
      modifies this
      ensures job == JobQueue.MarkTerminalFailure(old(job), reason, now)
    {
      if !job.status.CanTransitionTo(Failed) {
        return;
      }
      job := job.(status := Failed);
      job := job.(failureReason := Some(reason));
      job := job.(finishedAt := Some(now));
    }

    method ApplyFailure(reason: FailureReason, now: Time)
      modifies this
      ensures job == JobQueue.ApplyFailure(old(job), reason, now)
    {
      if job.attemptCount >= job.maxAttempts && !job.IsPersistent() {
        MarkTerminalFailure(reason, now);
        return;
      }
      if !job.status.CanTransitionTo(Pending) {
        return;
      }
      job := job.(status := Pending);
      job := job.(failureReason := Some(reason));
      job := job.(startedAt := None);
    }

    method Run(outcome: HandlerOutcome, now: Time)
      modifies this
      ensures job == RunJob(old(job), outcome, now)
    {
      match outcome
      case NoHandler =>
        MarkTerminalFailure(
          FailureReason("No handler registered for job type: " + job.jobType, "handler_not_found"), now);
      case Raised(message) => ApplyFailure(FailureReason(message, "handler_error"), now);
      case NotAResult => MarkTerminalFailure(FailureReason("Handler returned invalid result", "handler_error"), now);
      case NonRetryable =>
        MarkTerminalFailure(FailureReason("Handler reported non-retryable failure", "handler_error"), now);
      case Returned(result) => MarkCompleted(result, now);
    }
  }

  class Store {
    var table: seq<Job>

    constructor ()
      ensures table == []
    {
      table := [];
    }

    /** The oldest pending job that has not been picked yet. */
    method OldestPending(picked: seq<nat>) returns (found: Option<nat>)
      ensures found.None? ==> forall id: nat :: IsPending(table, id) ==> id in picked
      ensures found.Some? ==>
                && IsPending(table, found.value) && found.value !in picked
                && forall id: nat :: IsPending(table, id) && id !in picked ==>
                     table[found.value].createdAt <= table[id].createdAt
    {
      found := None;
      for i := 0 to |table|
        invariant found.None? ==> forall id: nat :: id < i && IsPending(table, id) ==> id in picked
        invariant found.Some? ==>
                    && IsPending(table, found.value) && found.value !in picked
                    && forall id: nat :: id < i && IsPending(table, id) && id !in picked ==>
                         table[found.value].createdAt <= table[id].createdAt
      {
        if table[i].status.Pending? && i !in picked &&
           (found.None? || table[i].createdAt < table[found.value].createdAt) {
          found := Some(i);
        }
      }
    }

    /** SELECT of pending jobs ORDER BY created_at LIMIT limit. */
    method ListPending(limit: nat) returns (ids: seq<nat>)
      ensures IsOldestFirst(table, ids, limit)
    {
      ids := [];
      while |ids| < limit
        invariant |ids| <= limit
        invariant forall i :: 0 <= i < |ids| ==> IsPending(table, ids[i])
        invariant forall i, j :: 0 <= i < j < |ids| ==>
                    ids[i] != ids[j] && table[ids[i]].createdAt <= table[ids[j]].createdAt
        invariant forall id: nat, i :: IsPending(table, id) && id !in ids && 0 <= i < |ids| ==>
                    table[ids[i]].createdAt <= table[id].createdAt
      {
        var next := OldestPending(ids);
        if next.None? {
          return;
        }
        ids := ids + [next.value];
      }
    }

    /** Claims one job if it is still pending: the guarded UPDATE on a single row. */
    method ClaimPending(id: nat, now: Time) returns (claimed: Option<Job>)
      modifies this
      ensures IsPending(old(table), id) ==>
                claimed == Some(Claimed(old(table)[id], now)) && table == old(table)[id := claimed.value]
      ensures !IsPending(old(table), id) ==> claimed.None? && table == old(table)
    {
      if id >= |table| || !table[id].status.Pending? {
        return None;
      }
      table := table[id := table[id].(
        status := Running, startedAt := Some(now), attemptCount := table[id].attemptCount + 1)];
      return Some(table[id]);
    }

    /** Claims the oldest pending jobs and marks every one of them running. */
    method ClaimNextPending(limit: nat, now: Time) returns (ids: seq<nat>, claimed: seq<Job>)
      modifies this
      ensures IsOldestFirst(old(table), ids, limit)
      ensures |claimed| == |ids|
      ensures forall i :: 0 <= i < |ids| ==> claimed[i] == Claimed(old(table)[ids[i]], now)
      ensures |table| == |old(table)|
      ensures forall i :: 0 <= i < |table| ==>
                table[i] == if i in ids then Claimed(old(table)[i], now) else old(table)[i]
    {
      ids := ListPending(limit);
      claimed := [];
      for k := 0 to |ids|
        invariant |claimed| == k && |table| == |old(table)|
        invariant forall i :: 0 <= i < k ==> claimed[i] == Claimed(old(table)[ids[i]], now)
        invariant forall i :: 0 <= i < |table| ==>
                    table[i] == if i in ids[..k] then Claimed(old(table)[i], now) else old(table)[i]
      {
        assert ids[k] !in ids[..k];
        var job := ClaimPending(ids[k], now);
        claimed := claimed + [job.value];
        assert ids[..k + 1] == ids[..k] + [ids[k]];
      }
      assert ids[..|ids|] == ids;
    }

    /** One batch: claim, then run and save each claimed job in turn. */
    method ProcessPending(limit: nat, handlers: nat -> HandlerOutcome, now: Time)
      returns (processed: nat, ghost ids: seq<nat>)
      modifies this
      ensures IsOldestFirst(old(table), ids, limit)
      ensures table == Batch(old(table), ids, handlers, now)
      ensures processed == |ids|
    {
      var found, claimed := ClaimNextPending(limit, now);
      ids := found;
      processed := 0;
      for k := 0 to |claimed|
        invariant processed == k && |table| == |old(table)|
        invariant forall i :: 0 <= i < |table| ==>
                    table[i] == if i in ids[..k] then RunJob(Claimed(old(table)[i], now), handlers(i), now)
                                else if i in ids then Claimed(old(table)[i], now) else old(table)[i]
      {
        var worker := new ClaimedJob(found[k], claimed[k]);
        worker.Run(handlers(found[k]), now);
        table := table[worker.id := worker.job];
        processed := processed + 1;
        assert ids[..k + 1] == ids[..k] + [ids[k]];
      }
      assert ids[..|ids|] == ids;
    }

    method Enqueue(command: EnqueueCommand) returns (r: Result<Enqueued, EnqueueError>)
      modifies this
      ensures (table, r) == JobQueue.Enqueue(old(table), command)
    {
      var maxAttempts := NormalizeMaxAttempts(command.maxAttempts);
      if maxAttempts.None? {
        return Err(InvalidMaxAttempts);
      }
      var existing := FindByIdempotency(table, command);
      if existing.Some? {
        if table[existing.value].payload != command.payload {
          return Err(IdempotencyConflict);
        }
        return Ok(Enqueued(existing.value, false));
      }
      var id := |table|;
      table := table + [NewJob(command, maxAttempts.value)];
      return Ok(Enqueued(id, true));
    }
  }
}
