/** What a batch leaves of each job, by what that job's own handler did, and what an enqueue stores. */
module JobResults {
  import opened Wrappers
  import opened JobQueue

  /** The one job type that is retried without bound. */
  predicate RetriesForEver(job: Job) {
    job.jobType == "core.identity.organization_suspended"
  }

  /** Another failure leaves the job pending. */
  predicate HasRetry(job: Job) {
    RetriesForEver(job) || job.attemptCount + 1 < job.maxAttempts
  }

  /** Nothing of a finished or retried job but its progress differs from the job claimed. */
  predicate SameBut(before: Job, after: Job) {
    after == before.(status := after.status, attemptCount := before.attemptCount + 1, result := after.result,
                     failureReason := after.failureReason, startedAt := after.startedAt, finishedAt := after.finishedAt)
  }

  /** A job that was not claimed is as it was; one that was is completed, retried or failed by its own outcome. */
  lemma BatchResult(
    table: seq<Job>, ids: seq<nat>, limit: nat, outcomes: nat -> HandlerOutcome, now: Time, i: nat)
    requires Inv(table) && IsOldestFirst(table, ids, limit) && i < |table|
    ensures var after := Batch(table, ids, outcomes, now);
            && |after| == |table|
            && (i !in ids ==> after[i] == table[i])
            && (i in ids ==>
                  && table[i].status == Pending && SameBut(table[i], after[i])
                  && (after[i].status == Completed <==> outcomes(i).Returned?)
                  && (after[i].status == Pending <==> outcomes(i).Raised? && HasRetry(table[i]))
                  && (after[i].status == Failed <==>
                        outcomes(i) in {NoHandler, NotAResult, NonRetryable} ||
                        (outcomes(i).Raised? && !HasRetry(table[i])))
                  && after[i].finishedAt == (if after[i].status == Pending then None else Some(now))
                  && after[i].startedAt == (if after[i].status == Pending then None else Some(now)))
  {
    if i in ids {
      var k :| 0 <= k < |ids| && ids[k] == i;
      assert IsPending(table, ids[k]) && ValidJob(table[i]);
    }
  }

  /** What is recorded: the handler's own result, or why it failed. */
  lemma BatchRecords(
    table: seq<Job>, ids: seq<nat>, limit: nat, outcomes: nat -> HandlerOutcome, now: Time, i: nat)
    requires Inv(table) && IsOldestFirst(table, ids, limit) && i in ids
    ensures i < |table|
    ensures var after := Batch(table, ids, outcomes, now)[i];
            match outcomes(i)
            case Returned(result) =>
              after.failureReason.None? && after.result == Some(if result.Some? then result.value else EMPTY_RESULT)
            case Raised(message) =>
              after.failureReason == Some(FailureReason(message, "handler_error")) && after.result == table[i].result
            case NoHandler =>
              after.failureReason == Some(FailureReason(
                "No handler registered for job type: " + table[i].jobType, "handler_not_found"))
            case NotAResult =>
              after.failureReason == Some(FailureReason("Handler returned invalid result", "handler_error"))
            case NonRetryable =>
              after.failureReason == Some(FailureReason("Handler reported non-retryable failure", "handler_error"))
  {
    var k :| 0 <= k < |ids| && ids[k] == i;
    assert IsPending(table, ids[k]) && ValidJob(table[i]);
  }

  /** A run that ends later than it started keeps when it started, and records when it ended. */
  lemma RunTimes(job: Job, outcome: HandlerOutcome, now: Time)
    requires job.status == Running
    ensures var after := RunJob(job, outcome, now);
            && (after.status.IsTerminal() ==> after.startedAt == job.startedAt && after.finishedAt == Some(now))
            && (after.status == Pending ==> after.startedAt.None? && after.finishedAt == job.finishedAt)
            && after.status != Running && after.attemptCount == job.attemptCount
  {
  }

  /** The row asks for what the command asks for. */
  predicate Requests(job: Job, command: EnqueueCommand) {
    job.organization == command.organization && job.jobType == command.jobType &&
    job.idempotencyKey == command.idempotencyKey
  }

  /**
   An enqueue is refused for a maximum outside 1 to 10, or when a job of the same key asks for
   another payload. It stores one new pending job of no attempts, or nothing if the key is known.
   */
  lemma EnqueueResult(table: seq<Job>, command: EnqueueCommand)
    ensures var (after, r) := Enqueue(table, command);
            var given := command.maxAttempts;
            var bad := given.Some? && (given.value < 1 || given.value > 10);
            var known := command.idempotencyKey.Some? && exists job :: job in table && Requests(job, command);
            && (r == Err(InvalidMaxAttempts) <==> bad)
            && (r.Ok? && r.value.created <==> !bad && !known)
            && (r.Ok? && r.value.created ==>
                  && r.value.id == |table| && |after| == |table| + 1 && after[..|table|] == table
                  && after[|table|].payload == command.payload && Requests(after[|table|], command)
                  && after[|table|].status == Pending && after[|table|].attemptCount == 0
                  && after[|table|].maxAttempts == (if given.None? then 3 else given.value)
                  && after[|table|].createdAt == command.now
                  && after[|table|].startedAt.None? && after[|table|].finishedAt.None?
                  && after[|table|].result.None? && after[|table|].failureReason.None?)
            && (r.Err? || !r.value.created ==> after == table)
            && (r.Ok? && !r.value.created ==>
                  r.value.id < |table| && Requests(table[r.value.id], command) &&
                  table[r.value.id].payload == command.payload)
  {
    var found := FindByIdempotency(table, command);
    if found.Some? {
      assert table[found.value] in table && Requests(table[found.value], command);
    } else {
      forall job | job in table && command.idempotencyKey.Some? ensures !Requests(job, command) {
        var k :| 0 <= k < |table| && table[k] == job;
        assert !command.Matches(table[k]);
      }
    }
  }

  /** A run goes through batches and enqueues one after the other. */
  lemma StepsAreOperations(table: seq<Job>, e: Event, rest: seq<Event>)
    ensures Run(table, [e] + rest) ==
            Run(if e.BatchEvent? then Batch(table, e.ids, e.outcomes, e.now) else Enqueue(table, e.command).0, rest)
  {
    assert ([e] + rest)[1..] == rest;
  }
}
