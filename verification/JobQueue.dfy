/**
 The background job queue: idempotent enqueue, oldest-first claiming in batches, and the
 runner that completes, retries or fails each claimed job.

 Rows are only ever appended, so a job is named by its position in the table. One worker
 runs the batches, one after the other.
 */
module JobQueue {
  import opened Wrappers

  type Time = int
  type Json = nat

  datatype Status = Pending | Running | Completed | Failed {
    predicate IsTerminal() {
      Completed? || Failed?
    }

    /** The transition table. */
    predicate CanTransitionTo(next: Status) {
      match this
      case Pending => next.Running?
      case Running => next.Completed? || next.Pending? || next.Failed?
      case Completed => false
      case Failed => false
    }
  }

  datatype FailureReason = FailureReason(message: string, code: string)

  datatype Job = Job(
    organization: Option<nat>, jobType: string, payload: Json, idempotencyKey: Option<string>,
    status: Status, attemptCount: nat, maxAttempts: nat,
    result: Option<Json>, failureReason: Option<FailureReason>,
    createdAt: Time, startedAt: Option<Time>, finishedAt: Option<Time>)
  {
    predicate IsPersistent() {
      jobType == PERSISTENT_RETRY_TYPE
    }

    predicate IsUnfinished() {
      !status.IsTerminal()
    }
  }

  const PERSISTENT_RETRY_TYPE := "core.identity.organization_suspended"
  const EMPTY_RESULT: Json := 0
  const MIN_MAX_ATTEMPTS := 1
  const MAX_MAX_ATTEMPTS := 10
  const DEFAULT_MAX_ATTEMPTS := 3

  /** What running a job's handler comes to. A raised message is one a reason accepts. */
  datatype HandlerOutcome =
    | NoHandler
    | Raised(message: string)
    | NotAResult
    | NonRetryable
    | Returned(result: Option<Json>)

  // ---- the runner

  function Claimed(job: Job, now: Time): Job {
    job.(status := Running, startedAt := Some(now), attemptCount := job.attemptCount + 1)
  }

  function MarkCompleted(job: Job, result: Option<Json>, now: Time): Job {
    if !job.status.CanTransitionTo(Completed) then job
    else job.(status := Completed,
              result := Some(if result.Some? then result.value else EMPTY_RESULT),
              failureReason := None, finishedAt := Some(now))
  }

  function MarkTerminalFailure(job: Job, reason: FailureReason, now: Time): Job {
    if !job.status.CanTransitionTo(Failed) then job
    else job.(status := Failed, failureReason := Some(reason), finishedAt := Some(now))
  }

  function ApplyFailure(job: Job, reason: FailureReason, now: Time): Job {
    if job.attemptCount >= job.maxAttempts && !job.IsPersistent() then MarkTerminalFailure(job, reason, now)
    else if !job.status.CanTransitionTo(Pending) then job
    else job.(status := Pending, failureReason := Some(reason), startedAt := None)
  }

  function RunJob(job: Job, outcome: HandlerOutcome, now: Time): Job {
    match outcome
    case NoHandler =>
      MarkTerminalFailure(
        job, FailureReason("No handler registered for job type: " + job.jobType, "handler_not_found"), now)
    case Raised(message) => ApplyFailure(job, FailureReason(message, "handler_error"), now)
    case NotAResult => MarkTerminalFailure(job, FailureReason("Handler returned invalid result", "handler_error"), now)
    case NonRetryable =>
      MarkTerminalFailure(job, FailureReason("Handler reported non-retryable failure", "handler_error"), now)
    case Returned(result) => MarkCompleted(job, result, now)
  }

  // ---- claiming and batches

  predicate IsPending(table: seq<Job>, id: nat) {
    id < |table| && table[id].status.Pending?
  }

  /**
   What the claim query may return: pending jobs, oldest first, as many as the limit
   allows. Jobs created at the same instant may come in any order.
   */
  ghost predicate IsOldestFirst(table: seq<Job>, ids: seq<nat>, limit: nat) {
    && |ids| <= limit
    && (forall i :: 0 <= i < |ids| ==> IsPending(table, ids[i]))
    && (forall i, j :: 0 <= i < j < |ids| ==> ids[i] != ids[j])
    && (forall i, j :: 0 <= i < j < |ids| ==> table[ids[i]].createdAt <= table[ids[j]].createdAt)
    && (forall id: nat :: IsPending(table, id) && id !in ids ==>
          |ids| == limit && forall i :: 0 <= i < |ids| ==> table[ids[i]].createdAt <= table[id].createdAt)
  }

  function Batch(table: seq<Job>, ids: seq<nat>, outcomes: nat -> HandlerOutcome, now: Time): seq<Job> {
    seq(|table|, i requires 0 <= i < |table| =>
      if i in ids then RunJob(Claimed(table[i], now), outcomes(i), now) else table[i])
  }

  // ---- enqueue

  datatype EnqueueCommand = EnqueueCommand(
    organization: Option<nat>, jobType: string, payload: Json,
    idempotencyKey: Option<string>, maxAttempts: Option<int>, now: Time)
  {
    predicate Matches(job: Job) {
      idempotencyKey.Some? && job.idempotencyKey == idempotencyKey &&
      job.organization == organization && job.jobType == jobType
    }
  }

  datatype EnqueueError = InvalidMaxAttempts | IdempotencyConflict

  datatype Enqueued = Enqueued(id: nat, created: bool)

  function NormalizeMaxAttempts(raw: Option<int>): Option<nat> {
    if raw.None? then Some(DEFAULT_MAX_ATTEMPTS)
    else if raw.value < MIN_MAX_ATTEMPTS || raw.value > MAX_MAX_ATTEMPTS then None
    else Some(raw.value)
  }

  /** The position of the first row with the command's idempotency key. */
  function FindByIdempotency(table: seq<Job>, command: EnqueueCommand): (found: Option<nat>)
    ensures found.Some? ==> found.value < |table| && command.Matches(table[found.value])
    ensures found.None? ==> forall i :: 0 <= i < |table| ==> !command.Matches(table[i])
  {
    if table == [] then None
    else
      var earlier := FindByIdempotency(table[..|table| - 1], command);
      if earlier.Some? then earlier
      else if command.Matches(table[|table| - 1]) then Some(|table| - 1)
      else None
  }

  function NewJob(command: EnqueueCommand, maxAttempts: nat): Job {
    Job(command.organization, command.jobType, command.payload, command.idempotencyKey,
        Pending, 0, maxAttempts, None, None, command.now, None, None)
  }

  function Enqueue(table: seq<Job>, command: EnqueueCommand): (seq<Job>, Result<Enqueued, EnqueueError>) {
    var maxAttempts := NormalizeMaxAttempts(command.maxAttempts);
    if maxAttempts.None? then (table, Err(InvalidMaxAttempts))
    else
      var existing := FindByIdempotency(table, command);
      if existing.Some? then
        if table[existing.value].payload != command.payload then (table, Err(IdempotencyConflict))
        else (table, Ok(Enqueued(existing.value, false)))
      else (table + [NewJob(command, maxAttempts.value)], Ok(Enqueued(|table|, true)))
  }

  // ---- runs

  datatype Event =
    | BatchEvent(limit: nat, ids: seq<nat>, outcomes: nat -> HandlerOutcome, now: Time)
    | EnqueueEvent(command: EnqueueCommand)

  ghost predicate Enabled(table: seq<Job>, e: Event) {
    e.BatchEvent? ==> e.limit >= 1 && IsOldestFirst(table, e.ids, e.limit)
  }

  function Next(table: seq<Job>, e: Event): seq<Job> {
    match e
    case BatchEvent(_, ids, outcomes, now) => Batch(table, ids, outcomes, now)
    case EnqueueEvent(command) => Enqueue(table, command).0
  }

  ghost predicate ValidRun(table: seq<Job>, events: seq<Event>)
    decreases |events|
  {
    events == [] || (Enabled(table, events[0]) && ValidRun(Next(table, events[0]), events[1..]))
  }

  function Run(table: seq<Job>, events: seq<Event>): seq<Job>
    decreases |events|
  {
    if events == [] then table else Run(Next(table, events[0]), events[1..])
  }

  // ---- what every row satisfies between batches

  predicate ValidJob(job: Job) {
    && job.maxAttempts >= 1
    && !job.status.Running?
    && (!job.IsPersistent() ==> job.attemptCount <= job.maxAttempts)
    && (!job.IsPersistent() && job.status.Pending? ==> job.attemptCount < job.maxAttempts)
    && (job.finishedAt.Some? <==> job.status.IsTerminal())
    && (job.status.Completed? ==> job.failureReason.None? && job.result.Some?)
    && (job.status.Failed? ==> job.failureReason.Some?)
    && (job.status.Pending? ==> job.startedAt.None?)
  }

  ghost predicate KeysUnique(table: seq<Job>) {
    forall i, j :: 0 <= i < j < |table| && table[i].idempotencyKey.Some? ==>
      !(&& table[i].idempotencyKey == table[j].idempotencyKey
        && table[i].organization == table[j].organization
        && table[i].jobType == table[j].jobType)
  }

  ghost predicate Inv(table: seq<Job>) {
    && (forall i :: 0 <= i < |table| ==> ValidJob(table[i]))
    && KeysUnique(table)
  }

  /** What no batch changes in a row. */
  predicate SameRequest(a: Job, b: Job) {
    && a.organization == b.organization && a.jobType == b.jobType && a.payload == b.payload
    && a.idempotencyKey == b.idempotencyKey && a.maxAttempts == b.maxAttempts && a.createdAt == b.createdAt
  }

  /**
   One claimed job: it goes through Running by edges of the transition table, ends up where
   the outcome and its attempts say, uses one attempt, and is finished exactly when terminal.
   */
  lemma RunClaimed(job: Job, outcome: HandlerOutcome, now: Time)
    requires ValidJob(job) && job.status.Pending?
    ensures var running := Claimed(job, now);
            var after := RunJob(running, outcome, now);
            && job.status.CanTransitionTo(running.status) && running.status.CanTransitionTo(after.status)
            && (after.status.Completed? <==> outcome.Returned?)
            && (after.status.Pending? <==>
                  outcome.Raised? && (job.IsPersistent() || job.attemptCount + 1 < job.maxAttempts))
            && after.attemptCount == job.attemptCount + 1
            && ValidJob(after) && SameRequest(job, after)
  {
  }

  lemma BatchKeepsInv(table: seq<Job>, ids: seq<nat>, limit: nat, outcomes: nat -> HandlerOutcome, now: Time)
    requires Inv(table) && IsOldestFirst(table, ids, limit)
    ensures var after := Batch(table, ids, outcomes, now);
            && Inv(after) && |after| == |table|
            && forall i :: 0 <= i < |table| ==> SameRequest(table[i], after[i])
  {
    var after := Batch(table, ids, outcomes, now);
    forall i | 0 <= i < |table| ensures ValidJob(after[i]) && SameRequest(table[i], after[i]) {
      if i in ids {
        RunClaimed(table[i], outcomes(i), now);
      }
    }
    forall i, j | 0 <= i < j < |after| && after[i].idempotencyKey.Some?
      ensures !(&& after[i].idempotencyKey == after[j].idempotencyKey
                && after[i].organization == after[j].organization
                && after[i].jobType == after[j].jobType) {
      assert SameRequest(table[i], after[i]) && SameRequest(table[j], after[j]);
    }
  }

  lemma NextKeepsInv(table: seq<Job>, e: Event)
    requires Inv(table) && Enabled(table, e)
    ensures Inv(Next(table, e)) && |table| <= |Next(table, e)|
    ensures forall i :: 0 <= i < |table| ==> SameRequest(table[i], Next(table, e)[i])
  {
    match e
    case BatchEvent(limit, ids, outcomes, now) => BatchKeepsInv(table, ids, limit, outcomes, now);
    case EnqueueEvent(command) =>
  }

  /**
   In every reachable table each job is valid (attempts bounded, finished exactly when
   terminal), no two share an idempotency key, and no row was removed or re-targeted.
   */
  lemma {:induction false} RunKeepsInv(table: seq<Job>, events: seq<Event>)
    requires Inv(table) && ValidRun(table, events)
    ensures Inv(Run(table, events)) && |table| <= |Run(table, events)|
    ensures forall i :: 0 <= i < |table| ==> SameRequest(table[i], Run(table, events)[i])
    decreases |events|
  {
    if events != [] {
      NextKeepsInv(table, events[0]);
      var after := Next(table, events[0]);
      RunKeepsInv(after, events[1..]);
      forall i | 0 <= i < |table| ensures SameRequest(table[i], Run(table, events)[i]) {
        assert SameRequest(table[i], after[i]);
      }
    }
  }

  /** A repeated request, after any run, creates nothing: same job, or a refused payload. */
  lemma EnqueueOnce(table: seq<Job>, first: EnqueueCommand, events: seq<Event>, again: EnqueueCommand)
    requires Inv(table) && first.idempotencyKey.Some? && Enqueue(table, first).1.Ok?
    requires ValidRun(Enqueue(table, first).0, events)
    requires again.organization == first.organization && again.jobType == first.jobType
    requires again.idempotencyKey == first.idempotencyKey && NormalizeMaxAttempts(again.maxAttempts).Some?
    ensures var id := Enqueue(table, first).1.value.id;
            var later := Run(Enqueue(table, first).0, events);
            Enqueue(later, again) ==
            (later, if again.payload == first.payload then Ok(Enqueued(id, false)) else Err(IdempotencyConflict))
  {
    NextKeepsInv(table, EnqueueEvent(first));
    var stored, id := Enqueue(table, first).0, Enqueue(table, first).1.value.id;
    RunKeepsInv(stored, events);
    var later := Run(stored, events);
    assert SameRequest(stored[id], later[id]);
    var found := FindByIdempotency(later, again);
    assert again.Matches(later[id]);
    assert found.value == id;
  }

  /** Every table reached from an empty one satisfies the invariant. */
  lemma EveryReachableTable(events: seq<Event>, id: nat)
    requires ValidRun([], events) && id < |Run([], events)|
    ensures Inv(Run([], events))
    ensures var job := Run([], events)[id];
            && (job.finishedAt.Some? <==> job.status.IsTerminal())
            && (!job.IsPersistent() ==>
                  && job.attemptCount <= job.maxAttempts
                  && (job.status.Pending? ==> job.attemptCount < job.maxAttempts))
  {
    RunKeepsInv([], events);
  }
}
