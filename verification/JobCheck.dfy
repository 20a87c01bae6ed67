/**
 The queue with the table's CHECK on attempts: a claim that would take a job beyond its maximum
 fails when it is flushed, and the batch it belongs to is rolled back.
 */
module JobCheck {
  import opened Wrappers
  import opened JobQueue
  import opened JobProgress

  /** A pending job whose next claim the CHECK refuses. */
  predicate Exhausted(job: Job) {
    job.status.Pending? && job.attemptCount >= job.maxAttempts
  }

  predicate Refused(table: seq<Job>, ids: seq<nat>) {
    exists i :: 0 <= i < |ids| && ids[i] < |table| && Exhausted(table[ids[i]])
  }

  function CheckedNext(table: seq<Job>, e: Event): seq<Job> {
    if e.BatchEvent? && Refused(table, e.ids) then table else Next(table, e)
  }

  function CheckedRun(table: seq<Job>, events: seq<Event>): seq<Job>
    decreases |events|
  {
    if events == [] then table else CheckedRun(CheckedNext(table, events[0]), events[1..])
  }

  ghost predicate ValidCheckedRun(table: seq<Job>, events: seq<Event>)
    decreases |events|
  {
    events == [] || (Enabled(table, events[0]) && ValidCheckedRun(CheckedNext(table, events[0]), events[1..]))
  }

  /** Some batch claims the job and is not rolled back. */
  ghost predicate ClaimKept(table: seq<Job>, events: seq<Event>, j: nat)
    decreases |events|
  {
    events != [] &&
    (|| (events[0].BatchEvent? && j in events[0].ids && !Refused(table, events[0].ids))
     || ClaimKept(CheckedNext(table, events[0]), events[1..], j))
  }

  /** With the CHECK the bound on attempts holds of every job, the persistent type included. */
  ghost predicate WithinMaximum(table: seq<Job>) {
    forall i :: 0 <= i < |table| ==> table[i].attemptCount <= table[i].maxAttempts
  }

  lemma CheckedNextKeepsInv(table: seq<Job>, e: Event)
    requires Inv(table) && WithinMaximum(table) && Enabled(table, e)
    ensures Inv(CheckedNext(table, e)) && WithinMaximum(CheckedNext(table, e))
  {
    NextKeepsInv(table, e);
    if e.BatchEvent? && !Refused(table, e.ids) {
      forall i | 0 <= i < |table| ensures Next(table, e)[i].attemptCount <= Next(table, e)[i].maxAttempts {
        assert SameRequest(table[i], Next(table, e)[i]);
        if i in e.ids {
          var k :| 0 <= k < |e.ids| && e.ids[k] == i;
          assert !Exhausted(table[e.ids[k]]);
          RunClaimed(table[i], e.outcomes(i), e.now);
        }
      }
    }
  }

  lemma {:induction false} CheckedRunKeepsInv(table: seq<Job>, events: seq<Event>)
    requires Inv(table) && WithinMaximum(table) && ValidCheckedRun(table, events)
    ensures Inv(CheckedRun(table, events)) && WithinMaximum(CheckedRun(table, events))
    decreases |events|
  {
    if events != [] {
      CheckedNextKeepsInv(table, events[0]);
      CheckedRunKeepsInv(CheckedNext(table, events[0]), events[1..]);
    }
  }

  // ---- when waiting is still bounded

  /** Every pending persistent-retry job can be claimed this many times more. */
  ghost predicate PersistentCanBeClaimed(table: seq<Job>, times: nat) {
    forall i :: 0 <= i < |table| && table[i].status.Pending? && table[i].IsPersistent() ==>
      table[i].attemptCount + times <= table[i].maxAttempts
  }

  /** A persistent-retry job enqueued later allows for as many. */
  predicate AllowsFor(e: Event, times: nat) {
    e.EnqueueEvent? && e.command.jobType == PERSISTENT_RETRY_TYPE ==>
      var maximum := NormalizeMaxAttempts(e.command.maxAttempts);
      maximum.Some? ==> times <= maximum.value
  }

  lemma NotRefused(table: seq<Job>, ids: seq<nat>)
    requires Inv(table) && PersistentCanBeClaimed(table, 1)
    ensures !Refused(table, ids)
  {
    forall i | 0 <= i < |table| ensures !Exhausted(table[i]) {}
  }

  lemma BatchUsesOne(table: seq<Job>, ids: seq<nat>, limit: nat, outcomes: nat -> HandlerOutcome, now: Time, times: nat)
    requires Inv(table) && IsOldestFirst(table, ids, limit) && PersistentCanBeClaimed(table, times + 1)
    ensures PersistentCanBeClaimed(Batch(table, ids, outcomes, now), times)
  {
    var after := Batch(table, ids, outcomes, now);
    forall i | 0 <= i < |after| && after[i].status.Pending? && after[i].IsPersistent()
      ensures after[i].attemptCount + times <= after[i].maxAttempts
    {
      if i in ids {
        RunClaimed(table[i], outcomes(i), now);
      }
    }
  }

  lemma EnqueueAllows(table: seq<Job>, command: EnqueueCommand, times: nat)
    requires PersistentCanBeClaimed(table, times) && AllowsFor(EnqueueEvent(command), times)
    ensures PersistentCanBeClaimed(Enqueue(table, command).0, times)
  {
  }

  /**
   No starvation with the CHECK: as without it, provided that every persistent-retry job has
   attempts left for as many batches as the job may have to wait.
   */
  lemma {:induction false} NoStarvationChecked(table: seq<Job>, events: seq<Event>, j: nat, limit: nat)
    requires Inv(table) && ValidCheckedRun(table, events)
    requires IsPending(table, j) && |PersistentAhead(table, j)| < limit
    requires forall e :: e in events && e.BatchEvent? ==> e.limit == limit
    requires forall e :: e in events && e.EnqueueEvent? ==> table[j].createdAt < e.command.now
    requires PersistentCanBeClaimed(table, Wait(table, j)) && forall e :: e in events ==> AllowsFor(e, Wait(table, j))
    requires Wait(table, j) <= Batches(events)
    ensures ClaimKept(table, events, j)
    decreases |events|
  {
    var e, rest := events[0], events[1..];
    assert e in events;
    NextKeepsInv(table, e);
    assert forall e :: e in rest ==> e in events;
    if e.BatchEvent? {
      NotRefused(table, e.ids);
      if j !in e.ids {
        BatchAdvances(table, e.ids, limit, e.outcomes, e.now, j);
        BatchUsesOne(table, e.ids, limit, e.outcomes, e.now, Wait(table, j) - 1);
        NoStarvationChecked(Next(table, e), rest, j, limit);
      }
    } else {
      EnqueueKeepsWait(table, e.command, j);
      EnqueueAllows(table, e.command, Wait(table, j));
      NoStarvationChecked(Next(table, e), rest, j, limit);
    }
  }

  // ---- and when the queue stands still

  /** The jobs at least as old as p. */
  function NotYounger(table: seq<Job>, p: nat): set<nat>
    requires p < |table|
  {
    set i: nat | i < |table| && table[i].status.Pending? && table[i].createdAt <= table[p].createdAt
  }

  /** An exhausted job that every claim of this size must select. */
  ghost predicate Jams(table: seq<Job>, p: nat, limit: nat) {
    p < |table| && Exhausted(table[p]) && |NotYounger(table, p)| <= limit
  }

  lemma JamIsSelected(table: seq<Job>, ids: seq<nat>, p: nat, limit: nat)
    requires Jams(table, p, limit) && IsOldestFirst(table, ids, limit)
    ensures Refused(table, ids)
  {
    if p !in ids {
      forall i | 0 <= i < |ids| ensures ids[i] in NotYounger(table, p) - {p} {}
      assert p in NotYounger(table, p);
      DistinctFit(ids, NotYounger(table, p) - {p});
      assert false;
    }
  }

  lemma EnqueueKeepsJam(table: seq<Job>, command: EnqueueCommand, p: nat, limit: nat)
    requires Jams(table, p, limit) && table[p].createdAt < command.now
    ensures Jams(Enqueue(table, command).0, p, limit)
  {
    assert NotYounger(Enqueue(table, command).0, p) == NotYounger(table, p);
  }

  /**
   One exhausted persistent-retry job among the oldest `limit` pending ones stops the queue
   for good: every batch is rolled back, so no job is ever claimed, whatever is enqueued.
   */
  lemma {:induction false} ExhaustedJobStopsTheQueue(table: seq<Job>, events: seq<Event>, p: nat, limit: nat, j: nat)
    requires Jams(table, p, limit) && ValidCheckedRun(table, events)
    requires forall e :: e in events && e.BatchEvent? ==> e.limit == limit
    requires forall e :: e in events && e.EnqueueEvent? ==> table[p].createdAt < e.command.now
    ensures !ClaimKept(table, events, j)
    ensures |table| <= |CheckedRun(table, events)| && table == CheckedRun(table, events)[..|table|]
    decreases |events|
  {
    if events != [] {
      var e, rest := events[0], events[1..];
      assert e in events && forall e :: e in rest ==> e in events;
      if e.BatchEvent? {
        JamIsSelected(table, e.ids, p, limit);
      } else {
        EnqueueKeepsJam(table, e.command, p, limit);
      }
      ExhaustedJobStopsTheQueue(CheckedNext(table, e), rest, p, limit, j);
    }
  }

  /** A persistent-retry job allowing one attempt is enqueued, and its handler raises once. */
  function OneFailure(limit: nat, now: Time, later: Time): seq<Event> {
    [EnqueueEvent(EnqueueCommand(None, PERSISTENT_RETRY_TYPE, 0, None, Some(1), now)),
     BatchEvent(limit, [0], i => Raised("down"), later)]
  }

  /** That is all it takes, from an empty queue. */
  lemma OneFailureStopsTheQueue(limit: nat, now: Time, later: Time)
    requires limit >= 1
    ensures ValidCheckedRun([], OneFailure(limit, now, later))
    ensures Jams(CheckedRun([], OneFailure(limit, now, later)), 0, limit)
  {
    var enqueue, batch := OneFailure(limit, now, later)[0], OneFailure(limit, now, later)[1];
    assert OneFailure(limit, now, later)[1..] == [batch] && [batch][1..] == [];
    var queued := CheckedNext([], enqueue);
    assert queued == [NewJob(enqueue.command, 1)];
    assert !Refused(queued, [0]);
    var failed := CheckedNext(queued, batch);
    assert failed[0] == RunJob(Claimed(queued[0], later), Raised("down"), later);
    assert CheckedRun([], OneFailure(limit, now, later)) == CheckedRun(queued, [batch]) == CheckedRun(failed, []);
    assert NotYounger(failed, 0) == {0};
  }
}
