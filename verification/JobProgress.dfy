/** How long jobs wait: no ordinary job starves, and the queue drains. */
module JobProgress {
  import opened Wrappers
  import opened Sets
  import opened JobQueue

  function Sum(weights: seq<nat>): nat {
    if weights == [] then 0 else Sum(weights[..|weights| - 1]) + weights[|weights| - 1]
  }

  lemma {:induction false} SumSmaller(a: seq<nat>, b: seq<nat>, k: int)
    requires |a| == |b| && forall i :: 0 <= i < |a| ==> a[i] <= b[i]
    requires k == -1 || (0 <= k < |a| && a[k] < b[k])
    ensures if k == -1 then Sum(a) <= Sum(b) else Sum(a) < Sum(b)
  {
    if a != [] {
      SumSmaller(a[..|a| - 1], b[..|b| - 1], if k == |a| - 1 then -1 else k);
    }
  }

  /** The attempts an ordinary job may still take; a finished job takes none. */
  function Remaining(job: Job): nat {
    if job.IsUnfinished() && job.attemptCount < job.maxAttempts then job.maxAttempts - job.attemptCount else 0
  }

  predicate IsAhead(table: seq<Job>, i: nat, j: nat)
    requires j < |table|
  {
    i < |table| && i != j && table[i].createdAt <= table[j].createdAt
  }

  function AttemptsAhead(table: seq<Job>, j: nat): seq<nat>
    requires j < |table|
  {
    seq(|table|, i requires 0 <= i < |table| =>
      if IsAhead(table, i, j) && !table[i].IsPersistent() then Remaining(table[i]) else 0)
  }

  /** The persistent-retry jobs pending ahead of job j. */
  function PersistentAhead(table: seq<Job>, j: nat): set<nat>
    requires j < |table|
  {
    set i: nat | i < |table| && IsAhead(table, i, j) && table[i].IsPersistent() && table[i].status.Pending?
  }

  /** Batches it can take before job j is claimed. */
  function Wait(table: seq<Job>, j: nat): nat
    requires j < |table|
  {
    1 + Sum(AttemptsAhead(table, j))
  }

  function Batches(events: seq<Event>): nat {
    if events == [] then 0 else (if events[0].BatchEvent? then 1 else 0) + Batches(events[1..])
  }

  ghost predicate ClaimedIn(events: seq<Event>, j: nat) {
    exists i :: 0 <= i < |events| && events[i].BatchEvent? && j in events[i].ids
  }

  lemma {:induction false} DistinctFit(ids: seq<nat>, within: set<nat>)
    requires forall i, j :: 0 <= i < j < |ids| ==> ids[i] != ids[j]
    requires forall i :: 0 <= i < |ids| ==> ids[i] in within
    ensures |ids| <= |within|
  {
    if ids != [] {
      var last := ids[|ids| - 1];
      DistinctFit(ids[..|ids| - 1], within - {last});
    }
  }

  /** A batch that passes job j over is full of jobs ahead of it, one of them ordinary. */
  lemma PassedOverByOrdinary(table: seq<Job>, ids: seq<nat>, limit: nat, j: nat) returns (k: nat)
    requires IsOldestFirst(table, ids, limit) && IsPending(table, j) && j !in ids
    requires |PersistentAhead(table, j)| < limit
    ensures k in ids && IsAhead(table, k, j) && !table[k].IsPersistent() && table[k].status.Pending?
  {
    if forall i :: 0 <= i < |ids| ==> table[ids[i]].IsPersistent() {
      DistinctFit(ids, PersistentAhead(table, j));
      assert false;
    }
    var i :| 0 <= i < |ids| && !table[ids[i]].IsPersistent();
    k := ids[i];
  }

  lemma BatchAdvances(table: seq<Job>, ids: seq<nat>, limit: nat, outcomes: nat -> HandlerOutcome, now: Time, j: nat)
    requires Inv(table) && IsOldestFirst(table, ids, limit) && IsPending(table, j) && j !in ids
    requires |PersistentAhead(table, j)| < limit
    ensures var after := Batch(table, ids, outcomes, now);
            && Wait(after, j) < Wait(table, j)
            && |PersistentAhead(after, j)| < limit
            && after[j] == table[j]
  {
    var after := Batch(table, ids, outcomes, now);
    BatchKeepsInv(table, ids, limit, outcomes, now);
    var k := PassedOverByOrdinary(table, ids, limit, j);
    forall i | 0 <= i < |table|
      ensures Remaining(after[i]) <= Remaining(table[i]) && (i == k ==> Remaining(after[i]) < Remaining(table[i])) {
      assert SameRequest(table[i], after[i]);
      if i in ids {
        RunClaimed(table[i], outcomes(i), now);
      }
    }
    forall i | 0 <= i < |table| ensures IsAhead(after, i, j) == IsAhead(table, i, j) {
      assert SameRequest(table[i], after[i]);
    }
    SumSmaller(AttemptsAhead(after, j), AttemptsAhead(table, j), k);
    StillFewPersistent(table, ids, outcomes, now, j);
  }

  lemma StillFewPersistent(table: seq<Job>, ids: seq<nat>, outcomes: nat -> HandlerOutcome, now: Time, j: nat)
    requires j < |table| && forall i :: 0 <= i < |ids| ==> IsPending(table, ids[i])
    ensures |PersistentAhead(Batch(table, ids, outcomes, now), j)| <= |PersistentAhead(table, j)|
  {
    var after := Batch(table, ids, outcomes, now);
    assert PersistentAhead(after, j) <= PersistentAhead(table, j);
    SubsetSize(PersistentAhead(after, j), PersistentAhead(table, j));
  }

  lemma EnqueueKeepsWait(table: seq<Job>, command: EnqueueCommand, j: nat)
    requires j < |table| && table[j].createdAt < command.now
    ensures var after := Enqueue(table, command).0;
            && |table| <= |after| && after[j] == table[j]
            && Wait(after, j) == Wait(table, j)
            && PersistentAhead(after, j) == PersistentAhead(table, j)
  {
    var after := Enqueue(table, command).0;
    if after != table {
      var weights := AttemptsAhead(after, j);
      assert weights[..|weights| - 1] == AttemptsAhead(table, j);
      assert PersistentAhead(after, j) == PersistentAhead(table, j);
    }
  }

  /**
   No starvation: an ordinary pending job with fewer persistent-retry jobs ahead of it than
   the batch limit is claimed by the time 1 + (attempts remaining to ordinary jobs ahead)
   batches have run, whatever the handlers return, however the database orders jobs of the
   same instant, and whatever is enqueued later.
   */
  lemma {:induction false} NoStarvation(table: seq<Job>, events: seq<Event>, j: nat, limit: nat)
    requires Inv(table) && ValidRun(table, events)
    requires IsPending(table, j) && |PersistentAhead(table, j)| < limit
    requires forall e :: e in events && e.BatchEvent? ==> e.limit == limit
    requires forall e :: e in events && e.EnqueueEvent? ==> table[j].createdAt < e.command.now
    requires Wait(table, j) <= Batches(events)
    ensures ClaimedIn(events, j)
    decreases |events|
  {
    var e, rest := events[0], events[1..];
    assert e in events;
    if e.BatchEvent? && j in e.ids {
    } else {
      NextKeepsInv(table, e);
      if e.BatchEvent? {
        BatchAdvances(table, e.ids, limit, e.outcomes, e.now, j);
      } else {
        EnqueueKeepsWait(table, e.command, j);
      }
      NoStarvation(Next(table, e), rest, j, limit);
      var i :| 0 <= i < |rest| && rest[i].BatchEvent? && j in rest[i].ids;
      assert events[i + 1] == rest[i];
    }
  }

  // ---- the condition on persistent-retry jobs is exact

  lemma {:induction false} OldestOf(table: seq<Job>, pool: set<nat>) returns (m: nat)
    requires pool != {} && forall x :: x in pool ==> x < |table|
    ensures m in pool && forall x :: x in pool ==> table[m].createdAt <= table[x].createdAt
  {
    m :| m in pool;
    if pool != {m} {
      var other := OldestOf(table, pool - {m});
      m := if table[m].createdAt <= table[other].createdAt then m else other;
    }
  }

  lemma {:induction false} OldestFirstOf(table: seq<Job>, pool: set<nat>, limit: nat) returns (ids: seq<nat>)
    requires limit <= |pool| && forall x :: x in pool ==> x < |table|
    ensures |ids| == limit
    ensures forall i :: 0 <= i < |ids| ==> ids[i] in pool
    ensures forall i, j :: 0 <= i < j < |ids| ==> ids[i] != ids[j] && table[ids[i]].createdAt <= table[ids[j]].createdAt
    ensures forall x, i :: x in pool && x !in ids && 0 <= i < |ids| ==> table[ids[i]].createdAt <= table[x].createdAt
  {
    if limit == 0 {
      ids := [];
    } else {
      var m := OldestOf(table, pool);
      var rest := OldestFirstOf(table, pool - {m}, limit - 1);
      ids := [m] + rest;
    }
  }

  /** With enough jobs ahead of it, a claim can be filled without job j. */
  lemma ClaimWithout(table: seq<Job>, j: nat, limit: nat, ahead: set<nat>) returns (ids: seq<nat>)
    requires IsPending(table, j) && limit <= |ahead|
    requires forall x :: x in ahead ==> IsPending(table, x) && IsAhead(table, x, j)
    ensures IsOldestFirst(table, ids, limit) && j !in ids
  {
    var pool := (set x: nat | x < |table| && table[x].status.Pending?) - {j};
    assert ahead <= pool;
    SubsetSize(ahead, pool);
    ids := OldestFirstOf(table, pool, limit);
    forall i | 0 <= i < |ids| ensures table[ids[i]].createdAt <= table[j].createdAt {
      if table[j].createdAt < table[ids[i]].createdAt {
        forall x | x in ahead ensures x in ids && x != ids[i] {
          assert IsAhead(table, x, j);
        }
        var others := ids[..i] + ids[i + 1..];
        assert ids == ids[..i] + [ids[i]] + ids[i + 1..];
        CoversAtMost(others, ahead);
        assert false;
      }
    }
  }

  lemma {:induction false} CoversAtMost(ids: seq<nat>, covered: set<nat>)
    requires forall x :: x in covered ==> x in ids
    ensures |covered| <= |ids|
  {
    if ids != [] {
      var last := ids[|ids| - 1];
      CoversAtMost(ids[..|ids| - 1], covered - {last});
    }
  }

  /**
   The bound on persistent-retry jobs cannot be dropped: with `limit` of them pending ahead
   and every handler raising, job j can be passed over in any number of batches.
   */
  lemma {:induction false} PersistentJobsCanStarve(table: seq<Job>, j: nat, limit: nat, batches: nat)
    returns (events: seq<Event>)
    requires Inv(table) && IsPending(table, j) && 1 <= limit <= |PersistentAhead(table, j)|
    ensures ValidRun(table, events) && |events| == batches
    ensures forall e :: e in events ==> e.BatchEvent? && e.limit == limit
    ensures !ClaimedIn(events, j)
    decreases batches
  {
    if batches == 0 {
      events := [];
    } else {
      var ids := ClaimWithout(table, j, limit, PersistentAhead(table, j));
      var outcomes := (i: nat) => Raised("down");
      var e := BatchEvent(limit, ids, outcomes, 0);
      var after := Next(table, e);
      BatchKeepsInv(table, ids, limit, outcomes, 0);
      forall x | x in PersistentAhead(table, j) ensures x in PersistentAhead(after, j) {
        if x in ids {
          RunClaimed(table[x], outcomes(x), 0);
        }
      }
      SubsetSize(PersistentAhead(table, j), PersistentAhead(after, j));
      var rest := PersistentJobsCanStarve(after, j, limit, batches - 1);
      events := [e] + rest;
      assert events[1..] == rest;
    }
  }

  // ---- draining

  ghost predicate NoPersistentLeft(table: seq<Job>) {
    forall i :: 0 <= i < |table| && table[i].IsUnfinished() ==> !table[i].IsPersistent()
  }

  ghost predicate AllTerminal(table: seq<Job>) {
    forall i :: 0 <= i < |table| ==> table[i].status.IsTerminal()
  }

  function AttemptsLeft(table: seq<Job>): seq<nat> {
    seq(|table|, i requires 0 <= i < |table| => Remaining(table[i]))
  }

  lemma BatchDrains(table: seq<Job>, ids: seq<nat>, limit: nat, outcomes: nat -> HandlerOutcome, now: Time)
    requires Inv(table) && NoPersistentLeft(table) && limit >= 1 && IsOldestFirst(table, ids, limit)
    ensures var after := Batch(table, ids, outcomes, now);
            && NoPersistentLeft(after)
            && (!AllTerminal(table) ==> Sum(AttemptsLeft(after)) < Sum(AttemptsLeft(table)))
            && (AllTerminal(table) ==> after == table)
  {
    var after := Batch(table, ids, outcomes, now);
    BatchKeepsInv(table, ids, limit, outcomes, now);
    forall i | 0 <= i < |table|
      ensures Remaining(after[i]) <= Remaining(table[i]) && (i in ids ==> Remaining(after[i]) < Remaining(table[i]))
      ensures after[i].IsUnfinished() ==> !after[i].IsPersistent() {
      assert SameRequest(table[i], after[i]);
      if i in ids {
        RunClaimed(table[i], outcomes(i), now);
      }
    }
    if !AllTerminal(table) {
      var i :| 0 <= i < |table| && !table[i].status.IsTerminal();
      assert IsPending(table, i);
      assert ids != [];
      SumSmaller(AttemptsLeft(after), AttemptsLeft(table), ids[0]);
    }
  }

  /**
   Draining: with nothing enqueued and no persistent-retry job left, every job is terminal
   once as many batches have run as there were attempts remaining, and stays so.
   */
  lemma {:induction false} QueueDrains(table: seq<Job>, events: seq<Event>)
    requires Inv(table) && NoPersistentLeft(table) && ValidRun(table, events)
    requires forall e :: e in events ==> e.BatchEvent?
    requires Sum(AttemptsLeft(table)) <= |events|
    ensures AllTerminal(Run(table, events))
    decreases |events|
  {
    if events == [] {
      forall i | 0 <= i < |table| ensures table[i].status.IsTerminal() {
        PositiveSum(AttemptsLeft(table), i);
      }
    } else {
      var e := events[0];
      assert e in events;
      BatchDrains(table, e.ids, e.limit, e.outcomes, e.now);
      NextKeepsInv(table, e);
      if AllTerminal(table) {
        forall i | 0 <= i < |table| ensures AttemptsLeft(table)[i] == 0 {}
        ZeroSum(AttemptsLeft(table));
      }
      QueueDrains(Next(table, e), events[1..]);
    }
  }

  lemma {:induction false} PositiveSum(weights: seq<nat>, k: nat)
    requires k < |weights|
    ensures weights[k] <= Sum(weights)
  {
    if k < |weights| - 1 {
      PositiveSum(weights[..|weights| - 1], k);
    }
  }

  lemma {:induction false} ZeroSum(weights: seq<nat>)
    requires forall i :: 0 <= i < |weights| ==> weights[i] == 0
    ensures Sum(weights) == 0
  {
    if weights != [] {
      ZeroSum(weights[..|weights| - 1]);
    }
  }
}
