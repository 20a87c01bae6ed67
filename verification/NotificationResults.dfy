/** Where each send and each dispatch leaves its notification, and which others it touches. */
module NotificationResults {
  import opened Wrappers
  import opened Notifications

  /** Email of an organization goes out only while its setting allows it; email of the platform always does. */
  predicate MayEmail(organization: Option<nat>, setting: bool) {
    organization.Some? ==> setting
  }

  predicate HasKey(row: Notification, command: SendCommand) {
    row.idempotencyKey == command.idempotencyKey && row.organization == command.organization
  }

  /** The row stands for the command, whatever its status. */
  predicate StandsFor(row: Notification, command: SendCommand) {
    && row.organization == command.organization && row.channel == command.channel
    && row.content == command.content && row.idempotencyKey == command.idempotencyKey
  }

  /** Sending stores one new notification, unless the request is refused or its key is known. */
  lemma SendStoresOne(s: State, command: SendCommand, setting: bool, enqueue: EnqueueOutcome)
    requires Aligned(s)
    ensures var (s', r) := Send(s, command, setting, enqueue);
            var known := command.idempotencyKey.Some? && exists row :: row in s.table && HasKey(row, command);
            && (r == Err(InAppNeedsSystemScope) <==> command.channel.InApp? && command.organization.Some?)
            && (r.Ok? && !r.value.replay <==> !(command.channel.InApp? && command.organization.Some?) && !known)
            && (r.Err? || r.value.replay ==> s' == s)
            && (r.Ok? && r.value.replay ==> r.value.id < |s.table| && StandsFor(s.table[r.value.id], command))
            && (r.Ok? && !r.value.replay ==>
                  && r.value.id == |s.table| && |s'.table| == |s.table| + 1 && s'.table[..|s.table|] == s.table
                  && StandsFor(s'.table[|s.table|], command)
                  && s'.calls == s.calls + [[]] && s'.lost == s.lost + [[]])
  {
    var found := FindByIdempotency(s.table, command);
    if found.Some? {
      assert s.table[found.value] in s.table && HasKey(s.table[found.value], command);
    } else {
      forall row | row in s.table && command.idempotencyKey.Some? ensures !HasKey(row, command) {
        var k :| 0 <= k < |s.table| && s.table[k] == row;
        assert !command.Matches(s.table[k]);
      }
    }
  }

  /** The status the new notification has, and how it came to it. */
  lemma SentStatus(s: State, command: SendCommand, setting: bool, enqueue: EnqueueOutcome)
    requires Aligned(s)
    requires Send(s, command, setting, enqueue).1.Ok? && !Send(s, command, setting, enqueue).1.value.replay
    ensures var s' := Send(s, command, setting, enqueue).0;
            |s'.table| == |s.table| + 1 == |s'.saves|
    ensures var s' := Send(s, command, setting, enqueue).0;
            var row, saves := s'.table[|s.table|], s'.saves[|s.table|];
            if command.channel.InApp? then
              row.status == Sent && row.sentAt == Some(command.now) && saves == [Pending, Sent]
            else if !MayEmail(command.organization, setting) then
              row.status == Suppressed && row.suppressedAt == Some(command.now) && saves == [Suppressed]
            else match enqueue
              case Enqueued(jobId) =>
                && row.status == Queued && row.jobId == Some(jobId) && row.queuedAt == Some(command.now)
                && saves == [Pending, Queued]
              case EnqueueRaised(message) =>
                && row.status == Failed && row.failedAt == Some(command.now) && row.jobId.None?
                && row.failureReason == Some(FailureReason(message, "enqueue_failed")) && saves == [Pending, Failed]
  {
  }

  /** No other notification notices a dispatch. */
  lemma DispatchLeavesOthers(
    s: State, id: Id, setting: bool, hasAdapter: bool, delivery: Delivery, now: Time, other: Id)
    requires Aligned(s) && other < |s.table| && other != id
    ensures var s' := Dispatch(s, id, setting, hasAdapter, delivery, now).0;
            && s'.table[other] == s.table[other] && s'.saves[other] == s.saves[other]
            && s'.calls[other] == s.calls[other] && s'.lost == s.lost
  {
  }

  /** A notification that is not there, or settled, is left as it is. */
  lemma SettledStays(s: State, id: Id, setting: bool, hasAdapter: bool, delivery: Delivery, now: Time)
    requires Inv(s) && (id < |s.table| ==> s.table[id].status in {Sent, Failed, Suppressed})
    ensures Dispatch(s, id, setting, hasAdapter, delivery, now) ==
            (s, if id < |s.table| then Ok(DispatchResult(s.table[id].status, true)) else Err(NotFound))
  {
  }

  /** A failed row: when and why. */
  predicate FailedWith(before: Notification, after: Notification, message: string, code: string, now: Time) {
    after == before.(status := Failed, failureReason := Some(FailureReason(message, code)), failedAt := Some(now))
  }

  /**
   A queued email is suppressed without a call if its organization's email is off; fails
   without a call if there is no adapter or rendering raises; and otherwise ends as the one
   adapter call does.
   */
  lemma QueuedResult(s: State, id: Id, setting: bool, hasAdapter: bool, delivery: Delivery, now: Time)
    requires Inv(s) && id < |s.table| && s.table[id].status == Queued
    requires Dispatch(s, id, setting, hasAdapter, delivery, now).1 != Err(Interrupted)
    ensures var (s', r) := Dispatch(s, id, setting, hasAdapter, delivery, now);
            var before, after, calls := s.table[id], s'.table[id], s'.calls[id];
            && r == Ok(DispatchResult(after.status, false))
            && (!MayEmail(before.organization, setting) ==>
                  && after == before.(status := Suppressed, suppressedAt := Some(now)) && calls == [])
            && (MayEmail(before.organization, setting) && !hasAdapter ==>
                  FailedWith(before, after, "No adapter registered for channel email", "unsupported_channel", now)
                  && calls == [])
            && (MayEmail(before.organization, setting) && hasAdapter ==>
                  match delivery
                  case RenderRefused(message) =>
                    FailedWith(before, after, message, "dispatch_failed", now) && calls == []
                  case RenderRaised =>
                    FailedWith(before, after, "Notification dispatch failed", "dispatch_error", now) && calls == []
                  case Called(CallReturned) =>
                    after == before.(status := Sent, sentAt := Some(now)) && calls == [CallReturned]
                  case Called(CallRefused(message)) =>
                    FailedWith(before, after, message, "dispatch_failed", now) && calls == [CallRefused(message)]
                  case Called(CallRaised) =>
                    FailedWith(before, after, "Notification dispatch failed", "dispatch_error", now)
                    && calls == [CallRaised]
                  case _ => false)
  {
    assert Consistent(s.table[id], s.saves[id], s.calls[id]);
    assert "No adapter registered for channel " + "email" == "No adapter registered for channel email";
  }

  /** The handler's answer stands only if its transaction commits; otherwise no row differs, and the call is lost. */
  lemma HandleResult(
    s: State, id: Id, setting: bool, hasAdapter: bool, delivery: Delivery, committed: bool, now: Time)
    requires Inv(s)
    ensures var (dispatched, outcome) := Dispatch(s, id, setting, hasAdapter, delivery, now);
            var (s', r) := Handle(s, id, setting, hasAdapter, delivery, committed, now);
            && (committed && outcome.Ok? ==> (s', r) == (dispatched, outcome))
            && (!committed || outcome.Err? ==>
                  && r.Err? && s' == s.(lost := s'.lost) && (outcome.Err? ==> r.error == outcome.error)
                  && (outcome.Ok? ==> r.error == CommitFailed))
            && (id < |s.table| ==> |s'.calls[id]| + |s'.lost[id]| == |dispatched.calls[id]| + |s.lost[id]|)
  {
    if id < |s.table| {
      assert |s.calls[id]| <= |Dispatch(s, id, setting, hasAdapter, delivery, now).0.calls[id]|;
    }
  }

  /** A run goes through sends and handled dispatches one after the other. */
  lemma StepsAreOperations(s: State, e: Event, rest: seq<Event>)
    requires Aligned(s)
    ensures Run(s, [e] + rest) == Run(Next(s, e), rest)
    ensures e.SendEvent? ==> Next(s, e) == Send(s, e.command, e.emailSetting, e.enqueue).0
    ensures e.DispatchEvent? ==>
              Next(s, e) == Handle(s, e.id, e.setting, e.hasAdapter, e.delivery, e.committed, e.now).0
  {
    assert ([e] + rest)[1..] == rest;
  }
}
