/** What each statement does to the rows its transaction sees, and what a transaction's end does to the table. */
module TriggerResults {
  import opened Wrappers
  import opened SuperAdminProtection

  /** The row is an active super admin, field by field. */
  predicate IsAdmin(v: Version) {
    v.Some? && v.value.isSuperAdmin && v.value.active && !v.value.deleted
  }

  /** Transaction t is still open and at rest, and sees one row changed and every other as before. */
  ghost predicate Wrote(s: State, s': State, t: TxId, u: UserId, next: Version)
    requires t in s.txs
  {
    && t in s'.txs && s'.txs[t].phase.Idle?
    && Visible(s', t, u) == next
    && forall w :: w != u ==> Visible(s', t, w) == Visible(s, t, w)
  }

  /** Neither the table nor another transaction notices. */
  ghost predicate OnlyOwn(s: State, s': State, t: TxId) {
    && s'.committed == s.committed
    && forall other :: other != t ==>
         (other in s'.txs <==> other in s.txs) && (other in s.txs ==> s'.txs[other] == s.txs[other])
  }

  ghost predicate SeesOtherAdmin(s: State, t: TxId, u: UserId)
    requires t in s.txs
  {
    exists w :: w != u && IsAdmin(Visible(s, t, w))
  }

  /** A row can be written by a transaction at rest that sees it, if no other transaction has it locked. */
  lemma WriteResult(serialized: bool, s: State, t: TxId, u: UserId, next: Version)
    requires t in s.txs
    ensures var s' := Next(serialized, s, Write(t, u, next));
            if s.txs[t].phase.Idle? && Visible(s, t, u).Some? && !LockedByAnother(s, t, u)
            then && OnlyOwn(s, s', t) && t in s'.txs && s'.txs[t].phase == Firing(u, next)
                 && s'.lockHolder == s.lockHolder
                 && forall w :: Visible(s', t, w) == Visible(s, t, w)
            else s' == s
  {
  }

  /** So can a new row; no trigger stands in its way. */
  lemma InsertResult(serialized: bool, s: State, t: TxId, u: UserId, row: UserRow)
    requires t in s.txs
    ensures var s' := Next(serialized, s, Insert(t, u, row));
            if s.txs[t].phase.Idle? && Visible(s, t, u).None? && !LockedByAnother(s, t, u)
            then Wrote(s, s', t, u, Some(row)) && OnlyOwn(s, s', t) && s'.lockHolder == s.lockHolder
            else s' == s
  {
  }

  /** An update or delete that takes no active super admin away is written as requested, and takes no lock. */
  lemma HarmlessWritePasses(serialized: bool, s: State, t: TxId)
    requires t in s.txs && s.txs[t].phase.Firing?
    requires !IsAdmin(Visible(s, t, s.txs[t].phase.user)) || IsAdmin(s.txs[t].phase.next)
    ensures var s' := Next(serialized, s, Fire(t));
            && Wrote(s, s', t, s.txs[t].phase.user, s.txs[t].phase.next)
            && OnlyOwn(s, s', t) && s'.lockHolder == s.lockHolder
  {
  }

  /** One that does, while another transaction holds the lock, waits. */
  lemma RemovalWaits(s: State, t: TxId)
    requires t in s.txs && s.txs[t].phase.Firing?
    requires IsAdmin(Visible(s, t, s.txs[t].phase.user)) && !IsAdmin(s.txs[t].phase.next)
    requires s.lockHolder.Some? && s.lockHolder != Some(t)
    ensures Next(true, s, Fire(t)) == s
  {
  }

  /**
   With the lock to be had, it is refused exactly when the transaction sees no other active
   super admin, and the refusal ends the transaction; otherwise it is written as requested,
   and the transaction holds the lock.
   */
  lemma RemovalResult(s: State, t: TxId)
    requires t in s.txs && s.txs[t].phase.Firing?
    requires IsAdmin(Visible(s, t, s.txs[t].phase.user)) && !IsAdmin(s.txs[t].phase.next)
    requires s.lockHolder.None? || s.lockHolder == Some(t)
    ensures var u, next := s.txs[t].phase.user, s.txs[t].phase.next;
            var s' := Next(true, Next(true, Next(true, s, Fire(t)), Count(t)), Decide(t));
            && OnlyOwn(s, s', t)
            && (t !in s'.txs <==> !SeesOtherAdmin(s, t, u))
            && (t in s'.txs ==> Wrote(s, s', t, u, next) && s'.lockHolder == Some(t))
            && (t !in s'.txs ==> s'.lockHolder.None?)
  {
    var u := s.txs[t].phase.user;
    var locked := Next(true, s, Fire(t));
    assert forall w :: Visible(locked, t, w) == Visible(s, t, w);
    var others := OtherAdmins(locked, t, u);
    if SeesOtherAdmin(s, t, u) {
      var w :| w != u && IsAdmin(Visible(s, t, w));
      assert w in others;
    }
    if others != {} {
      var w :| w in others;
      assert IsAdmin(Visible(s, t, w));
    }
  }

  /** A commit makes the table what its transaction saw, row for row, and releases the lock. */
  lemma CommitResult(serialized: bool, s: State, t: TxId)
    requires t in s.txs && s.txs[t].phase.Idle?
    ensures var s' := Next(serialized, s, Commit(t));
            && (forall w :: CommittedVersion(s', w) == Visible(s, t, w))
            && s'.txs.Keys == s.txs.Keys - {t}
            && (forall other :: other in s'.txs ==> s'.txs[other] == s.txs[other])
            && s'.lockHolder != Some(t) && (s.lockHolder != Some(t) ==> s'.lockHolder == s.lockHolder)
  {
  }

  /** A rollback leaves the table as it was. */
  lemma RollbackResult(serialized: bool, s: State, t: TxId)
    requires t in s.txs
    ensures var s' := Next(serialized, s, Rollback(t));
            && OnlyOwn(s, s', t) && t !in s'.txs
            && s'.lockHolder != Some(t) && (s.lockHolder != Some(t) ==> s'.lockHolder == s.lockHolder)
  {
  }

  /** A row that no transaction has written reads as committed. */
  lemma BeginResult(serialized: bool, s: State, t: TxId)
    requires t !in s.txs
    ensures var s' := Next(serialized, s, Begin(t));
            && OnlyOwn(s, s', t) && t in s'.txs && s'.txs[t].phase.Idle? && s'.lockHolder == s.lockHolder
            && forall w :: Visible(s', t, w) == CommittedVersion(s, w)
  {
  }

  /** From begin to commit: an update of a row nobody has locked is in the table, and no other row changed. */
  lemma UpdateIsCommitted(serialized: bool, s: State, t: TxId, u: UserId, next: Version)
    requires t !in s.txs && CommittedVersion(s, u).Some? && !LockedByAnother(s, t, u)
    requires !IsAdmin(CommittedVersion(s, u)) || IsAdmin(next)
    ensures var s1 := Next(serialized, Next(serialized, s, Begin(t)), Write(t, u, next));
            var s' := Next(serialized, Next(serialized, s1, Fire(t)), Commit(t));
            && CommittedVersion(s', u) == next
            && forall w :: w != u ==> CommittedVersion(s', w) == CommittedVersion(s, w)
  {
    BeginResult(serialized, s, t);
    var begun := Next(serialized, s, Begin(t));
    assert !LockedByAnother(begun, t, u);
    WriteResult(serialized, begun, t, u, next);
    var firing := Next(serialized, begun, Write(t, u, next));
    HarmlessWritePasses(serialized, firing, t);
    CommitResult(serialized, Next(serialized, firing, Fire(t)), t);
  }

  /** The main result with the admin spelled out. */
  lemma SomeAdminStays(committed: map<UserId, UserRow>, events: seq<Event>, u: UserId) returns (w: UserId)
    requires u in committed && committed[u].isSuperAdmin && committed[u].active && !committed[u].deleted
    ensures var after := Run(true, State(committed, map[], None), events).committed;
            w in after && after[w].isSuperAdmin && after[w].active && !after[w].deleted
  {
    var s := State(committed, map[], None);
    assert Protected(CommittedVersion(s, u));
    LastAdminSurvives(committed, events);
    w :| Protected(CommittedVersion(Run(true, s, events), w));
  }
}
