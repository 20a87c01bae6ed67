/**
 Protection of the last active super admin by a row trigger that serializes removals with
 one transaction-scoped advisory lock.

 Transactions run under READ COMMITTED isolation and interleave between any two steps.
 A transaction sees the committed rows overlaid with its own writes, never the writes of
 another open transaction. A written row stays locked by its writer until that
 transaction ends. The trigger of an UPDATE or DELETE runs once the row lock is held, and
 takes three steps of its own (lock, count, decide), with any interleaving between them.
 */
module SuperAdminProtection {
  import opened Wrappers

  type UserId = nat
  type TxId = nat

  datatype UserRow = UserRow(isSuperAdmin: bool, active: bool, deleted: bool) {
    predicate IsActiveSuperAdmin() {
      isSuperAdmin && active && !deleted
    }
  }

  /** The version a statement leaves behind: None for a deleted row. */
  type Version = Option<UserRow>

  predicate Protected(v: Version) {
    v.Some? && v.value.IsActiveSuperAdmin()
  }

  datatype Phase =
    | Idle
    | Firing(user: UserId, next: Version)
    | Counting(user: UserId, next: Version)
    | Counted(user: UserId, next: Version, others: nat)

  datatype Transaction = Transaction(writes: map<UserId, Version>, phase: Phase) {
    /** The rows this transaction has locked. */
    predicate Locks(u: UserId) {
      u in writes || (!phase.Idle? && phase.user == u)
    }
  }

  datatype State = State(
    committed: map<UserId, UserRow>,
    txs: map<TxId, Transaction>,
    lockHolder: Option<TxId>)

  function CommittedVersion(s: State, u: UserId): Version {
    if u in s.committed then Some(s.committed[u]) else None
  }

  /** What transaction t reads for row u. */
  function Visible(s: State, t: TxId, u: UserId): Version
    requires t in s.txs
  {
    if u in s.txs[t].writes then s.txs[t].writes[u] else CommittedVersion(s, u)
  }

  /** The rows the trigger's COUNT query selects. */
  function OtherAdmins(s: State, t: TxId, u: UserId): set<UserId>
    requires t in s.txs
  {
    set w | w in s.committed.Keys + s.txs[t].writes.Keys && w != u && Protected(Visible(s, t, w))
  }

  predicate Removes(current: Version, next: Version) {
    Protected(current) && !Protected(next)
  }

  predicate LockedByAnother(s: State, t: TxId, u: UserId) {
    exists other :: other in s.txs && other != t && s.txs[other].Locks(u)
  }

  datatype Event =
    | Begin(tx: TxId)
    | Insert(tx: TxId, user: UserId, row: UserRow)
    | Write(tx: TxId, user: UserId, next: Version)
    | Fire(tx: TxId)
    | Count(tx: TxId)
    | Decide(tx: TxId)
    | Commit(tx: TxId)
    | Rollback(tx: TxId)

  function Continue(s: State, t: TxId, phase: Phase): State
    requires t in s.txs
  {
    s.(txs := s.txs[t := s.txs[t].(phase := phase)])
  }

  function Apply(s: State, t: TxId, u: UserId, next: Version): State
    requires t in s.txs
  {
    s.(txs := s.txs[t := Transaction(s.txs[t].writes[u := next], Idle)])
  }

  /** Ending a transaction releases its row locks and its advisory lock. */
  function End(s: State, t: TxId, committed: map<UserId, UserRow>): State {
    State(committed, s.txs - {t}, if s.lockHolder == Some(t) then None else s.lockHolder)
  }

  function Published(s: State, t: TxId): map<UserId, UserRow>
    requires t in s.txs
  {
    map u | u in s.committed.Keys + s.txs[t].writes.Keys && Visible(s, t, u).Some?
      :: Visible(s, t, u).value
  }

  /**
   One step. An event that is not enabled, such as a statement waiting for a lock, leaves
   the state as it is. With serialized false the trigger is the earlier one, which counts
   without taking the advisory lock.
   */
  function Next(serialized: bool, s: State, e: Event): State {
    var t := e.tx;
    if e.Begin? then
      if t in s.txs then s else s.(txs := s.txs[t := Transaction(map[], Idle)])
    else if t !in s.txs then s
    else
      var tx := s.txs[t];
      match e
      case Insert(_, u, row) =>
        if tx.phase.Idle? && Visible(s, t, u).None? && !LockedByAnother(s, t, u)
        then Apply(s, t, u, Some(row)) else s
      case Write(_, u, next) =>
        if tx.phase.Idle? && Visible(s, t, u).Some? && !LockedByAnother(s, t, u)
        then Continue(s, t, Firing(u, next)) else s
      case Fire(_) =>
        if !tx.phase.Firing? then s
        else if !Removes(Visible(s, t, tx.phase.user), tx.phase.next) then
          Apply(s, t, tx.phase.user, tx.phase.next)
        else if !serialized then
          Continue(s, t, Counting(tx.phase.user, tx.phase.next))
        else if s.lockHolder.None? || s.lockHolder == Some(t) then
          Continue(s.(lockHolder := Some(t)), t, Counting(tx.phase.user, tx.phase.next))
        else s
      case Count(_) =>
        if !tx.phase.Counting? then s
        else Continue(s, t, Counted(tx.phase.user, tx.phase.next, |OtherAdmins(s, t, tx.phase.user)|))
      case Decide(_) =>
        if !tx.phase.Counted? then s
        else if tx.phase.others == 0 then End(s, t, s.committed)
        else Apply(s, t, tx.phase.user, tx.phase.next)
      case Commit(_) =>
        if tx.phase.Idle? then End(s, t, Published(s, t)) else s
      case Rollback(_) => End(s, t, s.committed)
  }

  function Run(serialized: bool, s: State, events: seq<Event>): State
    decreases |events|
  {
    if events == [] then s else Run(serialized, Next(serialized, s, events[0]), events[1..])
  }

  lemma RunTwo(serialized: bool, s: State, first: Event, second: Event, rest: seq<Event>)
    ensures Run(serialized, s, [first, second] + rest) ==
            Run(serialized, Next(serialized, Next(serialized, s, first), second), rest)
  {
    assert ([first, second] + rest)[1..] == [second] + rest;
    assert ([second] + rest)[1..] == rest;
  }

  ghost predicate HasAdmin(s: State) {
    exists u :: Protected(CommittedVersion(s, u))
  }

  /** Transaction t can see an active super admin other than `except`. */
  ghost predicate SeesOther(s: State, t: TxId, except: UserId)
    requires t in s.txs
  {
    exists u :: u != except && Protected(Visible(s, t, u))
  }

  ghost predicate SeesAdmin(s: State, t: TxId)
    requires t in s.txs
  {
    exists u :: Protected(Visible(s, t, u))
  }

  /** Committing t would take an active super admin away. */
  ghost predicate PendingRemoval(s: State, t: TxId)
    requires t in s.txs
  {
    exists u :: Removes(CommittedVersion(s, u), Visible(s, t, u))
  }

  ghost predicate RowLocksExclusive(s: State) {
    forall t1, t2, u :: t1 in s.txs && t2 in s.txs && t1 != t2 && s.txs[t1].Locks(u) ==> !s.txs[t2].Locks(u)
  }

  /** What the lock buys: its holder is the only one removing, and still sees an admin. */
  ghost predicate Guarded(s: State, t: TxId)
    requires t in s.txs
  {
    && (PendingRemoval(s, t) ==> s.lockHolder == Some(t))
    && (s.lockHolder == Some(t) ==> SeesAdmin(s, t))
    && (s.txs[t].phase.Counting? || s.txs[t].phase.Counted? ==> s.lockHolder == Some(t))
    && (s.txs[t].phase.Counted? && s.txs[t].phase.others > 0 ==> SeesOther(s, t, s.txs[t].phase.user))
  }

  ghost predicate Inv(s: State) {
    && HasAdmin(s)
    && RowLocksExclusive(s)
    && (s.lockHolder.Some? ==> s.lockHolder.value in s.txs)
    && forall t :: t in s.txs ==> Guarded(s, t)
  }

  /** A transaction that removes nothing still sees every committed admin. */
  lemma WithoutRemovalSeesAdmin(s: State, t: TxId)
    requires HasAdmin(s) && t in s.txs && !PendingRemoval(s, t)
    ensures SeesAdmin(s, t)
  {
    var u :| Protected(CommittedVersion(s, u));
    assert !Removes(CommittedVersion(s, u), Visible(s, t, u));
  }

  /** Nobody else is affected by a step inside t that publishes nothing. */
  lemma OthersUnaffected(s: State, s': State, t: TxId, other: TxId)
    requires Inv(s) && other in s.txs && other in s'.txs && other != t
    requires s'.committed == s.committed && s'.txs[other] == s.txs[other]
    requires s'.lockHolder == s.lockHolder || s'.lockHolder == Some(t) || s.lockHolder == Some(t)
    requires s.lockHolder == Some(other) ==> s'.lockHolder == Some(other)
    requires s'.lockHolder == Some(other) ==> s.lockHolder == Some(other)
    ensures Guarded(s', other)
  {
    assert Guarded(s, other);
    assert forall u :: Visible(s', other, u) == Visible(s, other, u);
    assert forall u :: CommittedVersion(s', u) == CommittedVersion(s, u);
    if PendingRemoval(s', other) {
      var u :| Removes(CommittedVersion(s', u), Visible(s', other, u));
      assert Removes(CommittedVersion(s, u), Visible(s, other, u));
    }
    if s'.lockHolder == Some(other) {
      var u :| Protected(Visible(s, other, u));
      assert Protected(Visible(s', other, u));
    }
    if s.txs[other].phase.Counted? && s.txs[other].phase.others > 0 {
      var u :| u != s.txs[other].phase.user && Protected(Visible(s, other, u));
      assert Protected(Visible(s', other, u));
    }
  }

  /** Ending t without publishing its writes keeps the invariant. */
  lemma EndKeepsInv(s: State, t: TxId)
    requires Inv(s) && t in s.txs
    ensures Inv(End(s, t, s.committed))
  {
    var s' := End(s, t, s.committed);
    var u :| Protected(CommittedVersion(s, u));
    assert Protected(CommittedVersion(s', u));
    forall other | other in s'.txs ensures Guarded(s', other) {
      OthersUnaffected(s, s', t, other);
    }
  }

  /** A commit publishes exactly what its transaction saw. */
  lemma CommitKeepsInv(s: State, t: TxId)
    requires Inv(s) && t in s.txs
    ensures Inv(End(s, t, Published(s, t)))
  {
    var s' := End(s, t, Published(s, t));
    assert Guarded(s, t);
    assert forall u :: CommittedVersion(s', u) == Visible(s, t, u);
    if !PendingRemoval(s, t) {
      WithoutRemovalSeesAdmin(s, t);
    }
    var admin :| Protected(Visible(s, t, admin));
    assert Protected(CommittedVersion(s', admin));
    forall other | other in s'.txs ensures Guarded(s', other) {
      CommitLeavesOther(s, t, other);
    }
  }

  lemma CommitLeavesOther(s: State, t: TxId, other: TxId)
    requires Inv(s) && t in s.txs && other in s.txs && other != t
    ensures Guarded(End(s, t, Published(s, t)), other)
  {
    var s' := End(s, t, Published(s, t));
    var tx := s.txs[other];
    assert Guarded(s, t) && Guarded(s, other);
    assert forall u :: CommittedVersion(s', u) == Visible(s, t, u);
    forall u | u in tx.writes ensures CommittedVersion(s', u) == CommittedVersion(s, u) {
      assert tx.Locks(u);
    }
    if PendingRemoval(s', other) {
      var u :| Removes(CommittedVersion(s', u), Visible(s', other, u));
      assert Removes(CommittedVersion(s, u), Visible(s, other, u));
    }
    if s.lockHolder == Some(other) {
      forall u | Protected(Visible(s, other, u)) ensures Protected(Visible(s', other, u)) {
        assert !Removes(CommittedVersion(s, u), Visible(s, t, u));
      }
    }
  }

  /** Applying a write that either removes nothing or was allowed by the count. */
  lemma ApplyKeepsInv(s: State, t: TxId, u: UserId, next: Version)
    requires Inv(s) && t in s.txs && !LockedByAnother(s, t, u)
    requires Removes(Visible(s, t, u), next) ==> s.lockHolder == Some(t) && SeesOther(s, t, u)
    ensures Inv(Apply(s, t, u, next))
  {
    var s' := Apply(s, t, u, next);
    var admin :| Protected(CommittedVersion(s, admin));
    assert Protected(CommittedVersion(s', admin));
    assert Guarded(s, t);
    assert forall w :: w != u ==> Visible(s', t, w) == Visible(s, t, w);
    assert Visible(s', t, u) == next;
    if PendingRemoval(s', t) {
      var w :| Removes(CommittedVersion(s', w), Visible(s', t, w));
      assert CommittedVersion(s', w) == CommittedVersion(s, w);
      assert Removes(CommittedVersion(s, w), Visible(s, t, w)) || Removes(Visible(s, t, u), next);
    }
    if s'.lockHolder == Some(t) {
      if Removes(Visible(s, t, u), next) {
        var w :| w != u && Protected(Visible(s, t, w));
        assert Protected(Visible(s', t, w));
      } else {
        var w :| Protected(Visible(s, t, w));
        assert Protected(Visible(s', t, w));
      }
    }
    forall other | other in s'.txs && other != t ensures Guarded(s', other) {
      OthersUnaffected(s, s', t, other);
    }
  }

  /** Moving t to another phase; the row named by the phase must be free to lock. */
  lemma ContinueKeepsInv(s: State, t: TxId, phase: Phase, holder: Option<TxId>)
    requires Inv(s) && t in s.txs
    requires !phase.Idle? && !LockedByAnother(s, t, phase.user)
    requires holder == s.lockHolder || (holder == Some(t) && s.lockHolder.None?)
    requires phase.Counting? || phase.Counted? ==> holder == Some(t)
    requires phase.Counted? && phase.others > 0 ==> SeesOther(s, t, phase.user)
    ensures Inv(Continue(s.(lockHolder := holder), t, phase))
  {
    var s' := Continue(s.(lockHolder := holder), t, phase);
    var admin :| Protected(CommittedVersion(s, admin));
    assert Protected(CommittedVersion(s', admin));
    assert Guarded(s, t);
    assert forall w :: Visible(s', t, w) == Visible(s, t, w);
    assert forall w :: CommittedVersion(s', w) == CommittedVersion(s, w);
    if PendingRemoval(s', t) {
      var w :| Removes(CommittedVersion(s', w), Visible(s', t, w));
      assert Removes(CommittedVersion(s, w), Visible(s, t, w));
    }
    if holder == Some(t) {
      if s.lockHolder != Some(t) {
        WithoutRemovalSeesAdmin(s, t);
      }
      var w :| Protected(Visible(s, t, w));
      assert Protected(Visible(s', t, w));
    }
    if phase.Counted? && phase.others > 0 {
      var w :| w != phase.user && Protected(Visible(s, t, w));
      assert Protected(Visible(s', t, w));
    }
    forall other | other in s'.txs && other != t ensures Guarded(s', other) {
      OthersUnaffected(s, s', t, other);
    }
  }

  lemma OwnPhaseRowIsFree(s: State, t: TxId)
    requires Inv(s) && t in s.txs && !s.txs[t].phase.Idle?
    ensures !LockedByAnother(s, t, s.txs[t].phase.user)
  {
    assert s.txs[t].Locks(s.txs[t].phase.user);
  }

  /** The invariant survives every step of the serialized trigger. */
  lemma NextKeepsInv(s: State, e: Event)
    requires Inv(s)
    ensures Inv(Next(true, s, e))
  {
    var t := e.tx;
    var s' := Next(true, s, e);
    if s' == s {
    } else if e.Begin? {
      var admin :| Protected(CommittedVersion(s, admin));
      assert Protected(CommittedVersion(s', admin));
      assert forall w :: Visible(s', t, w) == CommittedVersion(s', w);
      forall other | other in s'.txs && other != t ensures Guarded(s', other) {
        OthersUnaffected(s, s', t, other);
      }
    } else {
      var tx := s.txs[t];
      assert Guarded(s, t);
      match e
      case Insert(_, u, row) => ApplyKeepsInv(s, t, u, Some(row));
      case Write(_, u, next) => ContinueKeepsInv(s, t, Firing(u, next), s.lockHolder);
      case Fire(_) =>
        OwnPhaseRowIsFree(s, t);
        if Removes(Visible(s, t, tx.phase.user), tx.phase.next) {
          ContinueKeepsInv(s, t, Counting(tx.phase.user, tx.phase.next), Some(t));
        } else {
          ApplyKeepsInv(s, t, tx.phase.user, tx.phase.next);
        }
      case Count(_) =>
        OwnPhaseRowIsFree(s, t);
        var others := OtherAdmins(s, t, tx.phase.user);
        if |others| > 0 {
          var w :| w in others;
          assert Protected(Visible(s, t, w));
        }
        ContinueKeepsInv(s, t, Counted(tx.phase.user, tx.phase.next, |others|), s.lockHolder);
      case Decide(_) =>
        OwnPhaseRowIsFree(s, t);
        if tx.phase.others == 0 {
          EndKeepsInv(s, t);
        } else {
          ApplyKeepsInv(s, t, tx.phase.user, tx.phase.next);
        }
      case Commit(_) => CommitKeepsInv(s, t);
      case Rollback(_) => EndKeepsInv(s, t);
    }
  }

  lemma {:induction false} RunKeepsInv(s: State, events: seq<Event>)
    requires Inv(s)
    ensures Inv(Run(true, s, events))
    decreases |events|
  {
    if events != [] {
      NextKeepsInv(s, events[0]);
      RunKeepsInv(Next(true, s, events[0]), events[1..]);
    }
  }

  /**
   Main result: whatever transactions do and however they interleave, a database that has
   an active super admin committed never reaches a committed state without one.
   */
  lemma LastAdminSurvives(committed: map<UserId, UserRow>, events: seq<Event>)
    requires HasAdmin(State(committed, map[], None))
    ensures HasAdmin(Run(true, State(committed, map[], None), events))
  {
    RunKeepsInv(State(committed, map[], None), events);
  }

  /**
   The trigger refuses only what it must: with nobody else admitting or writing super
   admins between count and decision, a removal is refused exactly when the transaction
   sees no other active super admin.
   */
  lemma RefusedExactlyWhenLast(s: State, t: TxId)
    requires Inv(s) && t in s.txs && s.txs[t].phase.Counting?
    ensures var u := s.txs[t].phase.user;
            var s' := Next(true, Next(true, s, Count(t)), Decide(t));
            && (t !in s'.txs <==> !SeesOther(s, t, u))
            && (t in s'.txs ==> Visible(s', t, u) == s.txs[t].phase.next)
  {
    var u := s.txs[t].phase.user;
    var others := OtherAdmins(s, t, u);
    if SeesOther(s, t, u) {
      var w :| w != u && Protected(Visible(s, t, w));
      assert w in others;
    }
    if |others| > 0 {
      var w :| w in others;
      assert w != u && Protected(Visible(s, t, w));
    }
  }

  /** The user table with its open transactions, updated in place one step at a time. */
  class UserDatabase {
    var committed: map<UserId, UserRow>
    var txs: map<TxId, Transaction>
    var lockHolder: Option<TxId>

    function Snapshot(): State
      reads this
    {
      State(committed, txs, lockHolder)
    }

    constructor (users: map<UserId, UserRow>)
      ensures Snapshot() == State(users, map[], None)
    {
      committed, txs, lockHolder := users, map[], None;
    }

    /** The COUNT query of the trigger, over the rows transaction t can see. */
    method CountOthers(t: TxId, u: UserId) returns (n: nat)
      requires t in txs
      ensures n == |OtherAdmins(Snapshot(), t, u)|
    {
      var s := Snapshot();
      var unread := committed.Keys + txs[t].writes.Keys;
      ghost var selected: set<UserId> := {};
      n := 0;
      while unread != {}
        invariant unread <= committed.Keys + txs[t].writes.Keys
        invariant selected == OtherAdmins(s, t, u) - unread
        invariant n == |selected|
        decreases unread
      {
        var w :| w in unread;
        if w != u && Protected(Visible(s, t, w)) {
          n := n + 1;
          selected := selected + {w};
        }
        unread := unread - {w};
      }
    }

    /** The trigger's first step: lock when the write removes a super admin, else apply. */
    method Fire(t: TxId)
      requires t in txs && txs[t].phase.Firing?
      modifies this
      ensures Snapshot() == Next(true, old(Snapshot()), Event.Fire(t))
    {
      var phase := txs[t].phase;
      if !Removes(Visible(Snapshot(), t, phase.user), phase.next) {
        txs := txs[t := Transaction(txs[t].writes[phase.user := phase.next], Idle)];
      } else if lockHolder.None? || lockHolder == Some(t) {
        lockHolder := Some(t);
        txs := txs[t := txs[t].(phase := Phase.Counting(phase.user, phase.next))];
      }
    }

    /** The trigger's last step: raise when nobody else was counted, else apply. */
    method Decide(t: TxId) returns (raised: bool)
      requires t in txs && txs[t].phase.Counted?
      modifies this
      ensures Snapshot() == Next(true, old(Snapshot()), Event.Decide(t))
      ensures raised <==> t !in txs
    {
      var phase := txs[t].phase;
      raised := phase.others == 0;
      if raised {
        Finish(t, committed);
      } else {
        txs := txs[t := Transaction(txs[t].writes[phase.user := phase.next], Idle)];
      }
    }

    method Finish(t: TxId, published: map<UserId, UserRow>)
      requires t in txs
      modifies this
      ensures Snapshot() == End(old(Snapshot()), t, published)
    {
      committed := published;
      txs := txs - {t};
      if lockHolder == Some(t) {
        lockHolder := None;
      }
    }

    method Execute(e: Event)
      modifies this
      ensures Snapshot() == Next(true, old(Snapshot()), e)
    {
      var t := e.tx;
      if e.Begin? {
        if t !in txs {
          txs := txs[t := Transaction(map[], Idle)];
        }
        return;
      }
      if t !in txs {
        return;
      }
      var s := Snapshot();
      var tx := txs[t];
      match e
      case Insert(_, u, row) =>
        if tx.phase.Idle? && Visible(s, t, u).None? && !LockedByAnother(s, t, u) {
          txs := txs[t := Transaction(tx.writes[u := Some(row)], Idle)];
        }
      case Write(_, u, next) =>
        if tx.phase.Idle? && Visible(s, t, u).Some? && !LockedByAnother(s, t, u) {
          txs := txs[t := tx.(phase := Firing(u, next))];
        }
      case Fire(_) =>
        if tx.phase.Firing? {
          Fire(t);
        }
      case Count(_) =>
        if tx.phase.Counting? {
          var n := CountOthers(t, tx.phase.user);
          txs := txs[t := tx.(phase := Counted(tx.phase.user, tx.phase.next, n))];
        }
      case Decide(_) =>
        if tx.phase.Counted? {
          var _ := Decide(t);
        }
      case Commit(_) =>
        if tx.phase.Idle? {
          Finish(t, Published(s, t));
        }
      case Rollback(_) => Finish(t, committed);
    }

    /** Any schedule, run to its end, leaves an active super admin committed. */
    method RunSchedule(events: seq<Event>)
      modifies this
      ensures Snapshot() == Run(true, old(Snapshot()), events)
      ensures old(Inv(Snapshot())) ==> HasAdmin(Snapshot())
    {
      var i := 0;
      while i < |events|
        invariant 0 <= i <= |events|
        invariant Run(true, Snapshot(), events[i..]) == Run(true, old(Snapshot()), events)
      {
        assert events[i..][1..] == events[i + 1..];
        Execute(events[i]);
        i := i + 1;
      }
      if old(Inv(Snapshot())) {
        RunKeepsInv(old(Snapshot()), events);
      }
    }
  }
}
