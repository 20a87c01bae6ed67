/**
 The downgraded trigger, which counts without taking the lock: when it still protects the
 last active super admin, and how every database can lose all of them.
 */
module UnlockedTrigger {
  import opened Wrappers
  import opened SuperAdminProtection

  /** Transaction t is about to take an admin away, or would if it committed now. */
  ghost predicate Removing(s: State, t: TxId)
    requires t in s.txs
  {
    s.txs[t].phase.Counting? || s.txs[t].phase.Counted? || PendingRemoval(s, t)
  }

  /** The trigger fires for a write that takes an admin away. */
  predicate StartsRemoval(s: State, e: Event) {
    e.Fire? && e.tx in s.txs && s.txs[e.tx].phase.Firing? &&
    Removes(Visible(s, e.tx, s.txs[e.tx].phase.user), s.txs[e.tx].phase.next)
  }

  /** The step does not start a removal while another transaction has one under way. */
  ghost predicate Uncontested(s: State, e: Event) {
    StartsRemoval(s, e) ==> forall other :: other in s.txs && other != e.tx ==> !Removing(s, other)
  }

  ghost predicate UncontestedRun(s: State, events: seq<Event>)
    decreases |events|
  {
    events == [] || (Uncontested(s, events[0]) && UncontestedRun(Next(false, s, events[0]), events[1..]))
  }

  function WithHolder(s: State, holder: Option<TxId>): State {
    s.(lockHolder := holder)
  }

  /** Some transaction could have been holding the lock all along. */
  ghost predicate Safe(s: State, holder: Option<TxId>) {
    s.lockHolder.None? && Inv(WithHolder(s, holder))
  }

  lemma SameTransaction(s: State, holder: Option<TxId>, t: TxId)
    requires t in s.txs
    ensures PendingRemoval(WithHolder(s, holder), t) == PendingRemoval(s, t)
    ensures SeesAdmin(WithHolder(s, holder), t) == SeesAdmin(s, t)
    ensures forall u :: SeesOther(WithHolder(s, holder), t, u) == SeesOther(s, t, u)
  {
    var z := WithHolder(s, holder);
    assert forall u :: Visible(z, t, u) == Visible(s, t, u);
    assert forall u :: CommittedVersion(z, u) == CommittedVersion(s, u);
    if PendingRemoval(s, t) {
      var u :| Removes(CommittedVersion(s, u), Visible(s, t, u));
      assert Removes(CommittedVersion(z, u), Visible(z, t, u));
    }
    if PendingRemoval(z, t) {
      var u :| Removes(CommittedVersion(z, u), Visible(z, t, u));
      assert Removes(CommittedVersion(s, u), Visible(s, t, u));
    }
    if SeesAdmin(s, t) {
      var u :| Protected(Visible(s, t, u));
      assert Protected(Visible(z, t, u));
    }
    if SeesAdmin(z, t) {
      var u :| Protected(Visible(z, t, u));
      assert Protected(Visible(s, t, u));
    }
    forall u ensures SeesOther(z, t, u) == SeesOther(s, t, u) {
      if SeesOther(s, t, u) {
        var w :| w != u && Protected(Visible(s, t, w));
        assert Protected(Visible(z, t, w));
      }
      if SeesOther(z, t, u) {
        var w :| w != u && Protected(Visible(z, t, w));
        assert Protected(Visible(s, t, w));
      }
    }
  }

  lemma SameAdmin(s: State, holder: Option<TxId>)
    ensures HasAdmin(WithHolder(s, holder)) == HasAdmin(s)
  {
    var z := WithHolder(s, holder);
    assert forall u :: CommittedVersion(z, u) == CommittedVersion(s, u);
    if HasAdmin(s) {
      var u :| Protected(CommittedVersion(s, u));
      assert Protected(CommittedVersion(z, u));
    }
    if HasAdmin(z) {
      var u :| Protected(CommittedVersion(z, u));
      assert Protected(CommittedVersion(s, u));
    }
  }

  /** A holder that removes nothing could give the lock back. */
  lemma ReleaseKeepsSafe(s: State, holder: TxId)
    requires Safe(s, Some(holder)) && holder in s.txs && !Removing(s, holder)
    ensures Safe(s, None)
  {
    var z, free := WithHolder(s, Some(holder)), WithHolder(s, None);
    SameAdmin(s, Some(holder));
    SameAdmin(s, None);
    forall t | t in free.txs ensures Guarded(free, t) {
      assert Guarded(z, t);
      SameTransaction(s, Some(holder), t);
      SameTransaction(s, None, t);
    }
    assert RowLocksExclusive(free) by {
      assert RowLocksExclusive(z);
    }
  }

  /** An uncontested step of the unlocked trigger is a step of the locked one, for some holder. */
  lemma StepSimulates(s: State, holder: Option<TxId>, e: Event) returns (holder': Option<TxId>)
    requires Safe(s, holder) && Uncontested(s, e)
    ensures Safe(Next(false, s, e), holder')
  {
    var before := holder;
    if holder.Some? && holder.value != e.tx && StartsRemoval(s, e) {
      ReleaseKeepsSafe(s, holder.value);
      before := None;
    }
    NextKeepsInv(WithHolder(s, before), e);
    SameStep(s, before, e);
    holder' := Next(true, WithHolder(s, before), e).lockHolder;
  }

  lemma SameStep(s: State, holder: Option<TxId>, e: Event)
    requires s.lockHolder.None?
    requires StartsRemoval(s, e) ==> holder.None? || holder == Some(e.tx)
    ensures var locked := Next(true, WithHolder(s, holder), e);
            Next(false, s, e) == WithHolder(locked, None)
  {
    var z := WithHolder(s, holder);
    if e.tx in s.txs {
      assert forall u :: Visible(z, e.tx, u) == Visible(s, e.tx, u);
      assert forall u :: LockedByAnother(z, e.tx, u) == LockedByAnother(s, e.tx, u);
      assert forall u :: OtherAdmins(z, e.tx, u) == OtherAdmins(s, e.tx, u);
      assert Published(z, e.tx) == Published(s, e.tx);
    }
  }

  lemma {:induction false} RunSimulates(s: State, holder: Option<TxId>, events: seq<Event>)
    requires Safe(s, holder) && UncontestedRun(s, events)
    ensures HasAdmin(Run(false, s, events))
    decreases |events|
  {
    if events == [] {
      SameAdmin(s, holder);
    } else {
      var holder' := StepSimulates(s, holder, events[0]);
      RunSimulates(Next(false, s, events[0]), holder', events[1..]);
    }
  }

  /**
   Without the lock, an active super admin stays committed in every schedule in which no
   removal starts while another one is under way.
   */
  lemma UncontestedScheduleProtects(committed: map<UserId, UserRow>, events: seq<Event>)
    requires HasAdmin(State(committed, map[], None)) && UncontestedRun(State(committed, map[], None), events)
    ensures HasAdmin(Run(false, State(committed, map[], None), events))
  {
    var s := State(committed, map[], None);
    assert WithHolder(s, None) == s;
    RunSimulates(s, None, events);
  }

  // ---- and no database is safe from contested ones

  const ADMIN := UserRow(true, true, false)

  lemma {:induction false} RunConcat(s: State, a: seq<Event>, b: seq<Event>)
    ensures Run(false, s, a + b) == Run(false, Run(false, s, a), b)
    decreases |a|
  {
    if a == [] {
      assert a + b == b;
    } else {
      assert (a + b)[1..] == a[1..] + b;
      RunConcat(Next(false, s, a[0]), a[1..], b);
    }
  }

  /** Transaction t deletes user u: the write and the three steps of the trigger. */
  function Removal(t: TxId, u: UserId): seq<Event> {
    [Write(t, u, None), Fire(t)] + ([Count(t), Decide(t)] + [])
  }

  /** Two transactions at rest, with what each has written. */
  function Two(committed: map<UserId, UserRow>, writes1: map<UserId, Version>, writes2: map<UserId, Version>): State {
    State(committed, map[1 := Transaction(writes1, Idle), 2 := Transaction(writes2, Idle)], None)
  }

  /** A removal passes the unlocked trigger whenever its transaction sees another admin. */
  lemma RemovalPasses(s: State, t: TxId, u: UserId)
    requires t in s.txs && s.txs[t].phase.Idle? && !LockedByAnother(s, t, u)
    requires Protected(Visible(s, t, u)) && SeesOther(s, t, u)
    ensures Run(false, s, Removal(t, u)) == Apply(s, t, u, None)
  {
    var s1 := Next(false, s, Write(t, u, None));
    var s2 := Next(false, s1, Fire(t));
    RunTwo(false, s, Write(t, u, None), Fire(t), [Count(t), Decide(t)] + []);
    RunTwo(false, s2, Count(t), Decide(t), []);
    assert s2 == Continue(s, t, Counting(u, None));
    assert forall w :: Visible(s2, t, w) == Visible(s, t, w);
    var w :| w != u && Protected(Visible(s, t, w));
    assert w in OtherAdmins(s2, t, u);
    var s3 := Next(false, s2, Count(t));
    assert s3.txs[t].phase.others > 0;
    assert Next(false, s3, Decide(t)).txs == Apply(s, t, u, None).txs;
  }

  function Removals(t: TxId, users: seq<UserId>): seq<Event> {
    if users == [] then [] else Removal(t, users[0]) + Removals(t, users[1..])
  }

  function Deleted(writes: map<UserId, Version>, users: seq<UserId>): map<UserId, Version> {
    map u | u in writes.Keys + (set w | w in users) :: if u in users then None else writes[u]
  }

  ghost predicate Distinct(users: seq<UserId>) {
    forall i, j :: 0 <= i < j < |users| ==> users[i] != users[j]
  }

  lemma DeletedFirst(writes: map<UserId, Version>, users: seq<UserId>)
    requires users != []
    ensures Deleted(writes[users[0] := None], users[1..]) == Deleted(writes, users)
  {
  }

  lemma OneRemoval(committed: map<UserId, UserRow>, writes: map<UserId, Version>, u: UserId, kept: UserId)
    requires kept != u && kept !in writes && u !in writes
    requires kept in committed && committed[kept].IsActiveSuperAdmin()
    requires u in committed && committed[u].IsActiveSuperAdmin()
    ensures Run(false, Two(committed, writes, map[]), Removal(1, u)) == Two(committed, writes[u := None], map[])
  {
    var s := Two(committed, writes, map[]);
    assert Protected(Visible(s, 1, kept));
    RemovalPasses(s, 1, u);
    assert Apply(s, 1, u, None).txs == Two(committed, writes[u := None], map[]).txs;
  }

  /** One transaction deletes admin after admin, as long as one it leaves alone is committed. */
  lemma {:induction false} RemovalsPass(
    committed: map<UserId, UserRow>, writes: map<UserId, Version>, users: seq<UserId>, kept: UserId)
    requires Distinct(users) && kept !in users && kept !in writes
    requires kept in committed && committed[kept].IsActiveSuperAdmin()
    requires forall u :: u in users ==> u !in writes && u in committed && committed[u].IsActiveSuperAdmin()
    ensures Run(false, Two(committed, writes, map[]), Removals(1, users))
         == Two(committed, Deleted(writes, users), map[])
    decreases |users|
  {
    var s := Two(committed, writes, map[]);
    if users == [] {
      assert Deleted(writes, users) == writes;
    } else {
      var u, rest := users[0], users[1..];
      OneRemoval(committed, writes, u, kept);
      RunConcat(s, Removal(1, u), Removals(1, rest));
      RemovalsPass(committed, writes[u := None], rest, kept);
      DeletedFirst(writes, users);
    }
  }

  lemma {:induction false} Enumerate(users: set<UserId>) returns (s: seq<UserId>)
    ensures Distinct(s) && forall u :: u in s <==> u in users
  {
    if users == {} {
      s := [];
    } else {
      var u :| u in users;
      var rest := Enumerate(users - {u});
      s := [u] + rest;
    }
  }

  function Admins(committed: map<UserId, UserRow>): set<UserId> {
    set u | u in committed && committed[u].IsActiveSuperAdmin()
  }

  function CommitBoth(): seq<Event> {
    [Commit(1), Commit(2)] + []
  }

  /** One transaction removes all admins but one, a second that one, and both commit. */
  function Losing(others: seq<UserId>, last: UserId): seq<Event> {
    [Begin(1), Begin(2)] + (Removals(1, others) + (Removal(2, last) + CommitBoth()))
  }

  lemma BothBegin(committed: map<UserId, UserRow>, rest: seq<Event>)
    ensures Run(false, State(committed, map[], None), [Begin(1), Begin(2)] + rest)
         == Run(false, Two(committed, map[], map[]), rest)
  {
    var s := State(committed, map[], None);
    RunTwo(false, s, Begin(1), Begin(2), rest);
    assert Next(false, Next(false, s, Begin(1)), Begin(2)).txs == Two(committed, map[], map[]).txs;
  }

  lemma LastRemoved(committed: map<UserId, UserRow>, others: seq<UserId>, last: UserId)
    requires others != [] && last !in others
    requires forall u :: u in others || u == last ==> u in Admins(committed)
    ensures Run(false, Two(committed, Deleted(map[], others), map[]), Removal(2, last))
         == Two(committed, Deleted(map[], others), map[last := None])
  {
    var s := Two(committed, Deleted(map[], others), map[]);
    assert others[0] in Admins(committed) && last in Admins(committed);
    assert Protected(Visible(s, 2, others[0]));
    RemovalPasses(s, 2, last);
    assert Apply(s, 2, last, None).txs == Two(committed, Deleted(map[], others), map[last := None]).txs;
  }

  /** Each transaction leaves the admin the other removes, so both pass, and no admin is left. */
  lemma TwoAdminsAreLost(committed: map<UserId, UserRow>, others: seq<UserId>, last: UserId)
    requires Distinct(others) && others != [] && last !in others
    requires forall u :: u in Admins(committed) <==> u in others || u == last
    ensures !HasAdmin(Run(false, State(committed, map[], None), Losing(others, last)))
  {
    var begun := Two(committed, map[], map[]);
    var mid := Two(committed, Deleted(map[], others), map[]);
    var end := Two(committed, Deleted(map[], others), map[last := None]);
    BothBegin(committed, Removals(1, others) + (Removal(2, last) + CommitBoth()));
    RunConcat(begun, Removals(1, others), Removal(2, last) + CommitBoth());
    assert last in Admins(committed) && forall u :: u in others ==> u in Admins(committed);
    RemovalsPass(committed, map[], others, last);
    RunConcat(mid, Removal(2, last), CommitBoth());
    LastRemoved(committed, others, last);
    RunTwo(false, end, Commit(1), Commit(2), []);
    BothCommitted(committed, others, last);
  }

  lemma BothCommitted(committed: map<UserId, UserRow>, others: seq<UserId>, last: UserId)
    requires forall u :: u in Admins(committed) <==> u in others || u == last
    ensures var end := Two(committed, Deleted(map[], others), map[last := None]);
            !HasAdmin(Next(false, Next(false, end, Commit(1)), Commit(2)))
  {
    var end := Two(committed, Deleted(map[], others), map[last := None]);
    var s1 := Next(false, end, Commit(1));
    var s2 := Next(false, s1, Commit(2));
    forall u ensures !Protected(CommittedVersion(s2, u)) {
      assert CommittedVersion(s1, u) == if u in others then None else CommittedVersion(end, u);
      assert CommittedVersion(s2, u) == if u == last then None else CommittedVersion(s1, u);
      if u in committed && committed[u].IsActiveSuperAdmin() {
        assert u in Admins(committed);
      }
    }
  }

  /** Every database with two active super admins, or more, has a schedule that removes them all. */
  lemma TwoAdminsCanBeLost(committed: map<UserId, UserRow>) returns (events: seq<Event>)
    requires |Admins(committed)| >= 2
    ensures HasAdmin(State(committed, map[], None)) && !HasAdmin(Run(false, State(committed, map[], None), events))
  {
    var last :| last in Admins(committed);
    assert Protected(CommittedVersion(State(committed, map[], None), last));
    var others := Enumerate(Admins(committed) - {last});
    assert |Admins(committed) - {last}| >= 1;
    var other :| other in Admins(committed) - {last};
    assert other in others;
    TwoAdminsAreLost(committed, others, last);
    events := Losing(others, last);
  }

  /** A database with a single one too: another admin can be added first. */
  lemma AnyDatabaseCanLose(committed: map<UserId, UserRow>) returns (events: seq<Event>)
    requires HasAdmin(State(committed, map[], None))
    ensures !HasAdmin(Run(false, State(committed, map[], None), events))
    ensures !UncontestedRun(State(committed, map[], None), events)
  {
    var s := State(committed, map[], None);
    var u :| Protected(CommittedVersion(s, u));
    var added := Unused(committed.Keys);
    var more := committed[added := ADMIN];
    assert {u, added} <= Admins(more);
    SetHasTwo(Admins(more), u, added);
    var losing := TwoAdminsCanBeLost(more);
    events := [Begin(1), Insert(1, added, ADMIN)] + ([Commit(1)] + losing);
    RunTwo(false, s, Begin(1), Insert(1, added, ADMIN), [Commit(1)] + losing);
    var s1 := Next(false, s, Begin(1));
    var s2 := Next(false, s1, Insert(1, added, ADMIN));
    assert s2.txs == map[1 := Transaction(map[added := Some(ADMIN)], Idle)];
    var s3 := Next(false, s2, Commit(1));
    assert s3.committed == more;
    assert s3 == State(more, map[], None);
    assert ([Commit(1)] + losing)[1..] == losing;
    if UncontestedRun(s, events) {
      UncontestedScheduleProtects(committed, events);
    }
  }

  lemma SetHasTwo(users: set<UserId>, a: UserId, b: UserId)
    requires a in users && b in users && a != b
    ensures |users| >= 2
  {
    assert |users - {a}| >= 1 by {
      assert b in users - {a};
    }
  }

  lemma {:induction false} Unused(users: set<UserId>) returns (added: UserId)
    ensures forall u :: u in users ==> u < added
  {
    if users == {} {
      added := 0;
    } else {
      var u :| u in users;
      var rest := Unused(users - {u});
      assert forall w :: w in users ==> w == u || w in users - {u};
      added := if u < rest then rest else u + 1;
    }
  }

  /** The advisory lock is what protects: the same schedule keeps an admin under it and loses both without. */
  lemma WithoutLockLastAdminIsLost()
    ensures var s := State(map[10 := ADMIN, 20 := ADMIN], map[], None);
            && HasAdmin(s) && HasAdmin(Run(true, s, Losing([10], 20))) && !HasAdmin(Run(false, s, Losing([10], 20)))
  {
    var s := State(map[10 := ADMIN, 20 := ADMIN], map[], None);
    assert Protected(CommittedVersion(s, 10));
    LastAdminSurvives(s.committed, Losing([10], 20));
    TwoAdminsAreLost(s.committed, [10], 20);
  }
}
