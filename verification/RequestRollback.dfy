/**
 The session use cases as the routes run them: a request that ends in an exception is rolled
 back, so a refused refresh leaves nothing behind, the marks of a replay included.
 */
module RequestRollback {
  import opened Wrappers
  import opened Authentication
  import opened AuthenticationSafety
  import opened RotationTheorems
  import opened SessionResults

  function RequestRefresh(s: State, raw: Id, now: Time, policy: Policy): (State, Result<TokenPair, AuthError>) {
    var (s', r) := Refresh(s, raw, now, policy);
    (if r.Ok? then s' else s, r)
  }

  /** The other use cases write nothing before they refuse. */
  function RequestNext(s: State, e: Timed): State {
    if e.event.RefreshEvent? then RequestRefresh(s, e.event.raw, e.now, e.policy).0 else Next(s, e)
  }

  function RequestRun(s: State, events: seq<Timed>): State
    decreases |events|
  {
    if events == [] then s else RequestRun(RequestNext(s, events[0]), events[1..])
  }

  lemma PersistsItself(s: State)
    ensures Persists(s, s)
  {
  }

  lemma PersistsOn(s: State, s1: State, s2: State)
    requires Persists(s, s1) && Persists(s1, s2)
    ensures Persists(s, s2)
  {
  }

  /** Chains, single sessions and finality do not depend on those writes: the invariant holds over requests too. */
  lemma {:induction false} RequestRunKeepsInv(s: State, events: seq<Timed>)
    requires Inv(s)
    ensures Inv(RequestRun(s, events)) && Persists(s, RequestRun(s, events))
    decreases |events|
  {
    PersistsItself(s);
    if events != [] {
      var s1 := RequestNext(s, events[0]);
      NextKeepsInv(s, events[0]);
      RequestRunKeepsInv(s1, events[1..]);
      PersistsOn(s, s1, RequestRun(s, events));
    }
  }

  ghost predicate NoReuseRecorded(s: State) {
    forall id :: id in s.tokens ==> s.tokens[id].reuseDetectedAt.None?
  }

  lemma RequestRecordsNoReuse(s: State, e: Timed)
    requires NoReuseRecorded(s)
    ensures NoReuseRecorded(RequestNext(s, e))
  {
  }

  /** Whatever is replayed, however often, no request ever records it. */
  lemma {:induction false} ReuseIsNeverRecorded(s: State, events: seq<Timed>)
    requires NoReuseRecorded(s)
    ensures NoReuseRecorded(RequestRun(s, events))
    decreases |events|
  {
    if events != [] {
      RequestRecordsNoReuse(s, events[0]);
      ReuseIsNeverRecorded(RequestNext(s, events[0]), events[1..]);
    }
  }

  /**
   What rolling back costs. A spent token is presented again while its family has a
   refreshable token: with the writes kept, that token is refused from then on; after the
   rolled-back request it refreshes, and still opens the session the replay should close.
   */
  lemma ReplayClosesNothing(s: State, raw: Id, other: Id, now: Time, policy: Policy)
    requires Inv(s) && raw in s.tokens && s.tokens[raw].IsUsed()
    requires Refreshable(s, other, now) && s.tokens[other].familyId == s.tokens[raw].familyId
    requires MayAuthenticate(s, OwnerOf(s, other))
    ensures var (kept, r) := Refresh(s, raw, now, policy);
            && r == Err(RevokedRefreshToken) && Refresh(kept, other, now, policy).1.Err?
    ensures var (after, r) := RequestRefresh(s, raw, now, policy);
            && r == Err(RevokedRefreshToken) && after == s
            && RequestRefresh(after, other, now, policy).1.Ok?
            && GivesAccess(RequestRefresh(after, other, now, policy).0,
                           RequestRefresh(after, other, now, policy).1.value, OwnerOf(s, raw), now, policy)
  {
    assert Run(s, []) == s;
    ReplayEndsFamily(s, raw, [], now, policy, [], other, now);
    assert Run(Refresh(s, raw, now, policy).0, []) == Refresh(s, raw, now, policy).0;
    ReplayClosesSession(s, raw, now, policy);
    RefreshResult(s, other, now, policy);
    SameFamilySameSession(s, raw, other);
  }
}
