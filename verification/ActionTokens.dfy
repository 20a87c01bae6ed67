/**
 Single-use identity action tokens: issue, materialize and consume.

 A raw token is either derived from the token's id or generated fresh; hashing is injective,
 and a generated token never equals a derived one. Ids and generated tokens come from one
 counter, so a new one was never seen before.
 */
module ActionTokens {
  import opened Wrappers

  type Id = nat
  type Time = int

  datatype Purpose = AccountActivation | PasswordReset

  datatype RawToken = Derived(id: Id) | Generated(serial: nat)

  datatype TokenHash = Hash(raw: RawToken)

  datatype Token = Token(
    user: Id, purpose: Purpose, hash: TokenHash, expiresAt: Time, createdAt: Time,
    consumedAt: Option<Time>, invalidatedAt: Option<Time>)
  {
    predicate IsOutstanding() {
      consumedAt.None? && invalidatedAt.None?
    }

    predicate IsAvailable(now: Time) {
      IsOutstanding() && now < expiresAt
    }

    /** What the entity raises when consumed; None when it may be consumed. */
    function ConsumeError(now: Time, expected: Purpose): Option<TokenError> {
      if purpose != expected then Some(PurposeMismatch)
      else if invalidatedAt.Some? then Some(Invalidated)
      else if consumedAt.Some? then Some(AlreadyConsumed)
      else if now >= expiresAt then Some(Expired)
      else None
    }
  }

  datatype TokenError =
    | NotFound
    | PurposeMismatch
    | Invalidated
    | AlreadyConsumed
    | Expired
    | NonPositiveTtl

  datatype State = State(tokens: map<Id, Token>, nextId: nat)

  datatype Issued = Issued(id: Id, raw: RawToken, expiresAt: Time)

  // ---- repository

  function InvalidateOutstanding(tokens: map<Id, Token>, user: Id, purpose: Purpose, now: Time): map<Id, Token> {
    map id | id in tokens ::
      if tokens[id].user == user && tokens[id].purpose == purpose && tokens[id].IsOutstanding()
      then tokens[id].(invalidatedAt := Some(now)) else tokens[id]
  }

  ghost predicate HashesUnique(tokens: map<Id, Token>) {
    forall a, b :: a in tokens && b in tokens && tokens[a].hash == tokens[b].hash ==> a == b
  }

  predicate HasHash(tokens: map<Id, Token>, hash: TokenHash) {
    exists id :: id in tokens && tokens[id].hash == hash
  }

  function FindByHash(tokens: map<Id, Token>, hash: TokenHash): (found: Option<Id>)
    requires HashesUnique(tokens)
    ensures found.Some? <==> HasHash(tokens, hash)
    ensures found.Some? ==> found.value in tokens && tokens[found.value].hash == hash
  {
    if HasHash(tokens, hash) then
      var id :| id in tokens && tokens[id].hash == hash;
      Some(id)
    else None
  }

  /** The guarded single UPDATE; it touches a row only if every condition still holds. */
  function ConsumeIfAvailable(tokens: map<Id, Token>, hash: TokenHash, purpose: Purpose, now: Time)
    : (map<Id, Token>, Option<Id>)
    requires HashesUnique(tokens)
  {
    var found := FindByHash(tokens, hash);
    if found.Some? && tokens[found.value].purpose == purpose && tokens[found.value].consumedAt.None? &&
       tokens[found.value].invalidatedAt.None? && tokens[found.value].expiresAt > now
    then (tokens[found.value := tokens[found.value].(consumedAt := Some(now))], found)
    else (tokens, None)
  }

  // ---- use cases

  function Issue(s: State, user: Id, purpose: Purpose, ttl: int, reconstructable: bool, now: Time)
    : (State, Result<Issued, TokenError>)
  {
    if ttl <= 0 then (s, Err(NonPositiveTtl))
    else
      var id := s.nextId;
      var raw := if reconstructable then Derived(id) else Generated(id);
      var token := Token(user, purpose, Hash(raw), now + ttl, now, None, None);
      (State(InvalidateOutstanding(s.tokens, user, purpose, now)[id := token], s.nextId + 1),
       Ok(Issued(id, raw, now + ttl)))
  }

  function Materialize(s: State, id: Id, expected: Purpose, now: Time): Result<RawToken, TokenError> {
    if id !in s.tokens then Err(NotFound)
    else
      var token := s.tokens[id];
      if token.purpose != expected then Err(PurposeMismatch)
      else if token.invalidatedAt.Some? then Err(Invalidated)
      else if token.consumedAt.Some? then Err(AlreadyConsumed)
      else if now >= token.expiresAt then Err(Expired)
      else if Hash(Derived(id)) != token.hash then Err(NotFound)
      else Ok(Derived(id))
  }

  /** The last resort answers when the update found nothing yet the entity would consume. */
  function Consume(s: State, raw: RawToken, expected: Purpose, now: Time): (State, Result<Id, TokenError>)
    requires HashesUnique(s.tokens)
  {
    var (tokens, consumed) := ConsumeIfAvailable(s.tokens, Hash(raw), expected, now);
    if consumed.Some? then (s.(tokens := tokens), Ok(tokens[consumed.value].user))
    else
      var found := FindByHash(s.tokens, Hash(raw));
      if found.None? then (s, Err(NotFound))
      else
        var error := s.tokens[found.value].ConsumeError(now, expected);
        (s, Err(if error.Some? then error.value else AlreadyConsumed))
  }

  // ---- runs

  datatype Event =
    | IssueEvent(user: Id, purpose: Purpose, ttl: int, reconstructable: bool, now: Time)
    | ConsumeEvent(raw: RawToken, expected: Purpose, at: Time)

  ghost predicate OneOutstanding(tokens: map<Id, Token>) {
    forall a, b ::
      (&& a in tokens && tokens[a].IsOutstanding()
       && b in tokens && tokens[b].IsOutstanding()
       && tokens[a].user == tokens[b].user && tokens[a].purpose == tokens[b].purpose) ==> a == b
  }

  /** A row's hash is that of the raw token issued with it. */
  ghost predicate IssuedHashes(s: State) {
    forall id :: id in s.tokens ==>
      id < s.nextId && (s.tokens[id].hash == Hash(Derived(id)) || s.tokens[id].hash == Hash(Generated(id)))
  }

  ghost predicate Inv(s: State) {
    IssuedHashes(s) && OneOutstanding(s.tokens)
  }

  lemma InvMakesHashesUnique(s: State)
    requires Inv(s)
    ensures HashesUnique(s.tokens)
  {
  }

  ghost function Next(s: State, e: Event): State
    requires Inv(s)
  {
    InvMakesHashesUnique(s);
    match e
    case IssueEvent(user, purpose, ttl, reconstructable, now) => Issue(s, user, purpose, ttl, reconstructable, now).0
    case ConsumeEvent(raw, expected, at) => Consume(s, raw, expected, at).0
  }

  /** What a step never changes, and what it never undoes. */
  ghost predicate Persists(s: State, s': State) {
    s.nextId <= s'.nextId && forall id :: id in s.tokens ==>
      && id in s'.tokens
      && s'.tokens[id].user == s.tokens[id].user && s'.tokens[id].purpose == s.tokens[id].purpose
      && s'.tokens[id].hash == s.tokens[id].hash && s'.tokens[id].expiresAt == s.tokens[id].expiresAt
      && (s.tokens[id].consumedAt.Some? ==> s'.tokens[id].consumedAt == s.tokens[id].consumedAt)
      && (s.tokens[id].invalidatedAt.Some? ==> s'.tokens[id].invalidatedAt == s.tokens[id].invalidatedAt)
  }

  lemma IssueKeepsInv(s: State, user: Id, purpose: Purpose, ttl: int, reconstructable: bool, now: Time)
    requires Inv(s)
    ensures Inv(Issue(s, user, purpose, ttl, reconstructable, now).0)
    ensures Persists(s, Issue(s, user, purpose, ttl, reconstructable, now).0)
  {
    InvalidatingKeepsInv(s, user, purpose, now);
    if ttl > 0 {
      var invalidated := State(InvalidateOutstanding(s.tokens, user, purpose, now), s.nextId);
      var s' := Issue(s, user, purpose, ttl, reconstructable, now).0;
      AddingKeepsInv(invalidated, s'.tokens[s.nextId]);
    }
  }

  /**
   The token issued becomes the only outstanding one of its user and purpose; it supersedes
   exactly those that were, and touches no other.
   */
  lemma IssueResult(s: State, user: Id, purpose: Purpose, ttl: int, reconstructable: bool, now: Time, other: Id)
    requires Inv(s)
    ensures var (s', r) := Issue(s, user, purpose, ttl, reconstructable, now);
            && (r.Ok? <==> ttl > 0)
            && (r.Err? ==> s' == s)
            && (r.Ok? ==>
                  && r.value.id !in s.tokens && r.value.id in s'.tokens
                  && s'.tokens[r.value.id].IsOutstanding()
                  && s'.tokens[r.value.id].hash == Hash(r.value.raw)
                  && (forall at :: s'.tokens[r.value.id].IsAvailable(at) <==> at < now + ttl)
                  && (other == r.value.id <==>
                        && other in s'.tokens && s'.tokens[other].IsOutstanding()
                        && s'.tokens[other].user == user && s'.tokens[other].purpose == purpose)
                  && (other in s.tokens ==>
                        s'.tokens[other] ==
                        if s.tokens[other].IsOutstanding() &&
                           s.tokens[other].user == user && s.tokens[other].purpose == purpose
                        then s.tokens[other].(invalidatedAt := Some(now)) else s.tokens[other]))
  {
  }

  lemma InvalidatingKeepsInv(s: State, user: Id, purpose: Purpose, now: Time)
    requires Inv(s)
    ensures var s' := State(InvalidateOutstanding(s.tokens, user, purpose, now), s.nextId);
            && Inv(s') && Persists(s, s')
            && forall id :: id in s'.tokens && s'.tokens[id].user == user && s'.tokens[id].purpose == purpose ==>
                 !s'.tokens[id].IsOutstanding()
  {
  }

  lemma AddingKeepsInv(s: State, token: Token)
    requires Inv(s)
    requires token.hash == Hash(Derived(s.nextId)) || token.hash == Hash(Generated(s.nextId))
    requires forall id :: id in s.tokens && s.tokens[id].user == token.user && s.tokens[id].purpose == token.purpose ==>
               !s.tokens[id].IsOutstanding()
    ensures var s' := State(s.tokens[s.nextId := token], s.nextId + 1);
            Inv(s') && Persists(s, s')
  {
  }

  lemma ConsumeKeepsInv(s: State, raw: RawToken, expected: Purpose, at: Time)
    requires Inv(s) && HashesUnique(s.tokens)
    ensures Inv(Consume(s, raw, expected, at).0)
    ensures Persists(s, Consume(s, raw, expected, at).0)
  {
  }

  lemma NextKeepsInv(s: State, e: Event)
    requires Inv(s)
    ensures Inv(Next(s, e)) && Persists(s, Next(s, e))
  {
    InvMakesHashesUnique(s);
    match e
    case IssueEvent(user, purpose, ttl, reconstructable, now) =>
      IssueKeepsInv(s, user, purpose, ttl, reconstructable, now);
    case ConsumeEvent(raw, expected, at) => ConsumeKeepsInv(s, raw, expected, at);
  }

  ghost function Run(s: State, events: seq<Event>): State
    requires Inv(s)
    decreases |events|
  {
    if events == [] then s
    else
      NextKeepsInv(s, events[0]);
      Run(Next(s, events[0]), events[1..])
  }

  /** At most one outstanding token per user and purpose, and consumption is final, always. */
  lemma {:induction false} RunKeepsInv(s: State, events: seq<Event>)
    requires Inv(s)
    ensures Inv(Run(s, events)) && Persists(s, Run(s, events))
    decreases |events|
  {
    if events != [] {
      NextKeepsInv(s, events[0]);
      RunKeepsInv(Next(s, events[0]), events[1..]);
    }
  }

  /**
   The atomic update and the entity agree: for a stored token it consumes nothing exactly
   when the entity would raise, and then the caller sees the entity's error.
   */
  lemma AtomicConsumeAgrees(s: State, raw: RawToken, expected: Purpose, now: Time)
    requires HashesUnique(s.tokens) && HasHash(s.tokens, Hash(raw))
    ensures var token := s.tokens[FindByHash(s.tokens, Hash(raw)).value];
            var error := token.ConsumeError(now, expected);
            && (ConsumeIfAvailable(s.tokens, Hash(raw), expected, now).1.None? <==> error.Some?)
            && (error.None? <==> token.IsAvailable(now) && token.purpose == expected)
            && Consume(s, raw, expected, now).1 == if error.Some? then Err(error.value) else Ok(token.user)
  {
  }

  /** How often a run consumes one raw token. */
  ghost function Successes(s: State, events: seq<Event>, raw: RawToken): nat
    requires Inv(s)
    decreases |events|
  {
    if events == [] then 0
    else
      NextKeepsInv(s, events[0]);
      InvMakesHashesUnique(s);
      var e := events[0];
      (if e.ConsumeEvent? && e.raw == raw && Consume(s, raw, e.expected, e.at).1.Ok? then 1 else 0)
      + Successes(Next(s, e), events[1..], raw)
  }

  lemma {:induction false} SpentStaysSpent(s: State, events: seq<Event>, raw: RawToken, id: Id)
    requires Inv(s) && id in s.tokens && s.tokens[id].hash == Hash(raw) && s.tokens[id].consumedAt.Some?
    ensures Successes(s, events, raw) == 0
    decreases |events|
  {
    if events != [] {
      InvMakesHashesUnique(s);
      NextKeepsInv(s, events[0]);
      SpentStaysSpent(Next(s, events[0]), events[1..], raw, id);
    }
  }

  /** Single use: no run consumes the same raw token twice. */
  lemma {:induction false} ConsumedAtMostOnce(s: State, events: seq<Event>, raw: RawToken)
    requires Inv(s)
    ensures Successes(s, events, raw) <= 1
    decreases |events|
  {
    if events != [] {
      var e := events[0];
      InvMakesHashesUnique(s);
      NextKeepsInv(s, e);
      if e.ConsumeEvent? && e.raw == raw && Consume(s, raw, e.expected, e.at).1.Ok? {
        SpentStaysSpent(Next(s, e), events[1..], raw, FindByHash(s.tokens, Hash(raw)).value);
      } else {
        ConsumedAtMostOnce(Next(s, e), events[1..], raw);
      }
    }
  }

  /** No newer token for the same user and purpose is issued, and this one is not presented. */
  ghost predicate Undisturbed(events: seq<Event>, user: Id, purpose: Purpose, raw: RawToken) {
    forall e :: e in events ==>
      && (e.IssueEvent? && e.user == user && e.purpose == purpose ==> e.ttl <= 0)
      && (e.ConsumeEvent? ==> e.raw != raw)
  }

  lemma {:induction false} UndisturbedStays(s: State, events: seq<Event>, id: Id)
    requires Inv(s) && id in s.tokens && s.tokens[id].IsOutstanding()
    requires Undisturbed(events, s.tokens[id].user, s.tokens[id].purpose, s.tokens[id].hash.raw)
    ensures id in Run(s, events).tokens && Run(s, events).tokens[id] == s.tokens[id]
    decreases |events|
  {
    if events != [] {
      assert events[0] in events;
      assert forall e :: e in events[1..] ==> e in events;
      InvMakesHashesUnique(s);
      NextKeepsInv(s, events[0]);
      UndisturbedStays(Next(s, events[0]), events[1..], id);
    }
  }

  /**
   The intended life of a reconstructable token: issued, materialized and consumed before it
   expires, with no newer issue in between, it gives back its owner.
   */
  lemma IssueMaterializeConsume(
    s: State, user: Id, purpose: Purpose, ttl: int, now: Time,
    before: seq<Event>, at: Time, after: seq<Event>, later: Time)
    requires Inv(s) && ttl > 0 && at < now + ttl && later < now + ttl
    requires Undisturbed(before, user, purpose, Derived(s.nextId))
    requires Undisturbed(after, user, purpose, Derived(s.nextId))
    ensures var (s1, issued) := Issue(s, user, purpose, ttl, true, now);
            && issued.Ok? && Inv(s1)
            && var s2 := Run(s1, before);
            && Materialize(s2, issued.value.id, purpose, at) == Ok(issued.value.raw) && Inv(s2)
            && var s3 := Run(s2, after);
            && HashesUnique(s3.tokens)
            && Consume(s3, issued.value.raw, purpose, later).1 == Ok(user)
  {
    NextKeepsInv(s, IssueEvent(user, purpose, ttl, true, now));
    var s1 := Issue(s, user, purpose, ttl, true, now).0;
    var id := s.nextId;
    RunKeepsInv(s1, before);
    UndisturbedStays(s1, before, id);
    var s2 := Run(s1, before);
    RunKeepsInv(s2, after);
    UndisturbedStays(s2, after, id);
    var s3 := Run(s2, after);
    InvMakesHashesUnique(s3);
    assert HasHash(s3.tokens, Hash(Derived(id)));
  }
}
