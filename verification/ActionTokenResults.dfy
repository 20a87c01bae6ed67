/** Which answer each action-token use case gives, and which rows it leaves alone. */
module ActionTokenResults {
  import opened Wrappers
  import opened ActionTokens

  /** The row's token may be used now, for this purpose. */
  predicate IsUsable(token: Token, expected: Purpose, now: Time) {
    && token.purpose == expected && token.invalidatedAt.None? && token.consumedAt.None?
    && now < token.expiresAt
  }

  /** Why a row's token may not be used, in the order in which it is told. */
  predicate Refuses(token: Token, expected: Purpose, now: Time, error: TokenError) {
    match error
    case PurposeMismatch => token.purpose != expected
    case Invalidated => token.purpose == expected && token.invalidatedAt.Some?
    case AlreadyConsumed => token.purpose == expected && token.invalidatedAt.None? && token.consumedAt.Some?
    case Expired =>
      && token.purpose == expected && token.invalidatedAt.None? && token.consumedAt.None?
      && token.expiresAt <= now
    case _ => false
  }

  /** Materializing gives the derived token of an available row of this purpose that was issued with it. */
  lemma MaterializeResult(s: State, id: Id, expected: Purpose, now: Time)
    requires Inv(s)
    ensures var r := Materialize(s, id, expected, now);
            && (r.Ok? <==> id in s.tokens && IsUsable(s.tokens[id], expected, now) &&
                           s.tokens[id].hash == Hash(Derived(id)))
            && (r.Ok? ==> r.value == Derived(id))
            && (id !in s.tokens ==> r == Err(NotFound))
            && (id in s.tokens && r.Err? ==>
                  Refuses(s.tokens[id], expected, now, r.error) ||
                  (r.error == NotFound && IsUsable(s.tokens[id], expected, now)))
  {
  }

  /** Consuming a raw token answers with the owner of its row exactly if that is usable, and consumes that row only. */
  lemma ConsumeResult(s: State, raw: RawToken, id: Id, expected: Purpose, now: Time)
    requires Inv(s) && HashesUnique(s.tokens) && id in s.tokens && s.tokens[id].hash == Hash(raw)
    ensures var (s', r) := Consume(s, raw, expected, now);
            && (r.Ok? <==> IsUsable(s.tokens[id], expected, now))
            && (r.Ok? ==> r.value == s.tokens[id].user &&
                          s' == s.(tokens := s.tokens[id := s.tokens[id].(consumedAt := Some(now))]))
            && (r.Err? ==> s' == s && Refuses(s.tokens[id], expected, now, r.error))
  {
    assert HasHash(s.tokens, Hash(raw));
    assert FindByHash(s.tokens, Hash(raw)) == Some(id);
  }

  /** A raw token that no row was issued with is not found. */
  lemma UnknownRefused(s: State, raw: RawToken, expected: Purpose, now: Time)
    requires HashesUnique(s.tokens) && forall id :: id in s.tokens ==> s.tokens[id].hash != Hash(raw)
    ensures Consume(s, raw, expected, now) == (s, Err(NotFound))
  {
  }

  /** What an issue stores, and that only a reconstructable token can be materialized. */
  lemma IssuedRow(s: State, user: Id, purpose: Purpose, ttl: int, reconstructable: bool, now: Time, at: Time)
    requires Inv(s) && ttl > 0
    ensures var (s', r) := Issue(s, user, purpose, ttl, reconstructable, now);
            && r.Ok? && r.value.expiresAt == now + ttl && r.value.id in s'.tokens
            && s'.tokens[r.value.id] == Token(user, purpose, Hash(r.value.raw), now + ttl, now, None, None)
            && (Materialize(s', r.value.id, purpose, at).Ok? <==> reconstructable && at < now + ttl)
            && (reconstructable && at < now + ttl ==> Materialize(s', r.value.id, purpose, at) == Ok(r.value.raw))
  {
  }

  /** A run goes through issues and consumptions one after the other. */
  lemma StepsAreOperations(s: State, e: Event, rest: seq<Event>)
    requires Inv(s)
    ensures HashesUnique(s.tokens) && Inv(Next(s, e)) && Run(s, [e] + rest) == Run(Next(s, e), rest)
    ensures e.IssueEvent? ==> Next(s, e) == Issue(s, e.user, e.purpose, e.ttl, e.reconstructable, e.now).0
    ensures e.ConsumeEvent? ==> Next(s, e) == Consume(s, e.raw, e.expected, e.at).0
  {
    InvMakesHashesUnique(s);
    NextKeepsInv(s, e);
    assert ([e] + rest)[1..] == rest;
  }

  /** In every state reached from an empty table two open tokens of one user and purpose are the same. */
  lemma EveryReachableState(events: seq<Event>, a: Id, b: Id)
    ensures Inv(State(map[], 0))
    ensures var tokens := Run(State(map[], 0), events).tokens;
            (&& a in tokens && tokens[a].consumedAt.None? && tokens[a].invalidatedAt.None?
             && b in tokens && tokens[b].consumedAt.None? && tokens[b].invalidatedAt.None?
             && tokens[a].user == tokens[b].user && tokens[a].purpose == tokens[b].purpose) ==> a == b
  {
    RunKeepsInv(State(map[], 0), events);
  }
}
