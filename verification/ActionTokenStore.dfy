/** The action-token use cases as they update the token table in place. */
module ActionTokenStore {
  import opened Wrappers
  import A = ActionTokens

  /** A loaded action token; its own checks back up the atomic update. */
  class IdentityActionToken {
    const id: A.Id
    var row: A.Token

    constructor (id: A.Id, row: A.Token)
      ensures this.id == id && this.row == row
    {
      this.id, this.row := id, row;
    }

    method Invalidate(now: A.Time)
      modifies this
      ensures row == if old(row).IsOutstanding() then old(row).(invalidatedAt := Some(now)) else old(row)
    {
      if row.consumedAt.None? && row.invalidatedAt.None? {
        row := row.(invalidatedAt := Some(now));
      }
    }

    /** Raises without changing anything unless the token is available for the purpose. */
    method Consume(now: A.Time, expected: A.Purpose) returns (error: Option<A.TokenError>)
      modifies this
      ensures error == old(row).ConsumeError(now, expected)
      ensures error.None? <==> old(row).IsAvailable(now) && old(row).purpose == expected
      ensures row == if error.None? then old(row).(consumedAt := Some(now)) else old(row)
    {
      if row.purpose != expected {
        return Some(A.PurposeMismatch);
      }
      if row.invalidatedAt.Some? {
        return Some(A.Invalidated);
      }
      if row.consumedAt.Some? {
        return Some(A.AlreadyConsumed);
      }
      if now >= row.expiresAt {
        return Some(A.Expired);
      }
      row := row.(consumedAt := Some(now));
      return None;
    }
  }

  class Store {
    var tokens: map<A.Id, A.Token>
    var nextId: nat

    function Snapshot(): A.State
      reads this
    {
      A.State(tokens, nextId)
    }

    constructor ()
      ensures Snapshot() == A.State(map[], 0)
    {
      tokens, nextId := map[], 0;
    }

    /** Invalidates the outstanding tokens of the user and purpose, and counts them. */
    method InvalidateOutstanding(user: A.Id, purpose: A.Purpose, now: A.Time) returns (count: nat)
      modifies this`tokens
      ensures tokens == A.InvalidateOutstanding(old(tokens), user, purpose, now)
      ensures count == |Outstanding(old(tokens), user, purpose)|
    {
      var found := Outstanding(tokens, user, purpose);
      var rest := found;
      while rest != {}
        invariant rest <= found <= tokens.Keys == old(tokens).Keys
        invariant forall id :: id in tokens ==>
                    tokens[id] == if id in found - rest then old(tokens)[id].(invalidatedAt := Some(now))
                                  else old(tokens)[id]
        decreases rest
      {
        var id :| id in rest;
        var token := new IdentityActionToken(id, tokens[id]);
        token.Invalidate(now);
        tokens := tokens[id := token.row];
        rest := rest - {id};
      }
      ghost var expected := A.InvalidateOutstanding(old(tokens), user, purpose, now);
      assert forall id :: id in tokens <==> id in expected;
      assert forall id :: id in tokens ==> tokens[id] == expected[id];
      return |found|;
    }

    method Issue(user: A.Id, purpose: A.Purpose, ttl: int, reconstructable: bool, now: A.Time)
      returns (r: Result<A.Issued, A.TokenError>)
      modifies this
      ensures (Snapshot(), r) == A.Issue(old(Snapshot()), user, purpose, ttl, reconstructable, now)
    {
      if ttl <= 0 {
        return Err(A.NonPositiveTtl);
      }
      var id := nextId;
      nextId := nextId + 1;
      var raw := if reconstructable then A.Derived(id) else A.Generated(id);
      var _ := InvalidateOutstanding(user, purpose, now);
      tokens := tokens[id := A.Token(user, purpose, A.Hash(raw), now + ttl, now, None, None)];
      return Ok(A.Issued(id, raw, now + ttl));
    }

    method Materialize(id: A.Id, expected: A.Purpose, now: A.Time) returns (r: Result<A.RawToken, A.TokenError>)
      ensures r == A.Materialize(Snapshot(), id, expected, now)
      ensures r.Ok? ==> id in tokens && tokens[id].hash == A.Hash(r.value) && tokens[id].IsAvailable(now)
    {
      if id !in tokens {
        return Err(A.NotFound);
      }
      var token := tokens[id];
      if token.purpose != expected {
        return Err(A.PurposeMismatch);
      }
      if token.invalidatedAt.Some? {
        return Err(A.Invalidated);
      }
      if token.consumedAt.Some? {
        return Err(A.AlreadyConsumed);
      }
      if now >= token.expiresAt {
        return Err(A.Expired);
      }
      var raw := A.Derived(id);
      if A.Hash(raw) != token.hash {
        return Err(A.NotFound);
      }
      return Ok(raw);
    }

    method ConsumeIfAvailable(hash: A.TokenHash, purpose: A.Purpose, now: A.Time) returns (consumed: Option<A.Id>)
      requires A.HashesUnique(tokens)
      modifies this`tokens
      ensures (tokens, consumed) == A.ConsumeIfAvailable(old(tokens), hash, purpose, now)
    {
      var found := A.FindByHash(tokens, hash);
      if found.None? {
        return None;
      }
      var row := tokens[found.value];
      if row.purpose == purpose && row.consumedAt.None? && row.invalidatedAt.None? && row.expiresAt > now {
        tokens := tokens[found.value := row.(consumedAt := Some(now))];
        return found;
      }
      return None;
    }

    method Consume(raw: A.RawToken, expected: A.Purpose, now: A.Time) returns (r: Result<A.Id, A.TokenError>)
      requires A.HashesUnique(tokens)
      modifies this
      ensures (Snapshot(), r) == A.Consume(old(Snapshot()), raw, expected, now)
    {
      var consumed := ConsumeIfAvailable(A.Hash(raw), expected, now);
      if consumed.Some? {
        return Ok(tokens[consumed.value].user);
      }
      var found := A.FindByHash(tokens, A.Hash(raw));
      if found.None? {
        return Err(A.NotFound);
      }
      var token := new IdentityActionToken(found.value, tokens[found.value]);
      var error := token.Consume(now, expected);
      if error.Some? {
        return Err(error.value);
      }
      return Err(A.AlreadyConsumed);
    }
  }

  function Outstanding(tokens: map<A.Id, A.Token>, user: A.Id, purpose: A.Purpose): set<A.Id> {
    set id | id in tokens && tokens[id].user == user && tokens[id].purpose == purpose && tokens[id].IsOutstanding()
  }
}
