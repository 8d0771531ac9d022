/** The token store as it is written: an object whose methods issue the Redis commands in order. */
module TokenService {
  import opened Redis
  import opened Wrappers
  import opened TokenProtocol

  /** What the `randomToken()` calls of one operation return. */
  datatype Draws = Draws(chain: ChainId, token: Token)

  predicate Paired(op: Op, pc: Pc) {
    match op
    case CreateChain(_) => pc.Enter? || pc.ChainSet?
    case Rotate(_) => !pc.ChainSet? && !pc.Done?
    case Revoke(_) => pc.Enter? || pc.HasRecord?
    case SessionActive(_) => pc.Enter?
  }

  function CommandsLeft(pc: Pc): nat {
    match pc
    case Enter => 8
    case ChainSet(_) => 1
    case HasRecord(_) => 7
    case HasTtl(_, _) => 6
    case WasUsed(_) => 5
    case MustDrop(_) => 4
    case NotUsed(_, _) => 5
    case LostClaim(_) => 4
    case WonClaim(_, _, _) => 4
    case Issued(_, _, _) => 3
    case Done(_) => 0
  }

  function Draw(op: Op, pc: Pc, draws: Draws): nat {
    if op.CreateChain? && pc.Enter? then draws.chain else draws.token
  }

  /** The operation run alone, command after command: the store it leaves and its result. */
  function Alone(op: Op, pc: Pc, store: KeyStore, sessionTtl: int, draws: Draws): (KeyStore, Result)
    requires Paired(op, pc)
    decreases CommandsLeft(pc)
  {
    var (store', pc') := Exec(op, pc, store, sessionTtl, Draw(op, pc, draws));
    if pc'.Done? then (store', pc'.result) else Alone(op, pc', store', sessionTtl, draws)
  }

  /** A sign-out run alone deletes the key of the token's session, and nothing without a record. */
  lemma RevokeIs(token: Token, store: KeyStore, sessionTtl: int)
    ensures Alone(Revoke(token), Enter, store, sessionTtl, Draws(0, 0)) ==
            match store.Get(RtKey(token))
            case Some(Rec(rec)) => (store.Del(ChainKey(rec.chain)), Revoked)
            case _ => (store, Revoked)
  {
    var raw := store.Get(RtKey(token));
    if raw.Some? && raw.value.Rec? {
      assert Alone(Revoke(token), Enter, store, sessionTtl, Draws(0, 0))
          == Alone(Revoke(token), HasRecord(raw.value.rec), store, sessionTtl, Draws(0, 0));
    }
  }

  class TokenStore {
    const redis: MockRedis<Key, Value>
    const sessionTtl: int

    constructor (redis: MockRedis<Key, Value>, sessionTtl: int)
      ensures this.redis == redis && this.sessionTtl == sessionTtl
    {
      this.redis := redis;
      this.sessionTtl := sessionTtl;
    }

    ghost function Outcome(op: Op, draws: Draws): (KeyStore, Result)
      reads redis
    {
      Alone(op, Enter, redis.Model(), sessionTtl, draws)
    }

    method CreateChain(claims: Claims, draws: Draws) returns (result: Result)
      modifies redis
      ensures result == old(Outcome(Op.CreateChain(claims), draws)).1
      ensures redis.Model().Visible() == old(Outcome(Op.CreateChain(claims), draws)).0.Visible()
    {
      ghost var was := redis.Model();
      var _ := redis.Set(ChainKey(draws.chain), Uid(claims.uid), Some(sessionTtl), false);
      result := Issue(draws.token, RefreshRecord(draws.chain, claims), sessionTtl);
      ghost var key, value := RtKey(draws.token), Rec(RefreshRecord(draws.chain, claims));
      assert Alone(Op.CreateChain(claims), ChainSet(draws.chain),
                   was.Set(ChainKey(draws.chain), Uid(claims.uid), Some(sessionTtl)), sessionTtl, draws)
          == (was.Set(ChainKey(draws.chain), Uid(claims.uid), Some(sessionTtl)).Set(key, value, Some(sessionTtl)),
              Created(draws.token, draws.chain));
    }

    method Issue(token: Token, rec: RefreshRecord, ttl: int) returns (result: Result)
      modifies redis
      ensures result == Created(token, rec.chain)
      ensures forall s: KeyStore | s.Visible() == old(redis.Model()).Visible() ::
                redis.Model().Visible() == s.Set(RtKey(token), Rec(rec), Some(ttl)).Visible()
    {
      var _ := redis.Set(RtKey(token), Rec(rec), Some(ttl), false);
      forall s: KeyStore | s.Visible() == old(redis.Model()).Visible()
        ensures redis.Model().Visible() == s.Set(RtKey(token), Rec(rec), Some(ttl)).Visible()
      {
        SetIsInvisible(s, old(redis.Model()), RtKey(token), Rec(rec), Some(ttl));
      }
      result := Created(token, rec.chain);
    }

    method SessionActive(chain: ChainId) returns (active: bool)
      modifies redis
      ensures Active(active) == old(Outcome(Op.SessionActive(chain), Draws(0, 0))).1
      ensures active == old(redis.Model().Live(ChainKey(chain)))
      ensures redis.Model().Visible() == old(redis.Model()).Visible()
    {
      var v := redis.Get(ChainKey(chain));
      active := v.Some?;
    }

    /** The key of the session that this token's record belongs to. */
    predicate Ends(token: Token, k: Key)
      reads redis
    {
      var raw := redis.Model().Get(RtKey(token));
      raw.Some? && raw.value.Rec? && k == ChainKey(raw.value.rec.chain)
    }

    /** Signing out: the session of the token is over, and no other key shows a change. */
    method Revoke(token: Token)
      modifies redis
      ensures redis.Model().Visible() == old(Outcome(Op.Revoke(token), Draws(0, 0))).0.Visible()
      ensures forall k | old(Ends(token, k)) :: !redis.Model().Live(k)
      ensures forall k | !old(Ends(token, k)) :: redis.Model().Get(k) == old(redis.Model().Get(k))
    {
      hide Store.DelAll, Alone;
      ghost var was := redis.Model();
      RevokeIs(token, was, sessionTtl);
      var raw := redis.Get(RtKey(token));
      if raw.Some? && raw.value.Rec? {
        DelIsInvisible(redis.Model(), was, ChainKey(raw.value.rec.chain));
        DelOne(redis.Model(), ChainKey(raw.value.rec.chain));
        var _ := redis.Del([ChainKey(raw.value.rec.chain)]);
        assert redis.Model().Visible() == was.Del(ChainKey(raw.value.rec.chain)).Visible();
        SameVisible(redis.Model(), was.Del(ChainKey(raw.value.rec.chain)));
      } else {
        SameVisible(redis.Model(), was);
      }
    }

    method Rotate(token: Token, draws: Draws) returns (result: Result)
      modifies redis
      ensures result == old(Outcome(Op.Rotate(token), draws)).1
      ensures redis.Model().Visible() == old(Outcome(Op.Rotate(token), draws)).0.Visible()
    {
      ghost var op, was := Op.Rotate(token), redis.Model();
      var raw := redis.Get(RtKey(token));
      if raw.None? || !raw.value.Rec? {
        return Refused;
      }
      var rec := raw.value.rec;
      assert Alone(op, Enter, was, sessionTtl, draws) == Alone(op, HasRecord(rec), was, sessionTtl, draws);
      SameVisibleSameAnswers(redis.Model(), was, ChainKey(rec.chain));
      var ttl := redis.Ttl(ChainKey(rec.chain));
      if ttl <= 0 {
        return Refused;
      }
      assert Alone(op, Enter, was, sessionTtl, draws) == Alone(op, HasTtl(rec, ttl), was, sessionTtl, draws);
      SameVisibleSameAnswers(redis.Model(), was, UsedKey(token));
      var used := redis.Get(UsedKey(token));
      if used.Some? {
        assert Alone(op, Enter, was, sessionTtl, draws) == Alone(op, WasUsed(rec), was, sessionTtl, draws);
        result := Reuse(token, rec, was, draws);
      } else {
        assert Alone(op, Enter, was, sessionTtl, draws) == Alone(op, NotUsed(rec, ttl), was, sessionTtl, draws);
        result := Advance(token, rec, ttl, was, draws);
      }
    }

    /** The used token: its successor while the grace period lasts, otherwise the end of the chain. */
    method Reuse(token: Token, rec: RefreshRecord, ghost was: KeyStore, ghost draws: Draws) returns (result: Result)
      requires redis.Model().Visible() == was.Visible()
      modifies redis
      ensures result == Alone(Op.Rotate(token), WasUsed(rec), was, sessionTtl, draws).1
      ensures redis.Model().Visible() == Alone(Op.Rotate(token), WasUsed(rec), was, sessionTtl, draws).0.Visible()
    {
      hide Store.DelAll;
      ghost var op := Op.Rotate(token);
      SameVisibleSameAnswers(redis.Model(), was, GraceKey(token));
      var graced := redis.Get(GraceKey(token));
      if graced.Some? && graced.value.Tok? {
        return Rotated(graced.value.token, rec);
      }
      assert Alone(op, WasUsed(rec), was, sessionTtl, draws) == Alone(op, MustDrop(rec), was, sessionTtl, draws);
      DelIsInvisible(redis.Model(), was, ChainKey(rec.chain));
      DelOne(redis.Model(), ChainKey(rec.chain));
      var _ := redis.Del([ChainKey(rec.chain)]);
      return Refused;
    }

    /** The unused token: claim a successor, or adopt the one claimed meanwhile. */
    method Advance(token: Token, rec: RefreshRecord, ttl: int, ghost was: KeyStore, draws: Draws)
      returns (result: Result)
      requires redis.Model().Visible() == was.Visible()
      modifies redis
      ensures result == Alone(Op.Rotate(token), NotUsed(rec, ttl), was, sessionTtl, draws).1
      ensures redis.Model().Visible() == Alone(Op.Rotate(token), NotUsed(rec, ttl), was, sessionTtl, draws).0.Visible()
    {
      ghost var op, grace, next := Op.Rotate(token), GraceKey(token), draws.token;
      SameVisibleSameAnswers(redis.Model(), was, grace);
      SetIsInvisible(redis.Model(), was, grace, Tok(next), Some(REFRESH_GRACE_SECONDS));
      var claimed := redis.Set(GraceKey(token), Tok(draws.token), Some(REFRESH_GRACE_SECONDS), true);
      if !claimed {
        assert Alone(op, NotUsed(rec, ttl), was, sessionTtl, draws)
               == Alone(op, LostClaim(rec), was, sessionTtl, draws);
        SameVisibleSameAnswers(redis.Model(), was, grace);
        var graced := redis.Get(GraceKey(token));
        return if graced.Some? && graced.value.Tok? then Rotated(graced.value.token, rec) else Refused;
      }
      ghost var s1 := was.Set(grace, Tok(next), Some(REFRESH_GRACE_SECONDS));
      assert Alone(op, NotUsed(rec, ttl), was, sessionTtl, draws)
             == Alone(op, WonClaim(rec, ttl, next), s1, sessionTtl, draws);
      var _ := Issue(draws.token, rec, ttl);
      ghost var s2 := s1.Set(RtKey(next), Rec(rec), Some(ttl));
      assert Alone(op, WonClaim(rec, ttl, next), s1, sessionTtl, draws)
             == Alone(op, Issued(rec, ttl, next), s2, sessionTtl, draws);
      SetIsInvisible(redis.Model(), s2, UsedKey(token), Mark, Some(ttl));
      var _ := redis.Set(UsedKey(token), Mark, Some(ttl), false);
      return Rotated(draws.token, rec);
    }
  }
}
