/** What refresh-token rotation promises over whole runs. */
module TokenTheorems {
  import opened Redis
  import opened Wrappers
  import opened TokenProtocol
  import opened TokenInvariant

  // ---------------------------------------------------------------- one successor per token

  /** Call `c` rotated `t` successfully before the end of the token's chain. */
  predicate Succeeded(cfg: Config, s: System, c: CallId, t: Token) {
    && c in s.calls && s.calls[c].op == Rotate(t) && s.calls[c].pc.Done? && s.calls[c].pc.result.Rotated?
    && Owned(s, t) && s.calls[c].ended < Expiry(cfg, s, s.owner[t])
  }

  ghost predicate SingleSuccessor(cfg: Config, s: System) {
    forall c, d, t | Succeeded(cfg, s, c, t) && Succeeded(cfg, s, d, t) ::
      s.calls[c].pc.result.token == s.calls[d].pc.result.token
  }

  lemma OneSuccessor(cfg: Config, s: System)
    requires Prompt(cfg) && Reachable(cfg, s)
    ensures SingleSuccessor(cfg, s)
  {
    ReachableInv(cfg, s);
    forall c, d, t | Succeeded(cfg, s, c, t) && Succeeded(cfg, s, d, t)
      ensures s.calls[c].pc.result.token == s.calls[d].pc.result.token
    {
      assert CallOk(cfg, s, c) && CallOk(cfg, s, d);
    }
  }

  lemma {:induction false} RunAppend(cfg: Config, s: System, es: seq<Event>, e: Event)
    requires Legal(cfg, s, es) && Enabled(cfg, Run(cfg, s, es), e)
    ensures Legal(cfg, s, es + [e]) && Run(cfg, s, es + [e]) == Apply(cfg, Run(cfg, s, es), e)
    decreases |es|
  {
    if es == [] {
      assert [e][1..] == [];
    } else {
      assert (es + [e])[1..] == es[1..] + [e];
      RunAppend(cfg, Apply(cfg, s, es[0]), es[1..], e);
    }
  }

  lemma Do(cfg: Config, s: System, e: Event) returns (s': System)
    requires Reachable(cfg, s) && Enabled(cfg, s, e)
    ensures s' == Apply(cfg, s, e) && Reachable(cfg, s')
  {
    var es :| Legal(cfg, EMPTY, es) && Run(cfg, EMPTY, es) == s;
    RunAppend(cfg, EMPTY, es, e);
    s' := Apply(cfg, s, e);
  }

  /** The first two commands of a rotation of a stored token in a live chain. */
  lemma ReadTtl(cfg: Config, s: System, c: CallId, t: Token, rec: RefreshRecord, began: int, r: nat)
    returns (s': System)
    requires Reachable(cfg, s) && c in s.calls && s.calls[c] == Call(Rotate(t), began, Enter, s.Now())
    requires s.store.Get(RtKey(t)) == Some(Rec(rec)) && s.store.Ttl(ChainKey(rec.chain)) > 0
    requires forall m | m in s.minted :: m < r
    ensures Reachable(cfg, s')
    ensures s' == s.(calls := s.calls[c := Call(Rotate(t), began, HasTtl(rec, s.store.Ttl(ChainKey(rec.chain))),
                                                s.Now())],
                     minted := s.minted[r := c][r + 1 := c])
  {
    s' := Do(cfg, s, Step(c, r));
    assert s' == s.(calls := s.calls[c := Call(Rotate(t), began, HasRecord(rec), s.Now())], minted := s.minted[r := c]);
    s' := Do(cfg, s', Step(c, r + 1));
  }

  /** The third command, when the used marker is absent or over. */
  lemma ReadNotUsed(cfg: Config, s: System, c: CallId, t: Token, rec: RefreshRecord, ttl: int, r: nat)
    returns (s': System)
    requires Reachable(cfg, s) && c in s.calls && s.calls[c].op == Rotate(t) && s.calls[c].pc == HasTtl(rec, ttl)
    requires !s.store.Live(UsedKey(t)) && forall m | m in s.minted :: m < r
    ensures Reachable(cfg, s')
    ensures s' == s.(calls := s.calls[c := Call(Rotate(t), s.calls[c].began, NotUsed(rec, ttl), s.Now())],
                     minted := s.minted[r := c])
  {
    s' := Do(cfg, s, Step(c, r));
  }

  lemma ReadUnused(cfg: Config, s: System, c: CallId, t: Token, rec: RefreshRecord, began: int, r: nat)
    returns (s': System)
    requires Reachable(cfg, s) && c in s.calls && s.calls[c] == Call(Rotate(t), began, Enter, s.Now())
    requires s.store.Get(RtKey(t)) == Some(Rec(rec)) && s.store.Ttl(ChainKey(rec.chain)) > 0
             && !s.store.Live(UsedKey(t))
    requires forall m | m in s.minted :: m < r
    ensures Reachable(cfg, s')
    ensures s' == s.(calls := s.calls[c := Call(Rotate(t), began, NotUsed(rec, s.store.Ttl(ChainKey(rec.chain))),
                                                s.Now())],
                     minted := s.minted[r := c][r + 1 := c][r + 2 := c])
  {
    s' := ReadTtl(cfg, s, c, t, rec, began, r);
    s' := ReadNotUsed(cfg, s', c, t, rec, s.store.Ttl(ChainKey(rec.chain)), r + 2);
  }

  lemma WinClaim(cfg: Config, s: System, c: CallId, t: Token, rec: RefreshRecord, ttl: int, began: int, r: nat)
    returns (s': System)
    requires Reachable(cfg, s) && c in s.calls && s.calls[c].op == Rotate(t) && s.calls[c].began == began
    requires s.calls[c].pc == NotUsed(rec, ttl) && !s.store.Live(GraceKey(t)) && r !in s.minted
    ensures Reachable(cfg, s')
    ensures s' == System(
      s.store.Set(GraceKey(t), Tok(r), Some(REFRESH_GRACE_SECONDS)),
      s.calls[c := Call(Rotate(t), began, WonClaim(rec, ttl, r), s.Now())],
      s.minted[r := c], s.chains, s.owner[r := rec.chain],
      if t in s.claims then s.claims else s.claims[t := Claim(r, s.Now(), c, None)])
  {
    s' := Do(cfg, s, Step(c, r));
  }

  /** The next two commands: a claim that wins, and the record of the successor `r`. */
  lemma ClaimAndIssue(cfg: Config, s: System, c: CallId, t: Token, rec: RefreshRecord, ttl: int, began: int, r: nat)
    returns (s': System)
    requires Reachable(cfg, s) && c in s.calls && s.calls[c].op == Rotate(t) && s.calls[c].began == began
    requires s.calls[c].pc == NotUsed(rec, ttl) && !s.store.Live(GraceKey(t)) && r != t
    requires forall m | m in s.minted :: m < r
    ensures Reachable(cfg, s')
    ensures s'.calls == s.calls[c := Call(Rotate(t), began, Issued(rec, ttl, r), s.Now())]
    ensures s'.minted == s.minted[r := c][r + 1 := c] && s'.chains == s.chains && s'.owner == s.owner[r := rec.chain]
    ensures s'.store == s.store.Set(GraceKey(t), Tok(r), Some(REFRESH_GRACE_SECONDS)).Set(RtKey(r), Rec(rec), Some(ttl))
    ensures t in s'.claims && s'.claims == if t in s.claims then s.claims else s.claims[t := Claim(r, s.Now(), c, None)]
  {
    s' := WinClaim(cfg, s, c, t, rec, ttl, began, r);
    s' := Do(cfg, s', Step(c, r + 1));
  }

  /** The last command. */
  lemma MarkUsed(cfg: Config, s: System, c: CallId, t: Token, rec: RefreshRecord, ttl: int, next: Token, began: int,
          r: nat)
    returns (s': System)
    requires Reachable(cfg, s) && c in s.calls && s.calls[c].op == Rotate(t) && s.calls[c].began == began
    requires s.calls[c].pc == Issued(rec, ttl, next)
    requires forall m | m in s.minted :: m < r
    ensures Reachable(cfg, s')
    ensures s'.calls == s.calls[c := Call(Rotate(t), began, Done(Rotated(next, rec)), s.Now())]
    ensures s'.minted == s.minted[r := c] && s'.chains == s.chains && s'.owner == s.owner
    ensures s'.store == s.store.Set(UsedKey(t), Mark, Some(ttl))
    ensures t in s.claims ==>
              s'.claims ==
              if s.claims[t].marked.Some? then s.claims
              else s.claims[t := s.claims[t].(marked := Some(s.Now()))]
  {
    s' := Do(cfg, s, Step(c, r));
  }

  /** A session of user `claims` with its first token, 1. */
  lemma SignedIn(cfg: Config, claims: Claims) returns (s: System)
    ensures Reachable(cfg, s)
    ensures s.store == Store(map[ChainKey(0) := Entry(Uid(claims.uid), Some(cfg.sessionTtl)),
                                 RtKey(1) := Entry(Rec(RefreshRecord(0, claims)), Some(cfg.sessionTtl))], 0)
    ensures s.calls == map[0 := Call(CreateChain(claims), 0, Done(Created(1, 0)), 0)]
    ensures s.minted == map[0 := 0, 1 := 0] && s.chains == map[0 := 0] && s.owner == map[1 := 0] && s.claims == map[]
  {
    s := EMPTY;
    assert Legal(cfg, EMPTY, []) && Run(cfg, EMPTY, []) == s;
    s := Do(cfg, s, Begin(0, CreateChain(claims)));
    s := Do(cfg, s, Step(0, 0));
    assert s.calls[0] == Call(CreateChain(claims), 0, ChainSet(0), 0);
    s := Do(cfg, s, Step(0, 1));
  }

  /** A rotation of the first token has read at time 0 that it is not used. */
  lemma OneReader(cfg: Config, rec: RefreshRecord) returns (s: System)
    requires cfg.sessionTtl > 0 && rec.chain == 0
    ensures Reachable(cfg, s)
    ensures s.store == Store(map[ChainKey(0) := Entry(Uid(rec.claims.uid), Some(cfg.sessionTtl)),
                                 RtKey(1) := Entry(Rec(rec), Some(cfg.sessionTtl))], 0)
    ensures s.calls == map[0 := Call(CreateChain(rec.claims), 0, Done(Created(1, 0)), 0),
                           1 := Call(Rotate(1), 0, NotUsed(rec, cfg.sessionTtl), 0)]
    ensures s.minted == map[0 := 0, 1 := 0, 2 := 1, 3 := 1, 4 := 1]
    ensures s.chains == map[0 := 0] && s.owner == map[1 := 0] && s.claims == map[]
  {
    s := SignedIn(cfg, rec.claims);
    s := Do(cfg, s, Begin(1, Rotate(1)));
    assert s.store.Get(RtKey(1)) == Some(Rec(rec));
    s := ReadUnused(cfg, s, 1, 1, rec, 0, 2);
  }

  /** Call 1 of the race has claimed token 1 and issued its successor 5. */
  lemma FirstIssued(cfg: Config, rec: RefreshRecord) returns (s: System)
    requires cfg.sessionTtl > 0 && rec.chain == 0
    ensures Reachable(cfg, s) && s.Now() == 0 && forall m | m in s.minted :: m < 7
    ensures s.calls.Keys == {0, 1} && s.calls[0].pc.Done?
    ensures s.calls[1] == Call(Rotate(1), 0, Issued(rec, cfg.sessionTtl, 5), 0)
    ensures s.chains == map[0 := 0] && s.owner == map[1 := 0, 5 := 0]
    ensures s.store.data == map[
      ChainKey(0) := Entry(Uid(rec.claims.uid), Some(cfg.sessionTtl)),
      RtKey(1) := Entry(Rec(rec), Some(cfg.sessionTtl)),
      GraceKey(1) := Entry(Tok(5), Some(REFRESH_GRACE_SECONDS)),
      RtKey(5) := Entry(Rec(rec), Some(cfg.sessionTtl))]
    ensures s.claims == map[1 := Claim(5, 0, 1, None)]
  {
    s := OneReader(cfg, rec);
    s := ClaimAndIssue(cfg, s, 1, 1, rec, cfg.sessionTtl, 0, 5);
  }

  /** At time `at`, before call 1 has marked the token, call 2 has read that it is not used. */
  lemma BothReadUnused(cfg: Config, rec: RefreshRecord, at: nat) returns (s: System)
    requires cfg.sessionTtl > at && at <= cfg.span && rec.chain == 0
    ensures Reachable(cfg, s) && s.Now() == at && forall m | m in s.minted :: m < 10
    ensures s.calls.Keys == {0, 1, 2} && s.calls[0].pc.Done?
    ensures s.calls[1] == Call(Rotate(1), 0, Issued(rec, cfg.sessionTtl, 5), 0)
    ensures s.calls[2] == Call(Rotate(1), at, NotUsed(rec, cfg.sessionTtl - at), at)
    ensures s.chains == map[0 := 0] && s.owner == map[1 := 0, 5 := 0] && s.claims == map[1 := Claim(5, 0, 1, None)]
    ensures {ChainKey(0), RtKey(1), GraceKey(1)} <= s.store.data.Keys
    ensures s.store.data[GraceKey(1)].expiresAt == Some(REFRESH_GRACE_SECONDS)
    ensures s.store.data[RtKey(1)] == Entry(Rec(rec), Some(cfg.sessionTtl))
    ensures s.store.data[ChainKey(0)].expiresAt == Some(cfg.sessionTtl)
  {
    s := FirstIssued(cfg, rec);
    s := Do(cfg, s, Tick(at));
    s := Do(cfg, s, Begin(2, Rotate(1)));
    s := ReadUnused(cfg, s, 2, 1, rec, at, 7);
  }

  /** The moment of the mark that leaves call 2 a span to reach the end of the grace period. */
  function MarkTime(cfg: Config): (at: nat)
    requires !Prompt(cfg)
    ensures at <= cfg.span && at < REFRESH_GRACE_SECONDS <= at + cfg.span
  {
    if cfg.span >= REFRESH_GRACE_SECONDS then 0 else REFRESH_GRACE_SECONDS - cfg.span
  }

  /** With calls of half the grace period, a second rotation reads "not used" just before the first
      one marks the token, and claims it again just when the grace key ends. */
  lemma ClaimedAgain(cfg: Config) returns (s: System)
    requires !Prompt(cfg)
    ensures Reachable(cfg, s) && s.Now() == REFRESH_GRACE_SECONDS && forall m | m in s.minted :: m < 13
    ensures s.chains == map[0 := 0] && s.owner == map[1 := 0, 5 := 0, 11 := 0] && s.calls.Keys == {0, 1, 2}
    ensures var rec := RefreshRecord(0, Claims("u", "e", "n"));
            && s.calls[1] == Call(Rotate(1), 0, Done(Rotated(5, rec)), MarkTime(cfg))
            && s.calls[2] == Call(Rotate(1), MarkTime(cfg), Issued(rec, cfg.sessionTtl - MarkTime(cfg), 11), s.Now())
            && s.store.Get(RtKey(1)) == Some(Rec(rec))
    ensures s.store.Get(UsedKey(1)).Some? && s.store.Get(GraceKey(1)) == Some(Tok(11))
    ensures s.store.Ttl(ChainKey(0)) == cfg.sessionTtl - s.Now()
    ensures s.claims == map[1 := Claim(5, 0, 1, Some(MarkTime(cfg)))]
  {
    var rec := RefreshRecord(0, Claims("u", "e", "n"));
    s := GraceEnded(cfg, rec);
    s := ClaimAndIssue(cfg, s, 2, 1, rec, cfg.sessionTtl - MarkTime(cfg), MarkTime(cfg), 11);
  }

  lemma GraceEnded(cfg: Config, rec: RefreshRecord) returns (s: System)
    requires !Prompt(cfg) && rec.chain == 0
    ensures Reachable(cfg, s) && s.Now() == REFRESH_GRACE_SECONDS && forall m | m in s.minted :: m < 11
    ensures s.chains == map[0 := 0] && s.owner == map[1 := 0, 5 := 0] && s.calls.Keys == {0, 1, 2}
    ensures s.calls[1] == Call(Rotate(1), 0, Done(Rotated(5, rec)), MarkTime(cfg))
    ensures s.calls[2] == Call(Rotate(1), MarkTime(cfg), NotUsed(rec, cfg.sessionTtl - MarkTime(cfg)), MarkTime(cfg))
    ensures s.store.Get(RtKey(1)) == Some(Rec(rec)) && s.store.Get(UsedKey(1)).Some? && !s.store.Live(GraceKey(1))
    ensures s.store.Ttl(ChainKey(0)) == cfg.sessionTtl - s.Now()
    ensures s.claims == map[1 := Claim(5, 0, 1, Some(MarkTime(cfg)))]
  {
    var at := MarkTime(cfg);
    s := BothReadUnused(cfg, rec, at);
    s := MarkUsed(cfg, s, 1, 1, rec, cfg.sessionTtl, 5, 0, 10);
    s := Do(cfg, s, Tick(REFRESH_GRACE_SECONDS - at));
  }

  lemma TwoSuccessors(cfg: Config) returns (s: System)
    requires !Prompt(cfg)
    ensures Reachable(cfg, s) && !SingleSuccessor(cfg, s)
  {
    var rec := RefreshRecord(0, Claims("u", "e", "n"));
    s := ClaimedAgain(cfg);
    s := MarkUsed(cfg, s, 2, 1, rec, cfg.sessionTtl - MarkTime(cfg), 11, MarkTime(cfg), 13);
    assert Succeeded(cfg, s, 1, 1) && Succeeded(cfg, s, 2, 1);
  }

  /** Half the grace period is the exact bound on the length of a call, for every session that can
      outlive a grace period at all. */
  lemma HalfTheGraceIsExact(cfg: Config)
    ensures (forall s | Reachable(cfg, s) :: SingleSuccessor(cfg, s)) <==> Prompt(cfg)
  {
    if Prompt(cfg) {
      forall s | Reachable(cfg, s) ensures SingleSuccessor(cfg, s) {
        OneSuccessor(cfg, s);
      }
    } else {
      var s := TwoSuccessors(cfg);
    }
  }

  // ---------------------------------------------------------------- a returned successor is usable

  /** A call that lost the claim may return the successor before the winner has stored it. Exactly
      then, a rotation of the returned token fails. */
  lemma SuccessorStoredUnlessWinnerIsBehind(cfg: Config, s: System, c: CallId, t: Token)
    requires Prompt(cfg) && Reachable(cfg, s)
    requires Succeeded(cfg, s, c, t) && !Over(cfg, s, t)
    ensures t in s.claims && s.claims[t].winner in s.calls
    ensures s.store.Live(RtKey(s.calls[c].pc.result.token)) <==> !s.calls[s.claims[t].winner].pc.WonClaim?
  {
    ReachableInv(cfg, s);
    assert CallOk(cfg, s, c) && ClaimOk(cfg, s, t);
    var next := s.claims[t].next;
    assert CallOk(cfg, s, s.claims[t].winner);
    if RtKey(next) in s.store.data {
      assert KeyOk(cfg, s, RtKey(next));
    }
  }

  /** The window is real, and can last as long as a call: call 2 loses the claim to call 1 and
      returns a successor no record knows, d seconds after the claim. */
  lemma UnstoredSuccessorReturned(cfg: Config, d: nat) returns (s: System)
    requires d <= cfg.span && d < cfg.sessionTtl
    ensures Reachable(cfg, s) && Succeeded(cfg, s, 2, 1) && !Over(cfg, s, 1)
    ensures 1 in s.claims && s.Now() == s.claims[1].at + d
    ensures var next := s.calls[2].pc.result.token;
            && RtKey(next) !in s.store.data && !s.store.Live(RtKey(next))
            && Owned(s, next) && s.store.Live(ChainKey(s.owner[next]))
  {
    var rec := RefreshRecord(0, Claims("u", "e", "n"));
    s := TwoReaders(cfg, rec);
    s := LoseTheClaim(cfg, s, rec);
    s := Do(cfg, s, Tick(d));
  }

  /** Two rotations of the first token have read at time 0 that it is not used. */
  lemma TwoReaders(cfg: Config, rec: RefreshRecord) returns (s: System)
    requires cfg.sessionTtl > 0 && rec.chain == 0
    ensures Reachable(cfg, s) && s.Now() == 0 && forall m | m in s.minted :: m < 8
    ensures s.calls.Keys == {0, 1, 2} && s.calls[0].pc.Done?
    ensures s.calls[1] == Call(Rotate(1), 0, NotUsed(rec, cfg.sessionTtl), 0) == s.calls[2]
    ensures s.chains == map[0 := 0] && s.owner == map[1 := 0] && s.claims == map[]
    ensures s.store.data.Keys == {ChainKey(0), RtKey(1)}
    ensures s.store.data[ChainKey(0)].expiresAt == Some(cfg.sessionTtl)
  {
    s := OneReader(cfg, rec);
    s := Do(cfg, s, Begin(2, Rotate(1)));
    s := ReadUnused(cfg, s, 2, 1, rec, 0, 5);
  }

  /** More than d seconds after the claim, and before the end of the chain, every successor that was
      returned is stored. */
  ghost predicate StoredAfter(cfg: Config, d: nat) {
    forall s, c, t | Reachable(cfg, s) && Succeeded(cfg, s, c, t) && !Over(cfg, s, t) ::
      t in s.claims && (s.claims[t].at + d < s.Now() ==> s.store.Live(RtKey(s.calls[c].pc.result.token)))
  }

  /** A client that waits for the longest call, and no less, can use the token it was given. */
  lemma StoredAfterExactly(cfg: Config, d: nat)
    requires Prompt(cfg) && cfg.span < cfg.sessionTtl
    ensures StoredAfter(cfg, d) <==> cfg.span <= d
  {
    if cfg.span <= d {
      forall s, c, t | Reachable(cfg, s) && Succeeded(cfg, s, c, t) && !Over(cfg, s, t)
        ensures t in s.claims && (s.claims[t].at + d < s.Now() ==> s.store.Live(RtKey(s.calls[c].pc.result.token)))
      {
        SuccessorStoredUnlessWinnerIsBehind(cfg, s, c, t);
        ReachableInv(cfg, s);
        assert ClaimOk(cfg, s, t) && CallOk(cfg, s, s.claims[t].winner);
      }
    } else {
      var s := UnstoredSuccessorReturned(cfg, d + 1);
    }
  }

  /** A claim that loses, and adopts the winner's successor. */
  lemma LoseAndAdopt(cfg: Config, s: System, c: CallId, t: Token, rec: RefreshRecord, ttl: int, began: int, r: nat)
    returns (s': System)
    requires Reachable(cfg, s) && c in s.calls && s.calls[c].op == Rotate(t) && s.calls[c].began == began
    requires s.calls[c].pc == NotUsed(rec, ttl) && HasSuccessor(s.store, t)
    requires forall m | m in s.minted :: m < r
    ensures Reachable(cfg, s') && s'.store == s.store
    ensures s'.chains == s.chains && s'.owner == s.owner && s'.claims == s.claims
    ensures s'.calls ==
            s.calls[c := Call(Rotate(t), began, Done(Rotated(s.store.Get(GraceKey(t)).value.token, rec)), s.Now())]
  {
    s' := Do(cfg, s, Step(c, r));
    assert s'.calls[c] == Call(Rotate(t), began, LostClaim(rec), s.Now());
    s' := Do(cfg, s', Step(c, r + 1));
  }

  lemma LoseTheClaim(cfg: Config, s: System, rec: RefreshRecord) returns (s': System)
    requires Reachable(cfg, s) && s.Now() == 0 && cfg.sessionTtl > 0 && rec.chain == 0
    requires forall m | m in s.minted :: m < 8
    requires s.calls.Keys == {0, 1, 2} && s.calls[0].pc.Done?
    requires s.chains == map[0 := 0] && s.owner == map[1 := 0] && s.claims == map[]
    requires s.calls[1] == Call(Rotate(1), 0, NotUsed(rec, cfg.sessionTtl), 0) == s.calls[2]
    requires s.store.data.Keys == {ChainKey(0), RtKey(1)}
    requires s.store.data[ChainKey(0)].expiresAt == Some(cfg.sessionTtl)
    ensures Reachable(cfg, s') && s'.Now() == 0 && s'.owner == map[1 := 0, 8 := 0] && s'.chains == s.chains
    ensures ChainKey(0) in s'.store.data && s'.store.data[ChainKey(0)].expiresAt == Some(cfg.sessionTtl)
    ensures 1 in s'.claims && s'.claims[1].at == 0 && RtKey(8) !in s'.store.data
    ensures s'.calls.Keys == {0, 1, 2} && s'.calls[0] == s.calls[0]
    ensures s'.calls[1] == Call(Rotate(1), 0, WonClaim(rec, cfg.sessionTtl, 8), 0)
    ensures s'.calls[2] == Call(Rotate(1), 0, Done(Rotated(8, rec)), 0)
  {
    var s1 := Do(cfg, s, Step(1, 8));
    assert s1.calls[2] == s.calls[2] && s1.chains == s.chains && s1.owner == map[1 := 0, 8 := 0];
    assert s1.store == s.store.Set(GraceKey(1), Tok(8), Some(REFRESH_GRACE_SECONDS));
    s' := LoseAndAdopt(cfg, s1, 2, 1, rec, cfg.sessionTtl, 0, 9);
  }

  // ---------------------------------------------------------------- lifetimes

  /** A chain key ends a session lifetime after its creation, and whatever protects the chain
      outlives it: stored tokens stay valid and used tokens stay marked while the chain is live. */
  lemma NothingLapsesBeforeTheChain(cfg: Config, s: System)
    requires Reachable(cfg, s)
    ensures forall chain | ChainKey(chain) in s.store.data ::
              chain in s.chains && s.store.data[ChainKey(chain)].expiresAt == Some(s.chains[chain] + cfg.sessionTtl)
    ensures forall t | Owned(s, t) && s.store.Live(ChainKey(s.owner[t])) && RtKey(t) in s.store.data ::
              s.store.Live(RtKey(t)) && s.store.data[RtKey(t)].value.Rec?
                  && s.store.data[RtKey(t)].value.rec.chain == s.owner[t]
    ensures forall t | Owned(s, t) && s.store.Live(ChainKey(s.owner[t])) && t in s.claims && s.claims[t].marked.Some? ::
              s.store.Live(UsedKey(t))
  {
    ReachableInv(cfg, s);
    forall chain | ChainKey(chain) in s.store.data
      ensures chain in s.chains && s.store.data[ChainKey(chain)].expiresAt == Some(s.chains[chain] + cfg.sessionTtl)
    {
      assert KeyOk(cfg, s, ChainKey(chain));
    }
    forall t | Owned(s, t) && s.store.Live(ChainKey(s.owner[t])) && RtKey(t) in s.store.data
      ensures s.store.Live(RtKey(t)) && s.store.data[RtKey(t)].value.Rec?
              && s.store.data[RtKey(t)].value.rec.chain == s.owner[t]
    {
      assert KeyOk(cfg, s, RtKey(t)) && KeyOk(cfg, s, ChainKey(s.owner[t]));
    }
    forall t | Owned(s, t) && s.store.Live(ChainKey(s.owner[t])) && t in s.claims && s.claims[t].marked.Some?
      ensures s.store.Live(UsedKey(t))
    {
      assert ClaimOk(cfg, s, t) && KeyOk(cfg, s, UsedKey(t)) && KeyOk(cfg, s, ChainKey(s.owner[t]));
    }
  }

  // ---------------------------------------------------------------- a dead chain stays dead

  /** The chain was created and its key is gone or expired. */
  predicate Dead(s: System, chain: ChainId) {
    chain in s.chains && !s.store.Live(ChainKey(chain))
  }

  lemma EventKeepsDead(cfg: Config, s: System, e: Event, chain: ChainId)
    requires s.chains.Keys <= s.minted.Keys && Enabled(cfg, s, e) && Dead(s, chain)
    ensures Dead(Apply(cfg, s, e), chain)
  {
    match e
    case Begin(_, _) =>
    case Tick(_) =>
    case Step(c, random) =>
      match s.calls[c].pc
      case Enter =>
      case MustDrop(_) =>
      case HasRecord(_) =>
      case _ =>
  }

  /** The outcome of a call that read its chain only after the chain had died. */
  predicate Fails(s: System, c: CallId, chain: ChainId)
    requires c in s.calls
  {
    var call := s.calls[c];
    match call.op
    case SessionActive(id) => id == chain ==> call.pc.Enter? || call.pc == Done(Active(false))
    case Rotate(t) =>
      t in s.owner && s.owner[t] == chain ==> call.pc.Enter? || call.pc.HasRecord? || call.pc == Done(Refused)
    case _ => true
  }

  lemma StepKeepsFails(cfg: Config, s: System, e: Event, c: CallId, chain: ChainId)
    requires Inv(cfg, s) && Enabled(cfg, s, e) && Dead(s, chain) && c in s.calls && Fails(s, c, chain)
    ensures Fails(Apply(cfg, s, e), c, chain)
  {
    assert CallOk(cfg, s, c);
    if e.Step? {
      var d := e.c;
      StepExtends(cfg, s, d, e.random);
      if d == c && s.calls[c].op.Rotate? {
        var t := s.calls[c].op.token;
        if RtKey(t) in s.store.data {
          assert KeyOk(cfg, s, RtKey(t));
        }
        match s.calls[c].pc
        case Enter =>
        case HasRecord(_) =>
        case _ =>
      }
    }
  }

  /** Once a chain is dead it stays dead, and every call begun from then on that reads it fails: no
      token of the chain rotates and the session is never reported active. */
  lemma {:induction false} DeadChainFailsForever(cfg: Config, s: System, es: seq<Event>, chain: ChainId)
    requires Inv(cfg, s) && Dead(s, chain) && Legal(cfg, s, es)
    ensures Dead(Run(cfg, s, es), chain)
    ensures forall c | c in Run(cfg, s, es).calls && (c !in s.calls || Fails(s, c, chain)) ::
              Fails(Run(cfg, s, es), c, chain)
    decreases |es|
  {
    if es != [] {
      var s1 := Apply(cfg, s, es[0]);
      EventKeepsInv(cfg, s, es[0]);
      EventKeepsDead(cfg, s, es[0], chain);
      forall c | c in s1.calls && (c !in s.calls || Fails(s, c, chain)) ensures Fails(s1, c, chain) {
        if c in s.calls {
          StepKeepsFails(cfg, s, es[0], c, chain);
        }
      }
      DeadChainFailsForever(cfg, s1, es[1..], chain);
      forall c | c in Run(cfg, s1, es[1..]).calls && (c !in s.calls || Fails(s, c, chain))
        ensures Fails(Run(cfg, s, es), c, chain)
      {
        if c in s1.calls {
          assert Fails(s1, c, chain);
        }
      }
    }
  }

  // ---------------------------------------------------------------- reuse is detected

  /** The token was claimed and marked used, and its grace period has passed. */
  predicate Spent(s: System, t: Token) {
    t in s.claims && s.claims[t].marked.Some? && s.claims[t].at + REFRESH_GRACE_SECONDS <= s.Now()
  }

  /** Where a rotation of a spent token can be: not yet at the grace key, refused with its chain
      dead, or running past the end of the chain. */
  predicate Doomed(cfg: Config, s: System, c: CallId, t: Token)
    requires c in s.calls && Owned(s, t)
  {
    var pc := s.calls[c].pc;
    || pc.Enter? || pc.HasRecord? || pc.HasTtl? || pc.WasUsed? || pc.MustDrop?
    || (pc == Done(Refused) && Dead(s, s.owner[t]))
    || (!pc.Done? && Over(cfg, s, t))
    || (pc.Done? && Expiry(cfg, s, s.owner[t]) <= s.calls[c].ended)
  }

  lemma OwnStepKeepsDoomed(cfg: Config, s: System, random: nat, c: CallId, t: Token)
    requires Prompt(cfg) && Inv(cfg, s) && Enabled(cfg, s, Step(c, random)) && s.calls[c].op == Rotate(t)
    requires Spent(s, t) && Owned(s, t) && Doomed(cfg, s, c, t)
    ensures var s' := ApplyStep(cfg, s, c, random);
            Spent(s', t) && Owned(s', t) && c in s'.calls && Doomed(cfg, s', c, t)
  {
    assert CallOk(cfg, s, c) && ClaimOk(cfg, s, t);
    assert KeyOk(cfg, s, GraceKey(t)) && KeyOk(cfg, s, UsedKey(t));
    match s.calls[c].pc
    case HasTtl(_, _) =>
    case WasUsed(_) =>
    case MustDrop(_) =>
    case _ =>
  }

  lemma OthersKeepDoomed(cfg: Config, s: System, s': System, c: CallId, t: Token)
    requires Extends(s, s') && c in s.calls && c in s'.calls && s'.calls[c] == s.calls[c]
    requires Owned(s, t) && Doomed(cfg, s, c, t) && (Dead(s, s.owner[t]) ==> Dead(s', s.owner[t]))
    ensures Owned(s', t) && Doomed(cfg, s', c, t)
  {
  }

  lemma EventKeepsDoomed(cfg: Config, s: System, e: Event, c: CallId, t: Token)
    requires Prompt(cfg) && Inv(cfg, s) && Enabled(cfg, s, e)
    requires Spent(s, t) && c in s.calls && s.calls[c].op == Rotate(t) && Owned(s, t) && Doomed(cfg, s, c, t)
    ensures var s' := Apply(cfg, s, e); Spent(s', t) && Owned(s', t) && c in s'.calls && Doomed(cfg, s', c, t)
  {
    EventExtends(cfg, s, e);
    if e.Step? && e.c == c {
      OwnStepKeepsDoomed(cfg, s, e.random, c, t);
    } else {
      if Dead(s, s.owner[t]) {
        EventKeepsDead(cfg, s, e, s.owner[t]);
      }
      OthersKeepDoomed(cfg, s, Apply(cfg, s, e), c, t);
    }
  }

  /** Call c rotates a token that had been marked used before it began, a grace period or more after
      the claim. */
  predicate Reused(s: System, c: CallId, t: Token) {
    && c in s.calls && s.calls[c].op == Rotate(t) && t in s.claims && s.claims[t].marked.Some?
    && s.claims[t].marked.value < s.calls[c].began && s.claims[t].at + REFRESH_GRACE_SECONDS <= s.calls[c].began
  }

  ghost predicate ReuseDoomed(cfg: Config, s: System) {
    forall c, t | Reused(s, c, t) :: Owned(s, t) && Doomed(cfg, s, c, t)
  }

  lemma EventKeepsReuseDoomed(cfg: Config, s: System, e: Event)
    requires Prompt(cfg) && Inv(cfg, s) && Enabled(cfg, s, e) && ReuseDoomed(cfg, s)
    ensures ReuseDoomed(cfg, Apply(cfg, s, e))
  {
    hide Prompt, Apply, Enabled, Doomed;
    var s' := Apply(cfg, s, e);
    EventExtends(cfg, s, e);
    EventKeepsInv(cfg, s, e);
    forall c, t | Reused(s', c, t) ensures Owned(s', t) && Doomed(cfg, s', c, t) {
      assert ClaimOk(cfg, s', t);
      CallsGoOn(cfg, s, e, c);
      if c in s.calls {
        assert CallOk(cfg, s, c);
        ReusedBefore(s, s', c, t);
        EventKeepsDoomed(cfg, s, e, c, t);
      }
    }
  }

  lemma CallsGoOn(cfg: Config, s: System, e: Event, c: CallId)
    requires Enabled(cfg, s, e) && c in Apply(cfg, s, e).calls
    ensures c in s.calls ==>
              Apply(cfg, s, e).calls[c].op == s.calls[c].op && Apply(cfg, s, e).calls[c].began == s.calls[c].began
    ensures c !in s.calls ==> forall t | Owned(Apply(cfg, s, e), t) :: Doomed(cfg, Apply(cfg, s, e), c, t)
  {
  }

  /** A mark and a claim do not come to lie before a call that has begun. */
  lemma ReusedBefore(s: System, s': System, c: CallId, t: Token)
    requires Extends(s, s') && Reused(s', c, t) && c in s.calls && s'.calls[c].op == s.calls[c].op
    requires s'.calls[c].began == s.calls[c].began <= s.Now()
    requires forall u | u in s'.claims && u !in s.claims :: s'.claims[u].marked.None?
    ensures Reused(s, c, t)
  {
  }

  lemma {:induction false} RunKeepsReuseDoomed(cfg: Config, s: System, es: seq<Event>)
    requires Prompt(cfg) && Inv(cfg, s) && Legal(cfg, s, es) && ReuseDoomed(cfg, s)
    ensures ReuseDoomed(cfg, Run(cfg, s, es))
    decreases |es|
  {
    hide Prompt, ReuseDoomed;
    if es != [] {
      EventKeepsInv(cfg, s, es[0]);
      EventKeepsReuseDoomed(cfg, s, es[0]);
      RunKeepsReuseDoomed(cfg, Apply(cfg, s, es[0]), es[1..]);
    }
  }

  /** Reuse detection: whatever runs beside it, a rotation of a token used a grace period before has
      left the chain dead when it is finished; and it is refused unless the chain reached its own end
      first. */
  lemma ReuseEndsTheChain(cfg: Config, s: System, c: CallId, t: Token)
    requires Prompt(cfg) && Reachable(cfg, s) && Reused(s, c, t)
    ensures Owned(s, t)
    ensures s.calls[c].pc.Done? ==> Dead(s, s.owner[t])
    ensures s.calls[c].pc.Done? && s.calls[c].ended < Expiry(cfg, s, s.owner[t]) ==> s.calls[c].pc.result == Refused
  {
    hide Prompt;
    var es :| Legal(cfg, EMPTY, es) && Run(cfg, EMPTY, es) == s;
    RunKeepsReuseDoomed(cfg, EMPTY, es);
    RunKeepsInv(cfg, EMPTY, es);
    assert CallOk(cfg, s, c);
    if ChainKey(s.owner[t]) in s.store.data {
      assert KeyOk(cfg, s, ChainKey(s.owner[t]));
    }
  }

  /** Every such rotation begun m seconds or more before the end of the chain is refused, and ends the
      chain. */
  ghost predicate ReuseCaught(cfg: Config, m: nat) {
    forall s, c, t |
      && Reachable(cfg, s) && Reused(s, c, t) && s.calls[c].pc.Done?
      && Owned(s, t) && s.calls[c].began + m <= Expiry(cfg, s, s.owner[t]) ::
      s.calls[c].pc.result == Refused && Dead(s, s.owner[t])
  }

  /** Reuse is caught up to m seconds before the end of the chain if and only if a call is shorter than
      m seconds and two calls are shorter than the grace period. */
  lemma ReuseCaughtExactlyWhen(cfg: Config, m: nat)
    requires m >= 1 && cfg.sessionTtl >= REFRESH_GRACE_SECONDS + m
    ensures ReuseCaught(cfg, m) <==> 2 * cfg.span < REFRESH_GRACE_SECONDS && cfg.span < m
  {
    if !Prompt(cfg) {
      var s := ReuseInSecondGrace(cfg);
    } else if m <= cfg.span {
      var s := ReuseAcrossTheEnd(cfg, m);
    } else {
      forall s, c, t |
        && Reachable(cfg, s) && Reused(s, c, t) && s.calls[c].pc.Done?
        && Owned(s, t) && s.calls[c].began + m <= Expiry(cfg, s, s.owner[t])
        ensures s.calls[c].pc.result == Refused && Dead(s, s.owner[t])
      {
        ReuseEndsTheChain(cfg, s, c, t);
        ReachableInv(cfg, s);
        assert CallOk(cfg, s, c);
      }
    }
  }

  /** With longer calls the second claim has a grace period of its own, in which a third rotation gets
      the second successor. */
  lemma ReuseInSecondGrace(cfg: Config) returns (s: System)
    requires !Prompt(cfg)
    ensures Reachable(cfg, s) && Reused(s, 3, 1) && s.calls[3].pc.Done? && s.calls[3].pc.result.Rotated?
    ensures Owned(s, 1) && s.calls[3].began == REFRESH_GRACE_SECONDS && Expiry(cfg, s, s.owner[1]) == cfg.sessionTtl
  {
    var rec := RefreshRecord(0, Claims("u", "e", "n"));
    s := ClaimedAgain(cfg);
    var now := s.Now();
    s := Do(cfg, s, Begin(3, Rotate(1)));
    s := ReadTtl(cfg, s, 3, 1, rec, now, 13);
    s := AdoptGraced(cfg, s, 3, 1, rec, now);
  }

  /** The last two commands of a rotation of a used token whose grace key is there. */
  lemma AdoptGraced(cfg: Config, s: System, c: CallId, t: Token, rec: RefreshRecord, began: int) returns (s': System)
    requires Reachable(cfg, s) && c in s.calls && s.calls[c].op == Rotate(t) && s.calls[c].began == began
    requires s.calls[c].pc.HasTtl? && s.calls[c].pc.rec == rec
    requires s.store.Get(UsedKey(t)).Some? && HasSuccessor(s.store, t) && forall m | m in s.minted :: m < 15
    ensures Reachable(cfg, s') && s'.chains == s.chains && s'.owner == s.owner && s'.claims == s.claims
    ensures s'.calls ==
            s.calls[c := Call(Rotate(t), began, Done(Rotated(s.store.Get(GraceKey(t)).value.token, rec)), s.Now())]
  {
    s' := Do(cfg, s, Step(c, 15));
    assert s'.calls[c] == Call(Rotate(t), began, WasUsed(rec), s.Now());
    s' := Do(cfg, s', Step(c, 16));
  }

  /** A session whose first token was rotated at time 0. */
  lemma RotatedOnce(cfg: Config, rec: RefreshRecord) returns (s: System)
    requires cfg.sessionTtl > 0 && rec.chain == 0
    ensures Reachable(cfg, s) && s.Now() == 0 && forall m | m in s.minted :: m < 8
    ensures s.calls.Keys == {0, 1} && s.calls[0].pc.Done? && s.calls[1].pc.Done?
    ensures s.chains == map[0 := 0] && s.owner == map[1 := 0, 5 := 0] && s.claims == map[1 := Claim(5, 0, 1, Some(0))]
    ensures {ChainKey(0), RtKey(1), GraceKey(1), UsedKey(1)} <= s.store.data.Keys
    ensures s.store.data[RtKey(1)] == Entry(Rec(rec), Some(cfg.sessionTtl))
    ensures s.store.data[ChainKey(0)].expiresAt == Some(cfg.sessionTtl) == s.store.data[UsedKey(1)].expiresAt
    ensures s.store.data[GraceKey(1)].expiresAt == Some(REFRESH_GRACE_SECONDS)
  {
    s := FirstIssued(cfg, rec);
    s := MarkUsed(cfg, s, 1, 1, rec, cfg.sessionTtl, 5, 0, 7);
  }

  /** It is used again m seconds before the end of the chain. */
  lemma LateReuse(cfg: Config, rec: RefreshRecord, m: nat) returns (s: System)
    requires cfg.sessionTtl >= REFRESH_GRACE_SECONDS + m && m >= 1 && rec.chain == 0
    ensures Reachable(cfg, s) && s.Now() == cfg.sessionTtl - m && forall r | r in s.minted :: r < 10
    ensures s.calls.Keys == {0, 1, 2} && s.calls[0].pc.Done? && s.calls[1].pc.Done?
    ensures s.calls[2] == Call(Rotate(1), s.Now(), HasTtl(rec, m), s.Now())
    ensures s.chains == map[0 := 0] && s.owner == map[1 := 0, 5 := 0] && s.claims == map[1 := Claim(5, 0, 1, Some(0))]
    ensures GraceKey(1) in s.store.data && s.store.data[GraceKey(1)].expiresAt == Some(REFRESH_GRACE_SECONDS)
    ensures UsedKey(1) in s.store.data && s.store.data[UsedKey(1)].expiresAt == Some(cfg.sessionTtl)
  {
    s := RotatedOnce(cfg, rec);
    s := Do(cfg, s, Tick(cfg.sessionTtl - m));
    s := Do(cfg, s, Begin(2, Rotate(1)));
    s := ReadTtl(cfg, s, 2, 1, rec, s.Now(), 8);
  }

  /** A rotation of a used token that is caught by the end of its chain finds the used marker gone and
      succeeds, however early within one call's length of the end it began. */
  lemma ReuseAcrossTheEnd(cfg: Config, m: nat) returns (s: System)
    requires 1 <= m <= cfg.span && cfg.sessionTtl >= REFRESH_GRACE_SECONDS + m
    ensures Reachable(cfg, s) && Reused(s, 2, 1) && s.calls[2].pc.Done? && s.calls[2].pc.result.Rotated?
    ensures Owned(s, 1) && s.calls[2].began + m == Expiry(cfg, s, s.owner[1])
  {
    var rec := RefreshRecord(0, Claims("u", "e", "n"));
    var began := cfg.sessionTtl - m;
    s := LateReuse(cfg, rec, m);
    s := Do(cfg, s, Tick(m));
    s := ReadNotUsed(cfg, s, 2, 1, rec, m, 10);
    s := ClaimAndIssue(cfg, s, 2, 1, rec, m, began, 11);
    s := MarkUsed(cfg, s, 2, 1, rec, m, 11, began, 13);
  }
}
