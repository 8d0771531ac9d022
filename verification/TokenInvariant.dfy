/** What every interleaving of session operations keeps true. */
module TokenInvariant {
  import opened Redis
  import opened Wrappers
  import opened TokenProtocol

  /** When the chain ends: a fixed time after its creation. */
  function Expiry(cfg: Config, s: System, chain: ChainId): int
    requires chain in s.chains
  {
    s.chains[chain] + cfg.sessionTtl
  }

  /** Two calls together are shorter than the grace period, or no session outlives one. What depends
      on this is stated as conditional on it, so that the rest of the invariant holds whatever the
      timing. */
  predicate Prompt(cfg: Config) {
    2 * cfg.span < REFRESH_GRACE_SECONDS || cfg.sessionTtl <= REFRESH_GRACE_SECONDS
  }

  predicate Owned(s: System, t: Token) {
    t in s.owner && s.owner[t] in s.chains
  }

  /** The chain of `t` has reached its fixed end. */
  predicate Over(cfg: Config, s: System, t: Token)
    requires Owned(s, t)
  {
    Expiry(cfg, s, s.owner[t]) <= s.Now()
  }

  predicate KeyOk(cfg: Config, s: System, k: Key)
    requires k in s.store.data
  {
    var e := s.store.data[k];
    match k
    case ChainKey(chain) => chain in s.chains && e.value.Uid? && e.expiresAt == Some(Expiry(cfg, s, chain))
    case RtKey(t) =>
      && Owned(s, t) && e.value.Rec? && e.value.rec.chain == s.owner[t]
      && e.expiresAt.Some? && Expiry(cfg, s, s.owner[t]) <= e.expiresAt.value
    case UsedKey(t) =>
      && Owned(s, t) && t in s.claims && s.claims[t].marked.Some? && e.value.Mark?
      && e.expiresAt.Some? && Expiry(cfg, s, s.owner[t]) <= e.expiresAt.value
    case GraceKey(t) =>
      && Owned(s, t) && t in s.claims && e.value.Tok? && e.expiresAt.Some?
      && (Over(cfg, s, t) || !Prompt(cfg)
          || e == Entry(Tok(s.claims[t].next), Some(s.claims[t].at + REFRESH_GRACE_SECONDS)))
  }

  predicate ClaimOk(cfg: Config, s: System, t: Token)
    requires t in s.claims
  {
    var claim := s.claims[t];
    && Owned(s, t) && RtKey(t) in s.store.data && GraceKey(t) in s.store.data
    && claim.winner in s.calls && s.calls[claim.winner].op == Rotate(t)
    && s.calls[claim.winner].began <= claim.at <= s.Now() && s.chains[s.owner[t]] <= claim.at
    && claim.next in s.minted && s.minted[claim.next] == claim.winner
    && claim.next in s.owner && s.owner[claim.next] == s.owner[t]
    && (RtKey(claim.next) in s.store.data <==> !s.calls[claim.winner].pc.WonClaim?)
    && var pc := s.calls[claim.winner].pc;
    && (((pc.WonClaim? || pc.Issued?) && pc.next == claim.next) || pc.Done?)
    && match claim.marked
       case None => !pc.Done?
       case Some(m) => UsedKey(t) in s.store.data && claim.at <= m <= s.Now() && m <= claim.at + cfg.span
  }

  predicate RecordOk(s: System, t: Token, rec: RefreshRecord) {
    Owned(s, t) && rec.chain == s.owner[t] && RtKey(t) in s.store.data
  }

  predicate TtlOk(cfg: Config, s: System, rec: RefreshRecord, ttl: int) {
    rec.chain in s.chains && Expiry(cfg, s, rec.chain) <= s.Now() + ttl
  }

  predicate SuccessorOk(cfg: Config, s: System, t: Token, next: Token)
  {
    Prompt(cfg) ==> t in s.claims && s.claims[t].next == next
  }

  predicate RotateOk(cfg: Config, s: System, call: Call)
    requires call.op.Rotate?
  {
    var t := call.op.token;
    match call.pc
    case Enter => true
    case ChainSet(_) => false
    case HasRecord(rec) => RecordOk(s, t, rec)
    case HasTtl(rec, ttl) => RecordOk(s, t, rec) && TtlOk(cfg, s, rec, ttl)
    case WasUsed(rec) => RecordOk(s, t, rec) && t in s.claims
    case MustDrop(rec) => RecordOk(s, t, rec) && t in s.claims
    case NotUsed(rec, ttl) =>
      && RecordOk(s, t, rec) && TtlOk(cfg, s, rec, ttl)
      && (t in s.claims && s.claims[t].marked.Some? ==> call.began <= s.claims[t].marked.value || Over(cfg, s, t))
    case LostClaim(rec) => RecordOk(s, t, rec) && t in s.claims
    case WonClaim(rec, ttl, next) =>
      && RecordOk(s, t, rec) && TtlOk(cfg, s, rec, ttl) && t in s.claims
      && next in s.owner && s.owner[next] == rec.chain
      && (Over(cfg, s, t) || SuccessorOk(cfg, s, t, next))
    case Issued(rec, ttl, next) =>
      && RecordOk(s, t, rec) && TtlOk(cfg, s, rec, ttl) && t in s.claims
      && next in s.owner && s.owner[next] == rec.chain
      && (Over(cfg, s, t) || SuccessorOk(cfg, s, t, next))
    case Done(result) =>
      match result
      case Rotated(next, rec) =>
        && Owned(s, t) && rec.chain == s.owner[t]
        && (Expiry(cfg, s, s.owner[t]) <= call.ended || SuccessorOk(cfg, s, t, next))
      case Refused => true
      case _ => false
  }

  /** A chain whose first token is still to be stored. */
  predicate NewChainOk(s: System, c: CallId, chain: ChainId) {
    chain in s.chains && chain in s.minted && s.minted[chain] == c && ChainKey(chain) in s.store.data
  }

  predicate CallOk(cfg: Config, s: System, c: CallId)
    requires c in s.calls
  {
    var call := s.calls[c];
    && call.began <= call.ended <= s.Now() && call.ended <= call.began + cfg.span
    && (!call.pc.Done? ==> s.Now() <= call.began + cfg.span)
    && (call.pc.WonClaim? || call.pc.Issued? ==> call.pc.next in s.minted && s.minted[call.pc.next] == c)
    && match call.op
       case Rotate(t) => RotateOk(cfg, s, call)
       case CreateChain(_) => call.pc.Enter? || (call.pc.ChainSet? && NewChainOk(s, c, call.pc.chain)) || call.pc.Done?
       case Revoke(t) => call.pc.Enter? || (call.pc.HasRecord? && RecordOk(s, t, call.pc.rec)) || call.pc.Done?
       case SessionActive(_) => call.pc.Enter? || call.pc.Done?
  }

  /** The call that created the token's chain has finished. */
  predicate OwnerOk(s: System, t: Token)
    requires t in s.owner
  {
    var chain := s.owner[t];
    chain in s.chains && chain in s.minted && s.minted[chain] in s.calls && s.calls[s.minted[chain]].pc.Done?
  }

  ghost predicate HistoryOk(s: System) {
    && s.chains.Keys <= s.minted.Keys && s.owner.Keys <= s.minted.Keys
    && (forall t | t in s.owner :: OwnerOk(s, t))
    && (forall chain | chain in s.chains :: s.chains[chain] <= s.Now())
  }

  ghost predicate KeysOk(cfg: Config, s: System) { forall k | k in s.store.data :: KeyOk(cfg, s, k) }

  ghost predicate ClaimsOk(cfg: Config, s: System) { forall t | t in s.claims :: ClaimOk(cfg, s, t) }

  ghost predicate CallsOk(cfg: Config, s: System) { forall c | c in s.calls :: CallOk(cfg, s, c) }

  ghost predicate Inv(cfg: Config, s: System) {
    HistoryOk(s) && KeysOk(cfg, s) && ClaimsOk(cfg, s) && CallsOk(cfg, s)
  }

  /** How one step changes what other calls rely on. */
  ghost predicate Extends(s: System, s': System) {
    && s.Now() <= s'.Now()
    && (forall r | r in s.minted :: r in s'.minted && s'.minted[r] == s.minted[r])
    && (forall chain | chain in s.chains :: chain in s'.chains && s'.chains[chain] == s.chains[chain])
    && (forall t | t in s.owner :: t in s'.owner && s'.owner[t] == s.owner[t])
    && (forall t | t in s.claims ::
          && t in s'.claims && s'.claims[t].(marked := None) == s.claims[t].(marked := None)
          && (s.claims[t].marked == s'.claims[t].marked
              || (s.claims[t].marked.None? && s'.claims[t].marked == Some(s'.Now()))))
    && (forall t | t in s'.claims && t !in s.claims :: s'.claims[t].marked.None?)
    && (forall k | k in s.store.data && !k.ChainKey? :: k in s'.store.data)
  }

  lemma KeyKept(cfg: Config, s: System, s': System, k: Key)
    requires Extends(s, s') && k in s.store.data && KeyOk(cfg, s, k)
    requires k in s'.store.data && s'.store.data[k] == s.store.data[k]
    ensures KeyOk(cfg, s', k)
  {
  }

  lemma CallKept(cfg: Config, s: System, s': System, c: CallId)
    requires Extends(s, s') && c in s.calls && CallOk(cfg, s, c)
    requires c in s'.calls && s'.calls[c] == s.calls[c]
    requires !s.calls[c].pc.Done? ==> s'.Now() <= s.calls[c].began + cfg.span
    requires s.calls[c].pc.ChainSet? ==> ChainKey(s.calls[c].pc.chain) in s'.store.data
    ensures CallOk(cfg, s', c)
  {
  }

  /** If `c` is about to claim a token that is already claimed, its claim will fail. */
  predicate LosesToFirstClaim(cfg: Config, s: System, c: CallId)
    requires c in s.calls
  {
    var op := s.calls[c].op;
    Prompt(cfg) && op.Rotate? && s.calls[c].pc.NotUsed? && op.token in s.claims && Owned(s, op.token)
        && !Over(cfg, s, op.token)
    ==> s.store.Live(GraceKey(op.token))
  }

  /** The heart of the protocol: while the chain runs, a second claim of a token meets a live grace
      key, because the two calls together are shorter than the grace period. */
  lemma NoSecondClaim(cfg: Config, s: System, c: CallId)
    requires Inv(cfg, s) && c in s.calls
    ensures LosesToFirstClaim(cfg, s, c)
  {
    var op := s.calls[c].op;
    if Prompt(cfg) && op.Rotate? && s.calls[c].pc.NotUsed? && op.token in s.claims && !Over(cfg, s, op.token) {
      assert ClaimOk(cfg, s, op.token) && CallOk(cfg, s, c);
      assert CallOk(cfg, s, s.claims[op.token].winner);
      assert KeyOk(cfg, s, GraceKey(op.token));
    }
  }

  lemma StepExtends(cfg: Config, s: System, c: CallId, random: nat)
    requires Inv(cfg, s) && Enabled(cfg, s, Step(c, random))
    ensures Extends(s, ApplyStep(cfg, s, c, random))
  {
    hide KeysOk, ClaimsOk, RotateOk, NextClaims;
    var s' := ApplyStep(cfg, s, c, random);
    ClaimsOnlyGrow(s, c, s'.calls[c].pc);
  }

  lemma EventExtends(cfg: Config, s: System, e: Event)
    requires Inv(cfg, s) && Enabled(cfg, s, e)
    ensures Extends(s, Apply(cfg, s, e))
  {
    if e.Step? {
      StepExtends(cfg, s, e.c, e.random);
    }
  }

  lemma ClaimsOnlyGrow(s: System, c: CallId, pc: Pc)
    requires c in s.calls
    ensures var claims := NextClaims(s, c, pc);
            && (forall t | t in s.claims ::
                  && t in claims && claims[t].(marked := None) == s.claims[t].(marked := None)
                  && (s.claims[t].marked == claims[t].marked
                      || (s.claims[t].marked.None? && claims[t].marked == Some(s.Now()))))
            && (forall t | t in claims && t !in s.claims :: claims[t].marked.None?)
  {
  }

  lemma CreationWritesOk(cfg: Config, s: System, c: CallId, random: nat, k: Key)
    requires c in s.calls && !s.calls[c].pc.Done? && random !in s.minted && CallOk(cfg, s, c)
    requires s.owner.Keys <= s.minted.Keys && !s.calls[c].op.Rotate?
    requires forall chain | chain in s.chains :: s.chains[chain] <= s.Now()
    requires k in ApplyStep(cfg, s, c, random).store.data
    requires !(k in s.store.data && s.store.data[k] == ApplyStep(cfg, s, c, random).store.data[k])
    ensures KeyOk(cfg, ApplyStep(cfg, s, c, random), k)
  {
  }

  lemma RotationWritesOk(cfg: Config, s: System, c: CallId, random: nat, k: Key)
    requires c in s.calls && !s.calls[c].pc.Done? && random !in s.minted && CallOk(cfg, s, c)
    requires s.owner.Keys <= s.minted.Keys && s.calls[c].op.Rotate?
    requires s.calls[c].op.token in s.claims ==> ClaimOk(cfg, s, s.calls[c].op.token)
    requires LosesToFirstClaim(cfg, s, c)
    requires k in ApplyStep(cfg, s, c, random).store.data
    requires !(k in s.store.data && s.store.data[k] == ApplyStep(cfg, s, c, random).store.data[k])
    ensures KeyOk(cfg, ApplyStep(cfg, s, c, random), k)
  {
    match s.calls[c].pc
    case NotUsed(_, _) =>
    case WonClaim(_, _, _) =>
    case Issued(_, _, _) =>
    case _ =>
  }

  lemma StepKeepsKeys(cfg: Config, s: System, c: CallId, random: nat, k: Key)
    requires Inv(cfg, s) && Enabled(cfg, s, Step(c, random))
    requires k in ApplyStep(cfg, s, c, random).store.data
    ensures KeyOk(cfg, ApplyStep(cfg, s, c, random), k)
  {
    var s' := ApplyStep(cfg, s, c, random);
    var call := s.calls[c];
    StepExtends(cfg, s, c, random);
    assert CallOk(cfg, s, c);
    if k in s.store.data && s'.store.data[k] == s.store.data[k] {
      assert KeyOk(cfg, s, k);
      KeyKept(cfg, s, s', k);
    } else {
      if call.op.Rotate? {
        if call.op.token in s.claims {
          assert ClaimOk(cfg, s, call.op.token);
        }
        NoSecondClaim(cfg, s, c);
        RotationWritesOk(cfg, s, c, random, k);
      } else {
        CreationWritesOk(cfg, s, c, random, k);
      }
    }
  }

  lemma OldClaimOk(cfg: Config, s: System, c: CallId, random: nat, t: Token)
    requires c in s.calls && !s.calls[c].pc.Done? && random !in s.minted && CallOk(cfg, s, c)
    requires Extends(s, ApplyStep(cfg, s, c, random))
    requires t in s.claims && ClaimOk(cfg, s, t) && CallOk(cfg, s, s.claims[t].winner)
    ensures ClaimOk(cfg, ApplyStep(cfg, s, c, random), t)
  {
    match s.calls[c].pc
    case ChainSet(_) =>
    case WonClaim(_, _, _) =>
    case Issued(_, _, _) =>
    case NotUsed(_, _) =>
    case _ =>
  }

  lemma StepKeepsClaims(cfg: Config, s: System, c: CallId, random: nat, t: Token)
    requires Inv(cfg, s) && Enabled(cfg, s, Step(c, random))
    requires t in ApplyStep(cfg, s, c, random).claims
    ensures ClaimOk(cfg, ApplyStep(cfg, s, c, random), t)
  {
    StepExtends(cfg, s, c, random);
    assert CallOk(cfg, s, c);
    if t in s.claims {
      assert ClaimOk(cfg, s, t) && CallOk(cfg, s, s.claims[t].winner);
      OldClaimOk(cfg, s, c, random, t);
    } else {
      assert RtKey(random) in s.store.data ==> KeyOk(cfg, s, RtKey(random));
    }
  }

  /** The keys of `t` and of its chain are well formed, and so is the claim of `t`. */
  predicate TokenOk(cfg: Config, s: System, t: Token) {
    && (RtKey(t) in s.store.data ==> KeyOk(cfg, s, RtKey(t)))
    && (UsedKey(t) in s.store.data ==> KeyOk(cfg, s, UsedKey(t)))
    && (GraceKey(t) in s.store.data ==> KeyOk(cfg, s, GraceKey(t)))
    && (Owned(s, t) && ChainKey(s.owner[t]) in s.store.data ==> KeyOk(cfg, s, ChainKey(s.owner[t])))
    && (t in s.claims ==> ClaimOk(cfg, s, t))
  }

  predicate Writes(pc: Pc) {
    pc.NotUsed? || pc.WonClaim? || pc.Issued?
  }

  lemma RotateReadOk(cfg: Config, s: System, c: CallId, random: nat)
    requires c in s.calls && !s.calls[c].pc.Done? && random !in s.minted && s.owner.Keys <= s.minted.Keys
    requires s.calls[c].op.Rotate? && CallOk(cfg, s, c) && TokenOk(cfg, s, s.calls[c].op.token)
    requires LosesToFirstClaim(cfg, s, c)
    requires Extends(s, ApplyStep(cfg, s, c, random))
    requires !Writes(s.calls[c].pc)
    ensures CallOk(cfg, ApplyStep(cfg, s, c, random), c)
  {
    match s.calls[c].pc
    case Enter =>
    case ChainSet(_) =>
    case HasRecord(_) =>
    case HasTtl(_, _) =>
    case WasUsed(_) =>
    case MustDrop(_) =>
    case LostClaim(_) =>
  }

  lemma RotateWriteOk(cfg: Config, s: System, c: CallId, random: nat)
    requires c in s.calls && !s.calls[c].pc.Done? && random !in s.minted && s.owner.Keys <= s.minted.Keys
    requires s.calls[c].op.Rotate? && CallOk(cfg, s, c) && TokenOk(cfg, s, s.calls[c].op.token)
    requires LosesToFirstClaim(cfg, s, c)
    requires Extends(s, ApplyStep(cfg, s, c, random))
    requires Writes(s.calls[c].pc)
    ensures CallOk(cfg, ApplyStep(cfg, s, c, random), c)
  {
    match s.calls[c].pc
    case NotUsed(_, _) =>
    case WonClaim(_, _, _) =>
    case Issued(_, _, _) =>
  }

  lemma StepKeepsCall(cfg: Config, s: System, c: CallId, random: nat)
    requires Inv(cfg, s) && Enabled(cfg, s, Step(c, random))
    ensures CallOk(cfg, ApplyStep(cfg, s, c, random), c)
  {
    var call := s.calls[c];
    assert CallOk(cfg, s, c);
    StepExtends(cfg, s, c, random);
    if call.op.Rotate? {
      NoSecondClaim(cfg, s, c);
      if Writes(call.pc) {
        RotateWriteOk(cfg, s, c, random);
      } else {
        RotateReadOk(cfg, s, c, random);
      }
    }
  }

  lemma StepKeepsCalls(cfg: Config, s: System, c: CallId, random: nat)
    requires Inv(cfg, s) && Enabled(cfg, s, Step(c, random))
    ensures CallsOk(cfg, ApplyStep(cfg, s, c, random))
  {
    hide KeysOk, ClaimsOk, Extends;
    var s' := ApplyStep(cfg, s, c, random);
    StepExtends(cfg, s, c, random);
    forall d | d in s'.calls ensures CallOk(cfg, s', d) {
      if d == c {
        StepKeepsCall(cfg, s, c, random);
      } else {
        assert CallOk(cfg, s, d);
        CallKept(cfg, s, s', d);
      }
    }
  }

  lemma StepKeepsInv(cfg: Config, s: System, c: CallId, random: nat)
    requires Inv(cfg, s) && Enabled(cfg, s, Step(c, random))
    ensures Inv(cfg, ApplyStep(cfg, s, c, random))
  {
    StepKeepsHistory(cfg, s, c, random);
    forall k | k in ApplyStep(cfg, s, c, random).store.data ensures KeyOk(cfg, ApplyStep(cfg, s, c, random), k) {
      StepKeepsKeys(cfg, s, c, random, k);
    }
    forall t | t in ApplyStep(cfg, s, c, random).claims ensures ClaimOk(cfg, ApplyStep(cfg, s, c, random), t) {
      StepKeepsClaims(cfg, s, c, random, t);
    }
    StepKeepsCalls(cfg, s, c, random);
  }

  lemma StepKeepsHistory(cfg: Config, s: System, c: CallId, random: nat)
    requires Inv(cfg, s) && Enabled(cfg, s, Step(c, random))
    ensures HistoryOk(ApplyStep(cfg, s, c, random))
  {
    var s' := ApplyStep(cfg, s, c, random);
    StepExtends(cfg, s, c, random);
    forall t | t in s'.owner ensures OwnerOk(s', t) {
      assert t in s.owner ==> OwnerOk(s, t);
    }
  }

  /** A step that leaves the data, the history and the present calls alone. */
  lemma QuietKeepsInv(cfg: Config, s: System, s': System)
    requires Inv(cfg, s) && s.Now() <= s'.Now() && s'.store.data == s.store.data
    requires s'.minted == s.minted && s'.chains == s.chains && s'.owner == s.owner && s'.claims == s.claims
    requires forall c | c in s.calls :: c in s'.calls && s'.calls[c] == s.calls[c]
    requires forall c | c in s.calls && !s.calls[c].pc.Done? :: s'.Now() <= s.calls[c].began + cfg.span
    ensures HistoryOk(s') && KeysOk(cfg, s') && ClaimsOk(cfg, s') && forall c | c in s.calls :: CallOk(cfg, s', c)
  {
    forall k | k in s'.store.data ensures KeyOk(cfg, s', k) {
      assert KeyOk(cfg, s, k);
      KeyKept(cfg, s, s', k);
    }
    forall t | t in s'.claims ensures ClaimOk(cfg, s', t) {
      assert ClaimOk(cfg, s, t);
    }
    forall c | c in s.calls ensures CallOk(cfg, s', c) {
      assert CallOk(cfg, s, c);
      CallKept(cfg, s, s', c);
    }
    assert forall t | t in s'.owner :: OwnerOk(s, t) ==> OwnerOk(s', t);
  }

  lemma TickKeepsInv(cfg: Config, s: System, seconds: nat)
    requires Inv(cfg, s) && Enabled(cfg, s, Tick(seconds))
    ensures Inv(cfg, Apply(cfg, s, Tick(seconds)))
  {
    QuietKeepsInv(cfg, s, Apply(cfg, s, Tick(seconds)));
  }

  lemma BeginKeepsInv(cfg: Config, s: System, c: CallId, op: Op)
    requires Inv(cfg, s) && Enabled(cfg, s, Begin(c, op))
    ensures Inv(cfg, Apply(cfg, s, Begin(c, op)))
  {
    var s' := Apply(cfg, s, Begin(c, op));
    QuietKeepsInv(cfg, s, s');
    assert CallOk(cfg, s', c);
  }

  lemma EventKeepsInv(cfg: Config, s: System, e: Event)
    requires Inv(cfg, s) && Enabled(cfg, s, e)
    ensures Inv(cfg, Apply(cfg, s, e))
  {
    match e
    case Begin(c, op) => BeginKeepsInv(cfg, s, c, op);
    case Step(c, random) => StepKeepsInv(cfg, s, c, random);
    case Tick(seconds) => TickKeepsInv(cfg, s, seconds);
  }

  lemma {:induction false} RunKeepsInv(cfg: Config, s: System, es: seq<Event>)
    requires Inv(cfg, s) && Legal(cfg, s, es)
    ensures Inv(cfg, Run(cfg, s, es))
    decreases |es|
  {
    if es != [] {
      EventKeepsInv(cfg, s, es[0]);
      RunKeepsInv(cfg, Apply(cfg, s, es[0]), es[1..]);
    }
  }

  lemma ReachableInv(cfg: Config, s: System)
    requires Reachable(cfg, s)
    ensures Inv(cfg, s)
  {
    var es :| Legal(cfg, EMPTY, es) && Run(cfg, EMPTY, es) == s;
    RunKeepsInv(cfg, EMPTY, es);
  }
}
