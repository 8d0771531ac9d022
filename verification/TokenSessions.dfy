/** Signing out, asking whether a session is active, and whose session it is: over all runs. */
module TokenSessions {
  import opened Redis
  import opened Wrappers
  import opened TokenProtocol
  import opened TokenInvariant
  import opened TokenTheorems

  lemma {:induction false} FreshNumber(ns: set<nat>) returns (n: nat)
    ensures n !in ns
    ensures forall i | i in ns :: i < n
    decreases |ns|
  {
    if ns == {} {
      n := 0;
    } else {
      var i :| i in ns;
      var rest := ns - {i};
      var m := FreshNumber(rest);
      n := if i < m then m else i + 1;
      assert ns == rest + {i};
    }
  }

  // ---------------------------------------------------------------- signing out

  /** Where a revocation is that began when the token's record was stored. */
  predicate Revoking(cfg: Config, s: System, c: CallId, t: Token) {
    && Owned(s, t) && RtKey(t) in s.store.data && c in s.calls && s.calls[c].op == Revoke(t)
    && (s.calls[c].pc.Done? ==> Dead(s, s.owner[t]))
  }

  lemma RevokingStep(cfg: Config, s: System, e: Event, c: CallId, t: Token)
    requires Inv(cfg, s) && Enabled(cfg, s, e) && Revoking(cfg, s, c, t)
    ensures Revoking(cfg, Apply(cfg, s, e), c, t) && Apply(cfg, s, e).owner[t] == s.owner[t]
  {
    hide Exec;
    EventExtends(cfg, s, e);
    if Dead(s, s.owner[t]) {
      EventKeepsDead(cfg, s, e, s.owner[t]);
    }
    if e.Step? && e.c == c {
      RevokeCommand(cfg, s, c, t, e.random);
    }
  }

  /** The record is found and the chain deleted, or the record has expired and the chain with it. */
  lemma RevokeCommand(cfg: Config, s: System, c: CallId, t: Token, random: nat)
    requires Inv(cfg, s) && Enabled(cfg, s, Step(c, random)) && Revoking(cfg, s, c, t)
    ensures var s' := ApplyStep(cfg, s, c, random);
            s'.calls[c].pc.Done? ==> s.owner[t] in s'.chains && !s'.store.Live(ChainKey(s.owner[t]))
  {
    assert CallOk(cfg, s, c) && KeyOk(cfg, s, RtKey(t));
    if ChainKey(s.owner[t]) in s.store.data {
      assert KeyOk(cfg, s, ChainKey(s.owner[t]));
    }
  }

  lemma {:induction false} RevokingRun(cfg: Config, s: System, es: seq<Event>, c: CallId, t: Token)
    requires Inv(cfg, s) && Legal(cfg, s, es) && Revoking(cfg, s, c, t)
    ensures Revoking(cfg, Run(cfg, s, es), c, t) && Run(cfg, s, es).owner[t] == s.owner[t]
    decreases |es|
  {
    hide Inv, Apply, Enabled;
    if es != [] {
      RevokingStep(cfg, s, es[0], c, t);
      EventKeepsInv(cfg, s, es[0]);
      RevokingRun(cfg, Apply(cfg, s, es[0]), es[1..], c, t);
    }
  }

  /** A sign-out with this token that begins now has ended the session whenever it is finished, whatever
      runs beside it. */
  ghost predicate SignsOut(cfg: Config, s: System, t: Token)
    requires Owned(s, t)
  {
    forall c, es: seq<Event> | c !in s.calls && Legal(cfg, Apply(cfg, s, Begin(c, Revoke(t))), es) ::
      var s' := Run(cfg, Apply(cfg, s, Begin(c, Revoke(t))), es);
      c in s'.calls && s'.calls[c].pc.Done? ==> Dead(s', s.owner[t])
  }

  /** A sign-out ends the session of its token if and only if the token's record is stored when it
      begins, or the session is over anyway. */
  lemma SignsOutExactlyWhen(cfg: Config, s: System, t: Token)
    requires Reachable(cfg, s) && Owned(s, t)
    ensures SignsOut(cfg, s, t) <==> RtKey(t) in s.store.data || Dead(s, s.owner[t])
  {
    hide Inv;
    ReachableInv(cfg, s);
    if Dead(s, s.owner[t]) || RtKey(t) in s.store.data {
      forall c, es: seq<Event> | c !in s.calls && Legal(cfg, Apply(cfg, s, Begin(c, Revoke(t))), es)
        ensures var s' := Run(cfg, Apply(cfg, s, Begin(c, Revoke(t))), es);
                c in s'.calls && s'.calls[c].pc.Done? ==> Dead(s', s.owner[t])
      {
        var s1 := Apply(cfg, s, Begin(c, Revoke(t)));
        EventKeepsInv(cfg, s, Begin(c, Revoke(t)));
        if Dead(s, s.owner[t]) {
          DeadChainFailsForever(cfg, s1, es, s.owner[t]);
        } else {
          RevokingRun(cfg, s1, es, c, t);
        }
      }
    } else {
      MissesUnstored(cfg, s, t);
    }
  }

  lemma RunOne(cfg: Config, s: System, e: Event)
    requires Enabled(cfg, s, e)
    ensures Legal(cfg, s, [e]) && Run(cfg, s, [e]) == Apply(cfg, s, e)
  {
    hide Apply, Enabled;
    assert [e][1..] == [];
  }

  /** The record is not found, and the session goes on. */
  lemma MissesUnstored(cfg: Config, s: System, t: Token)
    requires Owned(s, t) && RtKey(t) !in s.store.data && !Dead(s, s.owner[t])
    ensures !SignsOut(cfg, s, t)
  {
    var c := FreshNumber(s.calls.Keys);
    var random := FreshNumber(s.minted.Keys);
    var s1 := Apply(cfg, s, Begin(c, Revoke(t)));
    RunOne(cfg, s1, Step(c, random));
    assert ApplyStep(cfg, s1, c, random).calls[c].pc == Done(Revoked);
  }

  /** A client can hold such a token: it was given a successor that the winner of the claim has not
      stored yet, and its sign-out leaves the session alive. */
  lemma SignOutMissed(cfg: Config) returns (s: System)
    requires cfg.sessionTtl > 0
    ensures Reachable(cfg, s) && Succeeded(cfg, s, 2, 1)
    ensures var next := s.calls[2].pc.result.token; Owned(s, next) && !SignsOut(cfg, s, next)
  {
    s := UnstoredSuccessorReturned(cfg, 0);
    SignsOutExactlyWhen(cfg, s, s.calls[2].pc.result.token);
  }

  // ---------------------------------------------------------------- whether a session is active

  /** A question begun since the chain was created, and its answer. */
  predicate Asking(s: System, c: CallId, chain: ChainId) {
    && chain in s.chains && c in s.calls && s.calls[c].op == SessionActive(chain)
    && match s.calls[c].pc
       case Done(Active(b)) => b || Dead(s, chain)
       case Done(_) => false
       case pc => pc.Enter?
  }

  lemma AskingStep(cfg: Config, s: System, e: Event, c: CallId, chain: ChainId)
    requires s.chains.Keys <= s.minted.Keys && Enabled(cfg, s, e) && Asking(s, c, chain)
    ensures Asking(Apply(cfg, s, e), c, chain)
  {
    hide Exec;
    if Dead(s, chain) {
      EventKeepsDead(cfg, s, e, chain);
    }
    if e.Step? && e.c == c {
      AskCommand(cfg, s, c, chain, e.random);
    }
  }

  lemma AskCommand(cfg: Config, s: System, c: CallId, chain: ChainId, random: nat)
    requires c in s.calls && s.calls[c].op == SessionActive(chain) && s.calls[c].pc.Enter?
    ensures ApplyStep(cfg, s, c, random).calls[c].pc == Done(Active(s.store.Live(ChainKey(chain))))
    ensures ApplyStep(cfg, s, c, random).store == s.store && ApplyStep(cfg, s, c, random).chains == s.chains
  {}

  lemma {:induction false} AskingRun(cfg: Config, s: System, es: seq<Event>, c: CallId, chain: ChainId)
    requires Inv(cfg, s) && Legal(cfg, s, es) && Asking(s, c, chain)
    ensures Asking(Run(cfg, s, es), c, chain)
    decreases |es|
  {
    hide Apply, Enabled, Asking;
    if es != [] {
      AskingStep(cfg, s, es[0], c, chain);
      EventKeepsInv(cfg, s, es[0]);
      AskingRun(cfg, Apply(cfg, s, es[0]), es[1..], c, chain);
    }
  }

  /** The question whether a session is active, asked now and answered in a later state: "no" if the
      session is over now, "yes" if it is still alive then. */
  lemma ActiveIsTrue(cfg: Config, s: System, c: CallId, chain: ChainId, es: seq<Event>)
    requires Reachable(cfg, s) && chain in s.chains && c !in s.calls
    requires Legal(cfg, Apply(cfg, s, Begin(c, SessionActive(chain))), es)
    ensures var s' := Run(cfg, Apply(cfg, s, Begin(c, SessionActive(chain))), es);
            && c in s'.calls
            && (s'.calls[c].pc.Done? && Dead(s, chain) ==> s'.calls[c].pc.result == Active(false))
            && (s'.calls[c].pc.Done? && !Dead(s', chain) ==> s'.calls[c].pc.result == Active(true))
  {
    hide Inv;
    var s1 := Apply(cfg, s, Begin(c, SessionActive(chain)));
    ReachableInv(cfg, s);
    EventKeepsInv(cfg, s, Begin(c, SessionActive(chain)));
    AskingRun(cfg, s1, es, c, chain);
    if Dead(s, chain) {
      DeadChainFailsForever(cfg, s1, es, chain);
    }
  }

  // ---------------------------------------------------------------- whose session it is

  /** Whom the chain was created for. */
  function Identity(s: System, chain: ChainId): Option<Claims> {
    if chain in s.minted && s.minted[chain] in s.calls && s.calls[s.minted[chain]].op.CreateChain?
    then Some(s.calls[s.minted[chain]].op.claims)
    else None
  }

  /** The record a call has read or returns. */
  function RecordOf(pc: Pc): Option<RefreshRecord> {
    match pc
    case HasRecord(rec) => Some(rec)
    case HasTtl(rec, _) => Some(rec)
    case WasUsed(rec) => Some(rec)
    case MustDrop(rec) => Some(rec)
    case NotUsed(rec, _) => Some(rec)
    case LostClaim(rec) => Some(rec)
    case WonClaim(rec, _, _) => Some(rec)
    case Issued(rec, _, _) => Some(rec)
    case Done(Rotated(_, rec)) => Some(rec)
    case _ => None
  }

  predicate Truthful(s: System, rec: RefreshRecord) { Identity(s, rec.chain) == Some(rec.claims) }

  predicate KeyTruthful(s: System, k: Key)
    requires k in s.store.data
  {
    match (k, s.store.data[k].value)
    case (ChainKey(chain), Uid(uid)) => Identity(s, chain).Some? && Identity(s, chain).value.uid == uid
    case (RtKey(_), Rec(rec)) => Truthful(s, rec)
    case _ => true
  }

  predicate CallTruthful(s: System, c: CallId)
    requires c in s.calls
  {
    var call := s.calls[c];
    && (RecordOf(call.pc).Some? ==> Truthful(s, RecordOf(call.pc).value))
    && (call.op.CreateChain? && call.pc.ChainSet? ==> Identity(s, call.pc.chain) == Some(call.op.claims))
    && (call.pc.Done? && call.pc.result.Rotated? ==> call.op.Rotate?)
    && (call.op.CreateChain? && call.pc.Done? ==>
          call.pc.result.Created? && Identity(s, call.pc.result.chain) == Some(call.op.claims))
  }

  ghost predicate IdentitiesOk(s: System) {
    && (forall k | k in s.store.data :: KeyTruthful(s, k))
    && (forall c | c in s.calls :: CallTruthful(s, c))
  }

  lemma IdentityStays(cfg: Config, s: System, e: Event, chain: ChainId)
    requires Enabled(cfg, s, e) && Identity(s, chain).Some?
    ensures Identity(Apply(cfg, s, e), chain) == Identity(s, chain)
  {
    hide Exec;
  }

  lemma StepKeyTruthful(cfg: Config, s: System, c: CallId, random: nat, k: Key)
    requires Enabled(cfg, s, Step(c, random)) && CallTruthful(s, c)
    requires k in s.store.data ==> KeyTruthful(s, k)
    requires k in ApplyStep(cfg, s, c, random).store.data
    ensures KeyTruthful(ApplyStep(cfg, s, c, random), k)
  {
    var s' := ApplyStep(cfg, s, c, random);
    if k in s.store.data && s'.store.data[k] == s.store.data[k] {
      StepKeepsIdentities(cfg, s, c, random);
    } else {
      StepKeepsIdentities(cfg, s, c, random);
    }
  }

  lemma StepKeepsIdentities(cfg: Config, s: System, c: CallId, random: nat)
    requires Enabled(cfg, s, Step(c, random))
    ensures forall chain | Identity(s, chain).Some? ::
              Identity(ApplyStep(cfg, s, c, random), chain) == Identity(s, chain)
    ensures s.calls[c].op.CreateChain? ==> Identity(ApplyStep(cfg, s, c, random), random) == Some(s.calls[c].op.claims)
  {
    hide Exec;
  }

  lemma StepCallTruthful(cfg: Config, s: System, c: CallId, random: nat)
    requires Enabled(cfg, s, Step(c, random)) && CallTruthful(s, c)
    requires forall k | k in s.store.data :: KeyTruthful(s, k)
    ensures CallTruthful(ApplyStep(cfg, s, c, random), c)
  {
    hide Identity;
    StepKeepsIdentities(cfg, s, c, random);
    var op := s.calls[c].op;
    if s.calls[c].pc.Enter? && (op.Rotate? || op.Revoke?) && RtKey(op.token) in s.store.data {
      assert KeyTruthful(s, RtKey(op.token));
    }
  }

  lemma IdentitiesStep(cfg: Config, s: System, e: Event)
    requires Enabled(cfg, s, e) && IdentitiesOk(s)
    ensures IdentitiesOk(Apply(cfg, s, e))
  {
    hide Exec, Identity;
    var s' := Apply(cfg, s, e);
    forall chain | Identity(s, chain).Some? ensures Identity(s', chain) == Identity(s, chain) {
      IdentityStays(cfg, s, e, chain);
    }
    forall k | k in s'.store.data ensures KeyTruthful(s', k) {
      if e.Step? {
        StepKeyTruthful(cfg, s, e.c, e.random, k);
      } else {
        assert KeyTruthful(s, k);
      }
    }
    forall c | c in s'.calls ensures CallTruthful(s', c) {
      if e.Step? && e.c == c {
        StepCallTruthful(cfg, s, c, e.random);
      } else if c in s.calls {
        assert CallTruthful(s, c);
      }
    }
  }

  lemma {:induction false} IdentitiesRun(cfg: Config, s: System, es: seq<Event>)
    requires IdentitiesOk(s) && Legal(cfg, s, es)
    ensures IdentitiesOk(Run(cfg, s, es))
    decreases |es|
  {
    hide IdentitiesOk, Apply, Enabled;
    if es != [] {
      IdentitiesStep(cfg, s, es[0]);
      IdentitiesRun(cfg, Apply(cfg, s, es[0]), es[1..]);
    }
  }

  /** However often a session's tokens are rotated, and whatever runs beside it, the claims that come
      with a token are those its session was created with, and the chain's key names the same user. */
  lemma IdentityKept(cfg: Config, s: System, c: CallId)
    requires Reachable(cfg, s) && c in s.calls && s.calls[c].pc.Done?
    ensures var op, result := s.calls[c].op, s.calls[c].pc.result;
            && (result.Rotated? ==>
                  && op.Rotate? && Owned(s, op.token) && result.rec.chain == s.owner[op.token]
                  && Identity(s, s.owner[op.token]) == Some(result.rec.claims))
            && (op.CreateChain? ==> result.Created? && Identity(s, result.chain) == Some(op.claims))
    ensures forall chain | ChainKey(chain) in s.store.data ::
              Identity(s, chain).Some? && s.store.data[ChainKey(chain)].value == Uid(Identity(s, chain).value.uid)
  {
    hide Identity;
    var es :| Legal(cfg, EMPTY, es) && Run(cfg, EMPTY, es) == s;
    IdentitiesRun(cfg, EMPTY, es);
    ReachableInv(cfg, s);
    assert CallTruthful(s, c) && CallOk(cfg, s, c);
    forall chain | ChainKey(chain) in s.store.data
      ensures Identity(s, chain).Some? && s.store.data[ChainKey(chain)].value == Uid(Identity(s, chain).value.uid)
    {
      assert KeyOk(cfg, s, ChainKey(chain)) && KeyTruthful(s, ChainKey(chain));
    }
  }
}
