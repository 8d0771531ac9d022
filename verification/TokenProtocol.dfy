/** Sign-in sessions and their rotating refresh tokens (api/src/token-store.ts).
    Every operation is a sequence of single Redis commands; `Exec` is one of them, so that any number
    of operations can interleave between commands. */
module TokenProtocol {
  import opened Redis
  import opened Wrappers

  // Random strings are compared only for equality. The token hash is injective, so a token stands
  // for its own hash in a key.
  type Token = nat
  type ChainId = nat

  const REFRESH_GRACE_SECONDS: nat := 30

  datatype Claims = Claims(uid: string, email: string, name: string)

  datatype RefreshRecord = RefreshRecord(chain: ChainId, claims: Claims)

  datatype Key = ChainKey(id: ChainId) | RtKey(token: Token) | UsedKey(token: Token) | GraceKey(token: Token)

  datatype Value = Uid(uid: string) | Rec(rec: RefreshRecord) | Mark | Tok(token: Token)

  type KeyStore = Store<Key, Value>

  datatype Op =
    | CreateChain(claims: Claims)
    | Rotate(token: Token)
    | Revoke(token: Token)
    | SessionActive(chain: ChainId)

  datatype Result =
    | Created(token: Token, chain: ChainId)
    | Rotated(token: Token, rec: RefreshRecord)
    | Refused
    | Revoked
    | Active(active: bool)

  /** Where an operation is between two commands, with the local variables it still needs. */
  datatype Pc =
    | Enter
    | ChainSet(chain: ChainId)
    | HasRecord(rec: RefreshRecord)
    | HasTtl(rec: RefreshRecord, ttl: int)
    | WasUsed(rec: RefreshRecord)
    | MustDrop(rec: RefreshRecord)
    | NotUsed(rec: RefreshRecord, ttl: int)
    | LostClaim(rec: RefreshRecord)
    | WonClaim(rec: RefreshRecord, ttl: int, next: Token)
    | Issued(rec: RefreshRecord, ttl: int, next: Token)
    | Done(result: Result)

  /** One Redis command of `op` and the code up to the next one. `random` is the value a
      `randomToken()` in that code returns. */
  function Exec(op: Op, pc: Pc, store: KeyStore, sessionTtl: int, random: nat): (KeyStore, Pc) {
    match (op, pc)
    case (CreateChain(claims), Enter) =>
      (store.Set(ChainKey(random), Uid(claims.uid), Some(sessionTtl)), ChainSet(random))
    case (CreateChain(claims), ChainSet(chain)) =>
      (store.Set(RtKey(random), Rec(RefreshRecord(chain, claims)), Some(sessionTtl)), Done(Created(random, chain)))

    case (Rotate(t), Enter) =>
      (store, ReadRecord(store, t, Refused))
    case (Rotate(t), HasRecord(rec)) =>
      var ttl := store.Ttl(ChainKey(rec.chain));
      (store, if ttl <= 0 then Done(Refused) else HasTtl(rec, ttl))
    case (Rotate(t), HasTtl(rec, ttl)) =>
      (store, if store.Get(UsedKey(t)).Some? then WasUsed(rec) else NotUsed(rec, ttl))
    case (Rotate(t), WasUsed(rec)) =>
      (store, if HasSuccessor(store, t) then Done(Rotated(store.Get(GraceKey(t)).value.token, rec)) else MustDrop(rec))
    case (Rotate(t), MustDrop(rec)) =>
      (store.Del(ChainKey(rec.chain)), Done(Refused))
    case (Rotate(t), NotUsed(rec, ttl)) =>
      if store.Live(GraceKey(t)) then (store, LostClaim(rec))
      else (store.Set(GraceKey(t), Tok(random), Some(REFRESH_GRACE_SECONDS)), WonClaim(rec, ttl, random))
    case (Rotate(t), LostClaim(rec)) =>
      (store, Done(if HasSuccessor(store, t) then Rotated(store.Get(GraceKey(t)).value.token, rec) else Refused))
    case (Rotate(t), WonClaim(rec, ttl, next)) =>
      (store.Set(RtKey(next), Rec(rec), Some(ttl)), Issued(rec, ttl, next))
    case (Rotate(t), Issued(rec, ttl, next)) =>
      (store.Set(UsedKey(t), Mark, Some(ttl)), Done(Rotated(next, rec)))

    case (Revoke(t), Enter) =>
      (store, ReadRecord(store, t, Revoked))
    case (Revoke(t), HasRecord(rec)) =>
      (store.Del(ChainKey(rec.chain)), Done(Revoked))

    case (SessionActive(chain), Enter) =>
      (store, Done(Active(store.Get(ChainKey(chain)).Some?)))

    case _ => (store, pc)
  }

  function ReadRecord(store: KeyStore, t: Token, missing: Result): Pc {
    match store.Get(RtKey(t))
    case Some(Rec(rec)) => HasRecord(rec)
    case _ => Done(missing)
  }

  predicate HasSuccessor(store: KeyStore, t: Token) {
    store.Get(GraceKey(t)).Some? && store.Get(GraceKey(t)).value.Tok?
  }

  // ---------------------------------------------------------------- interleaved calls

  type CallId = nat

  datatype Call = Call(op: Op, began: int, pc: Pc, ended: int)

  /** The first successor claimed for a token: which call claimed it, when, and when the token was
      marked used. */
  datatype Claim = Claim(next: Token, at: int, winner: CallId, marked: Option<int>)

  datatype Config = Config(sessionTtl: int, span: nat)

  /** The store, every call begun so far, and what happened (`minted`: the call each random value was
      drawn by, `chains`: creation times, `owner`: the chain of each token, `claims`). No step reads
      the last four fields except to keep random values fresh. */
  datatype System = System(
    store: KeyStore,
    calls: map<CallId, Call>,
    minted: map<nat, CallId>,
    chains: map<ChainId, int>,
    owner: map<Token, ChainId>,
    claims: map<Token, Claim>)
  {
    function Now(): int { store.now }

    predicate Running(c: CallId) { c in calls && !calls[c].pc.Done? }
  }

  const EMPTY := System(Store(map[], 0), map[], map[], map[], map[], map[])

  datatype Event = Begin(c: CallId, op: Op) | Step(c: CallId, random: nat) | Tick(seconds: nat)

  /** No call takes longer than `cfg.span`: the clock does not pass a running call's deadline. */
  predicate Enabled(cfg: Config, s: System, e: Event) {
    match e
    case Begin(c, op) => c !in s.calls
    case Step(c, random) => s.Running(c) && random !in s.minted
    case Tick(seconds) =>
      forall c | c in s.calls && !s.calls[c].pc.Done? :: s.Now() + seconds <= s.calls[c].began + cfg.span
  }

  function Apply(cfg: Config, s: System, e: Event): System
    requires Enabled(cfg, s, e)
  {
    match e
    case Begin(c, op) => s.(calls := s.calls[c := Call(op, s.Now(), Enter, s.Now())])
    case Step(c, random) => ApplyStep(cfg, s, c, random)
    case Tick(seconds) => s.(store := s.store.Advance(seconds))
  }

  function ApplyStep(cfg: Config, s: System, c: CallId, random: nat): System
    requires c in s.calls
  {
    var call := s.calls[c];
    var (store, pc) := Exec(call.op, call.pc, s.store, cfg.sessionTtl, random);
    var chains := if call.op.CreateChain? && call.pc.Enter? then s.chains[random := s.Now()] else s.chains;
    var owner :=
      if call.op.CreateChain? && call.pc.ChainSet? then s.owner[random := call.pc.chain]
      else if pc.WonClaim? && call.pc.NotUsed? then s.owner[random := pc.rec.chain]
      else s.owner;
    System(store, s.calls[c := call.(pc := pc, ended := s.Now())], s.minted[random := c], chains, owner,
           NextClaims(s, c, pc))
  }

  function NextClaims(s: System, c: CallId, pc: Pc): map<Token, Claim>
    requires c in s.calls
  {
    var call := s.calls[c];
    if !call.op.Rotate? then s.claims
    else
      var t := call.op.token;
      if pc.WonClaim? && call.pc.NotUsed? && t !in s.claims then s.claims[t := Claim(pc.next, s.Now(), c, None)]
      else if call.pc.Issued? && t in s.claims && s.claims[t].marked.None? then
        s.claims[t := s.claims[t].(marked := Some(s.Now()))]
      else s.claims
  }

  predicate Legal(cfg: Config, s: System, es: seq<Event>)
    decreases |es|
  {
    es == [] || (Enabled(cfg, s, es[0]) && Legal(cfg, Apply(cfg, s, es[0]), es[1..]))
  }

  function Run(cfg: Config, s: System, es: seq<Event>): System
    requires Legal(cfg, s, es)
    decreases |es|
  {
    if es == [] then s else Run(cfg, Apply(cfg, s, es[0]), es[1..])
  }

  ghost predicate Reachable(cfg: Config, s: System) {
    exists es :: Legal(cfg, EMPTY, es) && Run(cfg, EMPTY, es) == s
  }
}
