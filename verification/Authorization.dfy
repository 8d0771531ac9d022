/** Who may use sessions: the cached answers of the access webhook (api/src/authz.ts). Every call is a
    sequence of single Redis commands and at most one webhook call; `Exec` is one of them, so that any
    number of calls can interleave. */
module Authorization {
  import opened Redis
  import opened Wrappers

  // ---------------------------------------------------------------- decimal numbers

  function DigitChar(d: nat): char
    requires d < 10
  {
    '0' + d as char
  }

  function String(n: nat): string {
    if n < 10 then [DigitChar(n)] else String(n / 10) + [DigitChar(n % 10)]
  }

  /** `parseInt(s, 10)` of a string of digits. */
  function ParseInt(s: string): nat {
    if s == [] then 0
    else
      var c := s[|s| - 1];
      10 * ParseInt(s[..|s| - 1]) + if '0' <= c <= '9' then (c - '0') as nat else 0
  }

  lemma {:induction false} ParseString(n: nat)
    ensures String(n) != [] && ParseInt(String(n)) == n && ':' !in String(n) && 'g' !in String(n)
  {
    var s := String(n);
    if n < 10 {
      assert s[..|s| - 1] == [];
    } else {
      ParseString(n / 10);
      assert s[..|s| - 1] == String(n / 10);
    }
  }

  // ---------------------------------------------------------------- keys

  const GEN: string := "orc:v2:authz:gen"
  const PREFIX: string := "orc:v2:authz:"

  function DecisionKey(gen: string, uid: string): string { PREFIX + gen + ":" + uid }

  /** Different generations or users never share a key, whatever characters a user id holds. */
  lemma KeysDiffer(n: nat, u: string, m: nat, v: string)
    ensures DecisionKey(String(n), u) == DecisionKey(String(m), v) ==> n == m && u == v
    ensures DecisionKey(String(n), u) != GEN
  {
    ParseString(n);
    ParseString(m);
    var a, b := String(n), String(m);
    var s, t := DecisionKey(a, u), DecisionKey(b, v);
    var p := |PREFIX|;
    assert s[p..] == a + ":" + u;
    assert t[p..] == b + ":" + v;
    assert GEN[p..] == "gen";
    assert s[p] == a[0] && a[0] in a;
    assert GEN[p] == 'g';
    if s == t {
      CutAtColon(a, u, b, v);
    }
  }

  lemma FirstColon(a: string, u: string)
    requires ':' !in a
    ensures (a + ":" + u)[|a|] == ':' && forall k | 0 <= k < |a| :: (a + ":" + u)[k] != ':'
  {}

  lemma CutAtColon(a: string, u: string, b: string, v: string)
    requires ':' !in a && ':' !in b && a + ":" + u == b + ":" + v
    ensures a == b && u == v
  {
    var s, t := a + ":" + u, b + ":" + v;
    FirstColon(a, u);
    FirstColon(b, v);
    assert a == s[..|a|] && b == t[..|b|];
    assert u == s[|a| + 1..] && v == t[|b| + 1..];
  }

  // ---------------------------------------------------------------- answers

  datatype Decision = Decision(allowed: bool, reason: Option<string>)

  const ALLOWED := Decision(true, None)
  const DENIED := Decision(false, None)
  const MAX_REASON: nat := 300

  /** What the webhook sends back: a body with these two fields, of these types or missing. */
  datatype Reply = Reply(allowed: Option<bool>, reason: Option<string>)

  /** The webhook answered with this decision: its own yes or no, and with a no the first characters of
      the reason it gave, if it gave one. */
  predicate Tells(reply: Option<Reply>, d: Decision) {
    && reply.Some? && reply.value.allowed == Some(d.allowed)
    && var given := reply.value.reason;
    && (d.reason.None? <==> d.allowed || given.None? || given.value == "")
    && (d.reason.Some? && given.Some? ==>
          d.reason.value == given.value[..if |given.value| < MAX_REASON then |given.value| else MAX_REASON])
  }

  /** The webhook said neither yes nor no. */
  predicate TellsNothing(reply: Option<Reply>) { reply.None? || reply.value.allowed.None? }

  /** The decision in a reply; None when the call failed or says nothing. */
  function Heard(reply: Option<Reply>): (r: Option<Decision>)
    ensures forall d :: r == Some(d) <==> Tells(reply, d)
    ensures r.None? <==> TellsNothing(reply)
    ensures r.Some? ==> Proper(r.value)
  {
    if reply.None? || reply.value.allowed.None? then None
    else if reply.value.allowed.value then Some(ALLOWED)
    else
      var r := reply.value.reason;
      assert r.Some? ==> r.value[..|r.value|] == r.value;
      if r.None? || r.value == "" then Some(DENIED)
      else Some(Decision(false, Some(if |r.value| > MAX_REASON then r.value[..MAX_REASON] else r.value)))
  }

  /** Only a denial has a reason, and it is not empty. */
  predicate Proper(d: Decision) { d.reason.Some? ==> !d.allowed && d.reason.value != "" }

  function Cached(d: Decision): string {
    if d.allowed then "1" else if d.reason.Some? && d.reason.value != "" then "0:" + d.reason.value else "0"
  }

  function Uncached(v: string): Decision {
    if v == "1" then ALLOWED
    else if |v| >= 2 && v[..2] == "0:" then Decision(false, Some(v[2..]))
    else DENIED
  }

  /** The cache gives back the decision that was put in. */
  lemma CacheRoundTrip(d: Decision)
    requires Proper(d)
    ensures Uncached(Cached(d)) == d
  {
    var v := Cached(d);
    if d.reason.Some? {
      assert v[..2] == "0:" && v[2..] == d.reason.value;
      assert v[0] == '0' && "1"[0] == '1';
    }
  }

  // ---------------------------------------------------------------- calls

  datatype Config = Config(allowedTtl: int, deniedTtl: int)

  type Strings = Store<string, string>

  datatype Op = Check(uid: string) | Evict(uid: string) | EvictAll

  datatype Pc =
    | Enter
    | HasGen(gen: string)
    | Missed(gen: string)
    | Answered(gen: string, decision: Decision)
    | Done(decision: Decision)
    | Evicted

  function Generation(store: Strings): string {
    if store.Get(GEN).Some? then store.Get(GEN).value else "0"
  }

  function Incr(store: Strings, key: string): Strings {
    var n := if store.Live(key) then ParseInt(store.data[key].value) else 0;
    store.(data := store.data[key := Entry(String(n + 1), if store.Live(key) then store.data[key].expiresAt else None)])
  }

  function Ttl(cfg: Config, d: Decision): int { if d.allowed then cfg.allowedTtl else cfg.deniedTtl }

  predicate Finished(pc: Pc) { pc.Done? || pc.Evicted? }

  /** One Redis command, or the webhook call, and the code up to the next. */
  function Exec(op: Op, pc: Pc, store: Strings, cfg: Config, reply: Option<Reply>): (Strings, Pc) {
    match (op, pc)
    case (Check(_), Enter) => (store, HasGen(Generation(store)))
    case (Check(uid), HasGen(gen)) =>
      var v := store.Get(DecisionKey(gen, uid));
      (store, if v.Some? then Done(Uncached(v.value)) else Missed(gen))
    case (Check(_), Missed(gen)) =>
      (store, if Heard(reply).None? then Done(DENIED) else Answered(gen, Heard(reply).value))
    case (Check(uid), Answered(gen, d)) =>
      (store.Set(DecisionKey(gen, uid), Cached(d), Some(Ttl(cfg, d))), Done(d))

    case (Evict(_), Enter) => (store, HasGen(Generation(store)))
    case (Evict(uid), HasGen(gen)) => (store.Del(DecisionKey(gen, uid)), Evicted)

    case (EvictAll, Enter) => (Incr(store, GEN), Evicted)

    case _ => (store, pc)
  }

  // ---------------------------------------------------------------- interleaved calls

  type CallId = nat

  datatype Call = Call(op: Op, pc: Pc)

  datatype State = State(store: Strings, calls: map<CallId, Call>)

  datatype Event = Start(id: CallId, op: Op) | Step(id: CallId, reply: Option<Reply>) | Wait(seconds: nat)

  predicate Enabled(s: State, e: Event) {
    match e
    case Start(id, _) => id !in s.calls
    case Step(id, _) => id in s.calls && !Finished(s.calls[id].pc)
    case Wait(_) => true
  }

  /** An event that cannot happen changes nothing. */
  function Apply(s: State, e: Event, cfg: Config): State {
    if !Enabled(s, e) then s
    else
      match e
      case Start(id, op) => s.(calls := s.calls[id := Call(op, Enter)])
      case Step(id, reply) =>
        var c := s.calls[id];
        var (store, pc) := Exec(c.op, c.pc, s.store, cfg, reply);
        State(store, s.calls[id := Call(c.op, pc)])
      case Wait(seconds) => s.(store := s.store.Advance(seconds))
  }

  const INIT := State(Store(map[], 0), map[])

  function After(run: seq<Event>, cfg: Config): State {
    if run == [] then INIT else Apply(After(run[..|run| - 1], cfg), run[|run| - 1], cfg)
  }

  // ---------------------------------------------------------------- what a run shows

  /** Event k is a command of call `id`, which is at this place. */
  ghost predicate Moves(run: seq<Event>, cfg: Config, k: nat, id: CallId, call: Call) {
    && k < |run| && run[k].Step? && run[k].id == id
    && id in After(run[..k], cfg).calls && After(run[..k], cfg).calls[id] == call
  }

  /** Event k is the command of an `evictAll`. */
  ghost predicate EvictsAll(run: seq<Event>, cfg: Config, k: nat) {
    exists id :: Moves(run, cfg, k, id, Call(EvictAll, Enter))
  }

  /** In event k the webhook says d about this user, in answer to any check. */
  ghost predicate Says(run: seq<Event>, cfg: Config, k: nat, uid: string, d: Decision) {
    exists id, gen :: Moves(run, cfg, k, id, Call(Check(uid), Missed(gen))) && Tells(run[k].reply, d)
  }

  /** In event k the webhook call of this check fails. */
  ghost predicate Fails(run: seq<Event>, cfg: Config, k: nat, id: CallId) {
    exists uid, gen :: Moves(run, cfg, k, id, Call(Check(uid), Missed(gen))) && TellsNothing(run[k].reply)
  }

  /** How many `evictAll`s happened. */
  ghost function Evictions(run: seq<Event>, cfg: Config): nat {
    if run == [] then 0
    else Evictions(run[..|run| - 1], cfg) + if EvictsAll(run, cfg, |run| - 1) then 1 else 0
  }

  lemma {:induction false} EvictionsGrow(run: seq<Event>, cfg: Config, k: nat)
    requires k <= |run|
    ensures Evictions(run[..k], cfg) <= Evictions(run, cfg)
  {
    if k == |run| {
      assert run[..k] == run;
    } else {
      EvictionsGrow(run[..|run| - 1], cfg, k);
      assert run[..|run| - 1][..k] == run[..k];
    }
  }
}
