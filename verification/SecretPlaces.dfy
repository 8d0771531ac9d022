/** The places of each response at which nothing is ever left, written out. */
module SecretPlaces {
  import opened Wrappers
  import opened Json
  import opened ProviderSecrets

  // ---------------------------------------------------------------- the places, from an entry on

  /** Options, headers, and whatever is in a variant. */
  predicate ModelSecret(path: seq<Step>) {
    && path != []
    && (path[0] in {Name("options"), Name("headers")} || (|path| >= 3 && path[0] == Name("variants") && path[1].Name?))
  }

  predicate ProviderSecret(path: seq<Step>) {
    && path != []
    && (path[0] in {Name("key"), Name("options"), Name("headers")}
        || (|path| >= 3 && path[0] == Name("models") && path[1].Name? && ModelSecret(path[2..])))
  }

  predicate ItemSecret(path: seq<Step>) {
    && path != []
    && (path[0] == Name("request")
        || (|path| >= 2 && path[0] == Name("api") && path[1] == Name("settings"))
        || (|path| >= 3 && path[0] == Name("variants") && path[1].Index? && path[2] in {Name("headers"), Name("body")}))
  }

  predicate McpSecret(path: seq<Step>) {
    && path != []
    && (path[0] in {Name("environment"), Name("headers")}
        || (|path| >= 2 && path[0] == Name("oauth") && path[1] == Name("clientSecret")))
  }

  /** Options and every key that is not an agent's own. */
  predicate AgentSecret(path: seq<Step>) { path != [] && path[0].Name? && !AgentKey(path[0].name) }

  predicate EntrySecret(s: Stripper, path: seq<Step>) {
    match s
    case Provider => ProviderSecret(path)
    case Mcp => McpSecret(path)
    case Agent => AgentSecret(path)
    case Lsp => path != [] && path[0] == Name("env")
    case Formatter => path != [] && path[0] == Name("environment")
  }

  predicate ConfigSecret(path: seq<Step>) {
    && |path| >= 2 && path[0].Name? && path[1].Name?
    && ConfigEntry(path[0].name).Some? && EntrySecret(ConfigEntry(path[0].name).value, path[2..])
  }

  predicate InList(name: string, path: seq<Step>) { |path| >= 2 && path[0] == Name(name) && path[1].Index? }

  predicate RouteSecret(r: Route, path: seq<Step>) {
    match r
    case ProviderRoute => InList("all", path) && ProviderSecret(path[2..])
    case ConfigProviders => InList("providers", path) && ProviderSecret(path[2..])
    case ConfigRoute => ConfigSecret(path)
    case ApiProviders => InList("data", path) && ItemSecret(path[2..])
    case ApiProvider => path != [] && path[0] == Name("data") && ItemSecret(path[1..])
    case ApiModels => InList("data", path) && ItemSecret(path[2..])
  }

  // ---------------------------------------------------------------- they are the hidden ones

  /** One step into a policy. */
  lemma HiddenStep(p: Policy, path: seq<Step>)
    requires p.Fields? || p.Record? || p.List?
    ensures path == [] ==> !Hidden(p, path)
    ensures path != [] ==>
              Hidden(p, path) ==
              match path[0]
              case Name(n) => !p.List? && Hidden(if p.Fields? then FieldPolicy(p, n) else p.entry, path[1..])
              case Index(_) => p.List? && Hidden(p.item, path[1..])
  {}

  lemma HiddenEnd(path: seq<Step>)
    ensures Hidden(Drop, path) && !Hidden(Keep, path) && (Hidden(Blank, path) <==> path != [])
  {}

  lemma ModelHidden(path: seq<Step>)
    ensures Hidden(MODEL, path) <==> ModelSecret(path)
  {
    hide Hidden, FieldPolicy;
    HiddenStep(MODEL, path);
    if path != [] && path[0].Name? {
      ModelPolicy(path[0].name);
      HiddenEnd(path[1..]);
      HiddenStep(Record(Blank), path[1..]);
      if |path| >= 2 {
        HiddenEnd(path[1..][1..]);
      }
    }
  }

  lemma LegacyHidden(path: seq<Step>)
    ensures Hidden(LEGACY, path) <==> ProviderSecret(path)
  {
    hide Hidden, FieldPolicy, ModelSecret, MODEL;
    HiddenStep(LEGACY, path) by { PolicyKinds(); }
    if path != [] && path[0].Name? {
      LegacyPolicy(path[0].name) by { PolicyKinds(); }
      HiddenEnd(path[1..]);
      HiddenStep(Record(MODEL), path[1..]);
      if |path| >= 2 {
        assert path[1..][1..] == path[2..];
        ModelHidden(path[2..]);
        ModelSecretNotEmpty(path[2..]);
      }
    }
  }

  lemma ModelSecretNotEmpty(path: seq<Step>)
    ensures ModelSecret(path) ==> path != []
  {}

  lemma ItemHidden(path: seq<Step>)
    ensures Hidden(API_ITEM, path) <==> ItemSecret(path)
  {
    hide Hidden, FieldPolicy;
    HiddenStep(API_ITEM, path);
    if path != [] && path[0].Name? {
      ApiPolicy(path[0].name);
      HiddenEnd(path[1..]);
      HiddenStep(API, path[1..]);
      HiddenStep(VARIANTS, path[1..]);
      if |path| >= 2 {
        assert path[1..][1..] == path[2..];
        OnlyDropped(API, path[1..], {"settings"});
        OnlyDropped(VARIANTS.item, path[2..], {"headers", "body"});
      }
    }
  }

  /** A policy that drops some names and keeps the rest. */
  lemma OnlyDropped(p: Policy, path: seq<Step>, names: set<string>)
    requires p.Fields? && p.others == Keep && p.named.Keys == names && forall k | k in p.named :: p.named[k] == Drop
    ensures Hidden(p, path) <==> path != [] && path[0].Name? && path[0].name in names
  {
    hide Hidden;
    HiddenStep(p, path);
    if path != [] {
      HiddenEnd(path[1..]);
    }
  }

  lemma McpHidden(path: seq<Step>)
    ensures Hidden(MCP, path) <==> McpSecret(path)
  {
    hide Hidden, FieldPolicy;
    HiddenStep(MCP, path);
    if path != [] && path[0].Name? {
      McpPolicy(path[0].name);
      HiddenEnd(path[1..]);
      OnlyDropped(Fields(map["clientSecret" := Drop], Keep), path[1..], {"clientSecret"});
    }
  }

  lemma EntryHidden(s: Stripper, path: seq<Step>)
    ensures Hidden(PolicyOf(s), path) <==> EntrySecret(s, path)
  {
    hide Hidden, FieldPolicy, AgentKey, ProviderSecret, McpSecret;
    match s
    case Provider => LegacyHidden(path);
    case Mcp => McpHidden(path);
    case Agent =>
      HiddenStep(AGENT, path);
      if path != [] && path[0].Name? {
        AgentPolicy(path[0].name);
        HiddenEnd(path[1..]);
      }
    case Lsp => OnlyDropped(LSP, path, {"env"});
    case Formatter => OnlyDropped(FORMATTER, path, {"environment"});
  }

  lemma ConfigHidden(path: seq<Step>)
    ensures Hidden(CONFIG, path) <==> ConfigSecret(path)
  {
    hide Hidden, FieldPolicy, EntrySecret, PolicyOf, ConfigEntry;
    HiddenStep(CONFIG, path);
    if path != [] && path[0].Name? {
      ConfigPolicy(path[0].name);
      HiddenEnd(path[1..]);
      if ConfigEntry(path[0].name).Some? {
        var s := ConfigEntry(path[0].name).value;
        HiddenStep(Record(PolicyOf(s)), path[1..]);
        if |path| >= 2 {
          assert path[1..][1..] == path[2..];
          EntryHidden(s, path[2..]);
        }
      }
    }
  }

  /** A response that holds one named thing, or a list under that name. */
  lemma NamedHidden(name: string, p: Policy, path: seq<Step>)
    ensures Hidden(Fields(map[name := p], Keep), path) <==> path != [] && path[0] == Name(name) && Hidden(p, path[1..])
  {
    hide Hidden;
    HiddenStep(Fields(map[name := p], Keep), path);
    if path != [] {
      HiddenEnd(path[1..]);
    }
  }

  lemma ListHidden(name: string, p: Policy, path: seq<Step>)
    ensures Hidden(Fields(map[name := List(p)], Keep), path) <==> InList(name, path) && Hidden(p, path[2..])
  {
    hide Hidden;
    NamedHidden(name, List(p), path);
    if path != [] {
      HiddenStep(List(p), path[1..]);
      if |path| >= 2 {
        assert path[1..][1..] == path[2..];
      }
    }
  }

  lemma RouteHidden(r: Route, path: seq<Step>)
    ensures Hidden(RoutePolicy(r), path) <==> RouteSecret(r, path)
  {
    hide Hidden, LEGACY, API_ITEM, CONFIG, ProviderSecret, ItemSecret, ConfigSecret;
    var inner := if |path| >= 2 then path[2..] else [];
    LegacyHidden(inner);
    ItemHidden(inner);
    match r
    case ProviderRoute => ListHidden("all", LEGACY, path);
    case ConfigProviders => ListHidden("providers", LEGACY, path);
    case ConfigRoute => ConfigHidden(path);
    case ApiProviders => ListHidden("data", API_ITEM, path);
    case ApiProvider =>
      NamedHidden("data", API_ITEM, path);
      if path != [] {
        ItemHidden(path[1..]);
      }
    case ApiModels => ListHidden("data", API_ITEM, path);
  }

  // ---------------------------------------------------------------- the claims

  /** At exactly these places of a route's response nothing is left whatever the server sent: at any
      other place, some response still shows something. */
  lemma NothingLeftExactly(r: Route, path: seq<Step>)
    ensures (forall j :: At(StripRoute(r, j), path).None?) <==> RouteSecret(r, path)
  {
    hide StripRoute, RoutePolicy, RouteSecret, Hidden, At, Apply, Sensible;
    PoliciesSensible(r);
    RouteHidden(r, path);
    GoneExactly(RoutePolicy(r), path);
    if RouteSecret(r, path) {
      forall j ensures At(StripRoute(r, j), path).None? {
        RouteFollowsPolicy(r, j);
      }
    } else {
      var j :| At(Apply(RoutePolicy(r), j), path).Some?;
      RouteFollowsPolicy(r, j);
      assert At(StripRoute(r, j), path).Some?;
    }
  }

  /** The value is not of the kind whose parts this policy looks at. */
  predicate OtherKind(p: Policy, j: Json) {
    match p
    case Fields(_, _) => !j.Object?
    case Record(_) => !j.Object?
    case List(_) => !j.Array?
    case _ => false
  }

  /** What is not of the expected kind is shown as it is: a list where the code looks for an object
      keeps whatever its items hold. */
  lemma OtherKindsStay(r: Route, j: Json, path: seq<Step>)
    requires At(j, path).Some? && OtherKind(Reach(RoutePolicy(r), path).0, At(j, path).value)
    ensures At(StripRoute(r, j), path) == At(j, path)
  {
    hide StripRoute, RoutePolicy, At, Reach;
    EveryPlace(r, j, path);
  }
}
