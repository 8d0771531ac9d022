/** The credentials removed from the provider and config responses (api/src/provider-secrets.ts),
    written as the code writes them, and the policies they amount to. */
module ProviderSecrets {
  import opened Wrappers
  import opened Json

  // ---------------------------------------------------------------- the code's helpers

  function Omit(fields: map<string, Json>, names: set<string>): map<string, Json> {
    map k | k in fields && k !in names :: fields[k]
  }

  function MapRecord(j: Json, f: Json -> Json): Json {
    if j.Object? then Object(map k | k in j.fields :: f(j.fields[k])) else j
  }

  function MapArray(j: Json, f: Json -> Json): Json {
    if j.Array? then Array(seq(|j.items|, i requires 0 <= i < |j.items| => f(j.items[i]))) else j
  }

  function Without(j: Json, names: set<string>): Json {
    if j.Object? then Object(Omit(j.fields, names)) else j
  }

  // ---------------------------------------------------------------- the strip functions

  function Model(j: Json): Json {
    if !j.Object? then j
    else
      var clean := Omit(j.fields, {"options", "headers"});
      Object(if "variants" in j.fields then clean["variants" := MapRecord(j.fields["variants"], _ => EMPTY)] else clean)
  }

  function LegacyProvider(j: Json): Json {
    if !j.Object? then j
    else
      var out := Omit(j.fields, {"key", "options", "headers"});
      Object(if "models" in j.fields then out["models" := MapRecord(j.fields["models"], Model)] else out)
  }

  function ApiItem(j: Json): Json {
    if !j.Object? then j
    else
      var out := Omit(j.fields, {"request"});
      var out' := if "api" in j.fields then out["api" := Without(j.fields["api"], {"settings"})] else out;
      Object(if "variants" in j.fields
             then out'["variants" := MapArray(j.fields["variants"], v => Without(v, {"headers", "body"}))]
             else out')
  }

  function McpServer(j: Json): Json {
    if !j.Object? then j
    else
      var out := Omit(j.fields, {"environment", "headers"});
      Object(if "oauth" in j.fields then out["oauth" := Without(j.fields["oauth"], {"clientSecret"})] else out)
  }

  predicate AgentKey(name: string) {
    name in {"name", "model", "variant", "prompt", "description", "temperature", "top_p", "mode", "hidden", "color",
      "steps", "maxSteps", "permission", "disable", "tools"}
  }

  function AgentEntry(j: Json): Json {
    if j.Object? then Object(map k | k in j.fields && AgentKey(k) :: j.fields[k]) else j
  }

  function LspEntry(j: Json): Json { Without(j, {"env"}) }

  function FormatterEntry(j: Json): Json { Without(j, {"environment"}) }

  function Field(name: string, f: Json -> Json, j: Json): Json {
    if j.Object? && name in j.fields then Object(j.fields[name := f(j.fields[name])]) else j
  }

  /** The strip functions an entry of the config can have. */
  datatype Stripper = Provider | Mcp | Agent | Lsp | Formatter

  function Strip(s: Stripper, j: Json): Json {
    match s
    case Provider => LegacyProvider(j)
    case Mcp => McpServer(j)
    case Agent => AgentEntry(j)
    case Lsp => LspEntry(j)
    case Formatter => FormatterEntry(j)
  }

  type ConfigField = (string, Stripper)

  const CONFIG_FIELDS: seq<ConfigField> :=
    [("provider", Provider), ("mcp", Mcp), ("agent", Agent), ("mode", Agent), ("lsp", Lsp), ("formatter", Formatter)]

  /** What is done to a field whose entries have this strip function. */
  function Stripping(s: Stripper): Json -> Json { entries => MapRecord(entries, e => Strip(s, e)) }

  /** One field after another, in the order given. */
  function StripFields(fields: seq<ConfigField>, j: Json): Json {
    if fields == [] then j else StripFields(fields[1..], Field(fields[0].0, Stripping(fields[0].1), j))
  }

  function StripConfig(j: Json): Json { StripFields(CONFIG_FIELDS, j) }

  /** The responses that are cleaned, by route. */
  datatype Route = ProviderRoute | ConfigProviders | ConfigRoute | ApiProviders | ApiProvider | ApiModels

  function StripRoute(r: Route, j: Json): Json {
    match r
    case ProviderRoute => Field("all", all => MapArray(all, LegacyProvider), j)
    case ConfigProviders => Field("providers", list => MapArray(list, LegacyProvider), j)
    case ConfigRoute => StripConfig(j)
    case ApiProviders => Field("data", data => MapArray(data, ApiItem), j)
    case ApiProvider => Field("data", ApiItem, j)
    case ApiModels => Field("data", data => MapArray(data, ApiItem), j)
  }

  // ---------------------------------------------------------------- the policies

  const MODEL := Fields(map["options" := Drop, "headers" := Drop, "variants" := Record(Blank)], Keep)

  const LEGACY := Fields(map["key" := Drop, "options" := Drop, "headers" := Drop, "models" := Record(MODEL)], Keep)

  const API := Fields(map["settings" := Drop], Keep)

  const VARIANTS := List(Fields(map["headers" := Drop, "body" := Drop], Keep))

  const API_ITEM := Fields(map["request" := Drop, "api" := API, "variants" := VARIANTS], Keep)

  const MCP :=
    Fields(map["environment" := Drop, "headers" := Drop, "oauth" := Fields(map["clientSecret" := Drop], Keep)], Keep)

  const AGENT :=
    Fields(map["name" := Keep, "model" := Keep, "variant" := Keep, "prompt" := Keep, "description" := Keep,
               "temperature" := Keep, "top_p" := Keep, "mode" := Keep, "hidden" := Keep, "color" := Keep,
               "steps" := Keep, "maxSteps" := Keep, "permission" := Keep, "disable" := Keep, "tools" := Keep], Drop)

  const LSP := Fields(map["env" := Drop], Keep)

  const FORMATTER := Fields(map["environment" := Drop], Keep)

  function PolicyOf(s: Stripper): Policy {
    match s
    case Provider => LEGACY
    case Mcp => MCP
    case Agent => AGENT
    case Lsp => LSP
    case Formatter => FORMATTER
  }

  const CONFIG :=
    Fields(map["provider" := Record(LEGACY), "mcp" := Record(MCP), "agent" := Record(AGENT), "mode" := Record(AGENT),
               "lsp" := Record(LSP), "formatter" := Record(FORMATTER)], Keep)

  function RoutePolicy(r: Route): Policy {
    match r
    case ProviderRoute => Fields(map["all" := List(LEGACY)], Keep)
    case ConfigProviders => Fields(map["providers" := List(LEGACY)], Keep)
    case ConfigRoute => CONFIG
    case ApiProviders => Fields(map["data" := List(API_ITEM)], Keep)
    case ApiProvider => Fields(map["data" := API_ITEM], Keep)
    case ApiModels => Fields(map["data" := List(API_ITEM)], Keep)
  }

  // ---------------------------------------------------------------- the code follows the policies

  /** A policy is applied field by field. */
  lemma Pointwise(p: Policy, out: map<string, Json>, j: Json)
    requires p.Fields? && j.Object?
    requires forall k :: k in out <==> k in j.fields && !FieldPolicy(p, k).Drop?
    requires forall k | k in out :: out[k] == Apply(FieldPolicy(p, k), j.fields[k])
    ensures Object(out) == Apply(p, j)
  {
    assert out == Apply(p, j).fields;
  }

  lemma NotObject(p: Policy, j: Json)
    requires p.Fields? && !j.Object?
    ensures Apply(p, j) == j
  {}

  lemma ApplyKeeps(j: Json)
    ensures Apply(Keep, j) == j
  {}

  lemma WithoutIs(j: Json, names: set<string>, named: map<string, Policy>)
    requires named.Keys == names && forall k | k in named :: named[k] == Drop
    ensures Without(j, names) == Apply(Fields(named, Keep), j)
  {
    if j.Object? {
      assert Without(j, names).fields == Apply(Fields(named, Keep), j).fields;
    }
  }

  lemma RecordIs(j: Json, f: Json -> Json, p: Policy)
    requires j.Object? ==> forall k | k in j.fields :: f(j.fields[k]) == Apply(p, j.fields[k])
    ensures MapRecord(j, f) == Apply(Record(p), j)
  {
    if j.Object? {
      assert MapRecord(j, f).fields == Apply(Record(p), j).fields;
    }
  }

  lemma ArrayIs(j: Json, f: Json -> Json, p: Policy)
    requires j.Array? ==> forall i | 0 <= i < |j.items| :: f(j.items[i]) == Apply(p, j.items[i])
    ensures MapArray(j, f) == Apply(List(p), j)
  {
    if j.Array? {
      assert MapArray(j, f).items == Apply(List(p), j).items;
    }
  }

  lemma ModelPolicy(k: string)
    ensures FieldPolicy(MODEL, k) ==
            if k in {"options", "headers"} then Drop else if k == "variants" then Record(Blank) else Keep
  {}

  lemma BlankIs(j: Json)
    ensures Apply(Blank, j) == EMPTY
  {}

  lemma ModelIs(j: Json)
    ensures Model(j) == Apply(MODEL, j)
  {
    hide Apply, FieldPolicy, MapRecord;
    if j.Object? {
      var out := Model(j).fields;
      forall k
        ensures k in out <==> k in j.fields && !FieldPolicy(MODEL, k).Drop?
        ensures k in out ==> out[k] == Apply(FieldPolicy(MODEL, k), j.fields[k])
      {
        ModelPolicy(k);
        if k in j.fields {
          ApplyKeeps(j.fields[k]);
          forall x ensures Apply(Blank, x) == EMPTY { BlankIs(x); }
          RecordIs(j.fields[k], _ => EMPTY, Blank);
        }
      }
      Pointwise(MODEL, out, j);
    } else {
      NotObject(MODEL, j);
    }
  }

  lemma LegacyPolicy(k: string)
    ensures FieldPolicy(LEGACY, k) ==
            if k in {"key", "options", "headers"} then Drop else if k == "models" then Record(MODEL) else Keep
  {}

  lemma LegacyProviderIs(j: Json)
    ensures LegacyProvider(j) == Apply(LEGACY, j)
  {
    hide Model, MODEL, Apply, FieldPolicy, MapRecord;
    if j.Object? {
      var out := LegacyProvider(j).fields;
      forall k
        ensures k in out <==> k in j.fields && !FieldPolicy(LEGACY, k).Drop?
        ensures k in out ==> out[k] == Apply(FieldPolicy(LEGACY, k), j.fields[k])
      {
        LegacyPolicy(k);
        if k in j.fields {
          ApplyKeeps(j.fields[k]);
          forall x ensures Model(x) == Apply(MODEL, x) { ModelIs(x); }
          RecordIs(j.fields[k], Model, MODEL);
        }
      }
      Pointwise(LEGACY, out, j);
    } else {
      NotObject(LEGACY, j);
    }
  }

  lemma VariantsAre(j: Json)
    ensures MapArray(j, v => Without(v, {"headers", "body"})) == Apply(VARIANTS, j)
  {
    hide Without, Apply, MapArray;
    var named := map["headers" := Drop, "body" := Drop];
    forall x ensures Without(x, {"headers", "body"}) == Apply(Fields(named, Keep), x) {
      WithoutIs(x, {"headers", "body"}, named);
    }
    ArrayIs(j, v => Without(v, {"headers", "body"}), Fields(named, Keep));
  }

  lemma ApiPolicy(k: string)
    ensures FieldPolicy(API_ITEM, k) ==
            if k == "request" then Drop else if k == "api" then API else if k == "variants" then VARIANTS else Keep
  {}

  lemma ApiItemIs(j: Json)
    ensures ApiItem(j) == Apply(API_ITEM, j)
  {
    hide Without, MapArray, Apply, FieldPolicy;
    if j.Object? {
      var out := ApiItem(j).fields;
      forall k
        ensures k in out <==> k in j.fields && !FieldPolicy(API_ITEM, k).Drop?
        ensures k in out ==> out[k] == Apply(FieldPolicy(API_ITEM, k), j.fields[k])
      {
        ApiPolicy(k);
        if k in j.fields {
          ApplyKeeps(j.fields[k]);
          WithoutIs(j.fields[k], {"settings"}, map["settings" := Drop]);
          VariantsAre(j.fields[k]);
        }
      }
      Pointwise(API_ITEM, out, j);
    } else {
      NotObject(API_ITEM, j);
    }
  }

  lemma McpPolicy(k: string)
    ensures FieldPolicy(MCP, k) ==
            if k in {"environment", "headers"} then Drop
            else if k == "oauth" then Fields(map["clientSecret" := Drop], Keep)
            else Keep
  {}

  lemma McpServerIs(j: Json)
    ensures McpServer(j) == Apply(MCP, j)
  {
    hide Without, Apply, FieldPolicy;
    if j.Object? {
      var out := McpServer(j).fields;
      forall k
        ensures k in out <==> k in j.fields && !FieldPolicy(MCP, k).Drop?
        ensures k in out ==> out[k] == Apply(FieldPolicy(MCP, k), j.fields[k])
      {
        McpPolicy(k);
        if k in j.fields {
          ApplyKeeps(j.fields[k]);
          WithoutIs(j.fields[k], {"clientSecret"}, map["clientSecret" := Drop]);
        }
      }
      Pointwise(MCP, out, j);
    } else {
      NotObject(MCP, j);
    }
  }

  lemma AgentPolicy(name: string)
    ensures FieldPolicy(AGENT, name) == if AgentKey(name) then Keep else Drop
  {}

  lemma AgentEntryIs(j: Json)
    ensures AgentEntry(j) == Apply(AGENT, j)
  {
    hide FieldPolicy, AgentKey;
    if j.Object? {
      forall k ensures FieldPolicy(AGENT, k) == if AgentKey(k) then Keep else Drop {
        AgentPolicy(k);
      }
      assert AgentEntry(j).fields == Apply(AGENT, j).fields;
    }
  }

  lemma StripIs(s: Stripper, j: Json)
    ensures Strip(s, j) == Apply(PolicyOf(s), j)
  {
    hide Without, LegacyProvider, McpServer, AgentEntry;
    match s
    case Provider => LegacyProviderIs(j);
    case Mcp => McpServerIs(j);
    case Agent => AgentEntryIs(j);
    case Lsp => WithoutIs(j, {"env"}, map["env" := Drop]);
    case Formatter => WithoutIs(j, {"environment"}, map["environment" := Drop]);
  }

  lemma StrippingIs(s: Stripper, j: Json)
    ensures Stripping(s)(j) == Apply(Record(PolicyOf(s)), j)
  {
    hide Strip, PolicyOf, Apply, MapRecord;
    forall x ensures Strip(s, x) == Apply(PolicyOf(s), x) { StripIs(s, x); }
    RecordIs(j, e => Strip(s, e), PolicyOf(s));
  }

  // ---------------------------------------------------------------- the order of the fields

  predicate Distinct(fields: seq<ConfigField>) {
    forall i, k | 0 <= i < k < |fields| :: fields[i].0 != fields[k].0
  }

  function Lookup(fields: seq<ConfigField>, name: string): Option<Stripper> {
    if fields == [] then None else if fields[0].0 == name then Some(fields[0].1) else Lookup(fields[1..], name)
  }

  lemma {:induction false} LookupIs(fields: seq<ConfigField>, name: string)
    ensures Lookup(fields, name).None? <==> forall f | f in fields :: f.0 != name
    ensures Lookup(fields, name).Some? ==> (name, Lookup(fields, name).value) in fields
  {
    if fields != [] {
      LookupIs(fields[1..], name);
      assert fields == [fields[0]] + fields[1..];
    }
  }

  /** Each field of the result comes from that field alone. */
  lemma {:induction false} FieldAfter(fields: seq<ConfigField>, j: Json, k: string)
    requires Distinct(fields) && j.Object?
    ensures StripFields(fields, j).Object? && (k in StripFields(fields, j).fields <==> k in j.fields)
    ensures k in j.fields ==>
              StripFields(fields, j).fields[k] ==
              match Lookup(fields, k)
              case None => j.fields[k]
              case Some(s) => Stripping(s)(j.fields[k])
  {
    hide Stripping;
    if fields != [] {
      var next := Field(fields[0].0, Stripping(fields[0].1), j);
      FieldAfter(fields[1..], next, k);
      if fields[0].0 == k {
        LookupIs(fields[1..], k);
        assert forall f | f in fields[1..] :: f.0 != k;
      }
    }
  }

  lemma {:induction false} NoObject(fields: seq<ConfigField>, j: Json)
    requires !j.Object?
    ensures StripFields(fields, j) == j
  {
    if fields != [] {
      NoObject(fields[1..], j);
    }
  }

  lemma SameLookup(a: seq<ConfigField>, b: seq<ConfigField>, name: string)
    requires Distinct(a) && Distinct(b) && forall f :: f in a <==> f in b
    ensures Lookup(a, name) == Lookup(b, name)
  {
    LookupIs(a, name);
    LookupIs(b, name);
  }

  /** The same fields in another order strip a config the same way. */
  lemma OrderDoesNotMatter(a: seq<ConfigField>, b: seq<ConfigField>, j: Json)
    requires Distinct(a) && Distinct(b) && forall f :: f in a <==> f in b
    ensures StripFields(a, j) == StripFields(b, j)
  {
    hide StripFields, Lookup, Stripping, Distinct;
    if j.Object? {
      FieldAfter(a, j, "");
      FieldAfter(b, j, "");
      var x, y := StripFields(a, j).fields, StripFields(b, j).fields;
      forall k ensures (k in x <==> k in y) && (k in x ==> x[k] == y[k]) {
        FieldAfter(a, j, k);
        FieldAfter(b, j, k);
        SameLookup(a, b, k);
      }
      assert x == y;
    } else {
      NoObject(a, j);
      NoObject(b, j);
    }
  }

  lemma ConfigDistinct()
    ensures Distinct(CONFIG_FIELDS)
  {}

  function ConfigEntry(name: string): Option<Stripper> {
    if name == "provider" then Some(Provider)
    else if name == "mcp" then Some(Mcp)
    else if name == "agent" || name == "mode" then Some(Agent)
    else if name == "lsp" then Some(Lsp)
    else if name == "formatter" then Some(Formatter)
    else None
  }

  lemma ConfigPolicy(name: string)
    ensures FieldPolicy(CONFIG, name) ==
            match ConfigEntry(name)
            case None => Keep
            case Some(s) => Record(PolicyOf(s))
  {
    hide LEGACY, MCP, AGENT, LSP, FORMATTER;
  }

  lemma ConfigLookup(name: string)
    ensures Lookup(CONFIG_FIELDS, name) == ConfigEntry(name)
  {
    LookupIs(CONFIG_FIELDS, name);
  }

  lemma StripConfigIs(j: Json)
    ensures StripConfig(j) == Apply(CONFIG, j)
  {
    hide StripFields, Lookup, Stripping, Distinct, FieldPolicy, PolicyOf, Apply, CONFIG_FIELDS;
    ConfigDistinct();
    if j.Object? {
      FieldAfter(CONFIG_FIELDS, j, "");
      var out := StripConfig(j).fields;
      forall k
        ensures k in out <==> k in j.fields && !FieldPolicy(CONFIG, k).Drop?
        ensures k in out ==> out[k] == Apply(FieldPolicy(CONFIG, k), j.fields[k])
      {
        ConfigLookup(k);
        ConfigPolicy(k);
        FieldAfter(CONFIG_FIELDS, j, k);
        if k in j.fields {
          ApplyKeeps(j.fields[k]);
          if Lookup(CONFIG_FIELDS, k).Some? {
            StrippingIs(Lookup(CONFIG_FIELDS, k).value, j.fields[k]);
          }
        }
      }
      Pointwise(CONFIG, out, j);
    } else {
      NoObject(CONFIG_FIELDS, j);
      NotObject(CONFIG, j);
    }
  }

  // ---------------------------------------------------------------- every route

  lemma FieldIs(name: string, f: Json -> Json, p: Policy, j: Json)
    requires !p.Drop? && (j.Object? && name in j.fields ==> f(j.fields[name]) == Apply(p, j.fields[name]))
    ensures Field(name, f, j) == Apply(Fields(map[name := p], Keep), j)
  {
    if j.Object? {
      assert (if name in j.fields then j.fields[name := f(j.fields[name])] else j.fields)
          == Apply(Fields(map[name := p], Keep), j).fields;
    }
  }

  lemma ArrayFieldIs(name: string, f: Json -> Json, p: Policy, j: Json)
    requires forall x :: f(x) == Apply(p, x)
    ensures Field(name, x => MapArray(x, f), j) == Apply(Fields(map[name := List(p)], Keep), j)
  {
    hide MapArray, Apply;
    if j.Object? && name in j.fields {
      ArrayIs(j.fields[name], f, p);
    }
    FieldIs(name, x => MapArray(x, f), List(p), j);
  }

  /** Each response is cleaned as its route's policy says. */
  lemma RouteFollowsPolicy(r: Route, j: Json)
    ensures StripRoute(r, j) == Apply(RoutePolicy(r), j)
  {
    hide Apply, LegacyProvider, ApiItem, MapArray, Field, StripConfig;
    forall x ensures LegacyProvider(x) == Apply(LEGACY, x) { LegacyProviderIs(x); }
    forall x ensures ApiItem(x) == Apply(API_ITEM, x) { ApiItemIs(x); }
    match r
    case ProviderRoute => ArrayFieldIs("all", LegacyProvider, LEGACY, j);
    case ConfigProviders => ArrayFieldIs("providers", LegacyProvider, LEGACY, j);
    case ConfigRoute => StripConfigIs(j);
    case ApiProviders => ArrayFieldIs("data", ApiItem, API_ITEM, j);
    case ApiProvider => FieldIs("data", ApiItem, API_ITEM, j);
    case ApiModels => ArrayFieldIs("data", ApiItem, API_ITEM, j);
  }

  /** Cleaning a cleaned response changes nothing. */
  lemma StripTwice(r: Route, j: Json)
    ensures StripRoute(r, StripRoute(r, j)) == StripRoute(r, j)
  {
    RouteFollowsPolicy(r, j);
    RouteFollowsPolicy(r, StripRoute(r, j));
    ApplyTwice(RoutePolicy(r), j);
  }

  /** Two responses are cleaned to the same if and only if they differ only in removed places: the
      output tells nothing of those, and everything else. */
  lemma OutputTellsOnlyKept(r: Route, a: Json, b: Json)
    ensures StripRoute(r, a) == StripRoute(r, b) <==> Agree(RoutePolicy(r), a, b)
  {
    RouteFollowsPolicy(r, a);
    RouteFollowsPolicy(r, b);
    EqualOutputs(RoutePolicy(r), a, b);
  }

  /** Place by place: kept values are unchanged, removed ones are gone. */
  lemma EveryPlace(r: Route, j: Json, path: seq<Step>)
    ensures Shown(Reach(RoutePolicy(r), path), At(j, path), At(StripRoute(r, j), path))
  {
    RouteFollowsPolicy(r, j);
    assert Sensible(RoutePolicy(r)) by { PoliciesSensible(r); }
    PathOutcome(RoutePolicy(r), j, path);
  }

  lemma ProviderSensible()
    ensures Sensible(LEGACY)
  {
    assert Sensible(MODEL);
  }

  lemma ApiSensible()
    ensures Sensible(API_ITEM)
  {
    assert Sensible(API) && Sensible(VARIANTS);
  }

  lemma EntriesSensible()
    ensures Sensible(MCP) && Sensible(AGENT) && Sensible(LSP) && Sensible(FORMATTER)
  {}

  lemma PoliciesSensible(r: Route)
    ensures Sensible(RoutePolicy(r)) && RoutePolicy(r).Fields?
  {
    hide LEGACY, API_ITEM, MCP, AGENT, LSP, FORMATTER;
    ProviderSensible();
    ApiSensible();
    EntriesSensible();
    PolicyKinds();
  }

  lemma PolicyKinds()
    ensures LEGACY.Fields? && API_ITEM.Fields? && MCP.Fields? && AGENT.Fields? && LSP.Fields? && FORMATTER.Fields?
  {}
}
