/**
 * The configuration schema's provider selection: which configured provider
 * serves a model (a keyword pass in registry order, then a fallback to the
 * first provider with a key), and the API key and base derived from it.
 */
module ConfigSchema {
  import opened Wrappers
  import opened Text
  import opened Json
  import opened ProviderRegistry

  /** `AgentDefaults`: per-agent defaults. The temperature is a float, kept as its literal. */
  datatype AgentDefaults = AgentDefaults(
    workspace: string,
    model: string,
    maxTokens: int,
    temperature: Value,
    maxToolIterations: int,
    memoryWindow: int)

  const DefaultAgentDefaults :=
    AgentDefaults("~/.nanobot/workspace", "anthropic/claude-opus-4-5", 4096, Float("0.7"), 20, 50)

  /** The documented generation limits of a fresh configuration. */
  lemma DefaultLimits()
    ensures DefaultAgentDefaults.maxTokens == 4096
    ensures DefaultAgentDefaults.maxToolIterations == 20
    ensures DefaultAgentDefaults.memoryWindow == 50
    ensures DefaultAgentDefaults.temperature == Float("0.7")
  {
  }

  /** `ProviderConfig`: the settings of one provider. An empty key means "not configured". */
  datatype ProviderConfig = ProviderConfig(
    apiKey: string,
    apiBase: Option<string>,
    extraHeaders: Option<map<string, string>>)

  const DefaultProviderConfig := ProviderConfig("", None, None)

  /**
   * The root configuration. `providers` maps a provider's config field name to
   * its settings; a registry name with no field there reads as None, as
   * `getattr(providers, name, None)` does. A present settings object is always
   * truthy.
   */
  datatype Config = Config(defaults: AgentDefaults, providers: map<string, ProviderConfig>)

  /** The pair `_match_provider` returns: the settings and the registry name. */
  datatype Match = Match(provider: Option<ProviderConfig>, name: Option<string>)

  /** The text matched against keywords: the model, or the default model when it is None or empty, lower-cased. */
  function MatchKey(config: Config, model: Option<string>): (r: string)
    ensures Truthy(model) ==> r == Lower(model.value)
    ensures !Truthy(model) ==> r == Lower(config.defaults.model)
  {
    Lower(OrElse(model, Some(config.defaults.model)).value)
  }

  /** Keyword pass on one entry: configured, a keyword occurs in the model, and it has a key or signs in by OAuth. */
  predicate KeywordHit(providers: map<string, ProviderConfig>, modelLower: string, spec: ProviderSpec) {
    spec.name in providers && AnyContained(spec.keywords, modelLower)
    && (spec.isOAuth || providers[spec.name].apiKey != "")
  }

  /** Fallback pass on one entry: not OAuth, configured, and with a key. */
  predicate FallbackHit(providers: map<string, ProviderConfig>, spec: ProviderSpec) {
    !spec.isOAuth && spec.name in providers && providers[spec.name].apiKey != ""
  }

  /** The `i`-th entry is the first one in table order that `hit` accepts. */
  ghost predicate FirstHitAt(hit: ProviderSpec -> bool, i: int) {
    0 <= i < |Providers| && hit(Providers[i]) && forall j :: 0 <= j < i ==> !hit(Providers[j])
  }

  /** The keyword pass stops at the `i`-th entry. */
  ghost predicate KeywordChoice(providers: map<string, ProviderConfig>, modelLower: string, i: int) {
    FirstHitAt(s => KeywordHit(providers, modelLower, s), i)
  }

  /** The keyword pass finds nothing and the fallback pass stops at the `i`-th entry. */
  ghost predicate FallbackChoice(providers: map<string, ProviderConfig>, modelLower: string, i: int) {
    (forall j :: 0 <= j < |Providers| ==> !KeywordHit(providers, modelLower, Providers[j]))
    && FirstHitAt(s => FallbackHit(providers, s), i)
  }

  /**
   * `_match_provider`: the first entry in registry order that the keyword pass
   * accepts; failing that, the first entry the fallback pass accepts; failing
   * that, (None, None). The settings returned are always the named entry's.
   */
  function MatchProvider(config: Config, model: Option<string>): (r: Match)
    ensures r.provider.Some? <==> r.name.Some?
    ensures r.name.Some? ==> r.name.value in config.providers && r.provider == Some(config.providers[r.name.value])
    ensures r.name.Some? ==>
      exists i :: 0 <= i < |Providers| && Providers[i].name == r.name.value
               && (KeywordChoice(config.providers, MatchKey(config, model), i)
                   || FallbackChoice(config.providers, MatchKey(config, model), i))
    ensures r.name.None? ==> forall i :: 0 <= i < |Providers| ==>
      !KeywordHit(config.providers, MatchKey(config, model), Providers[i]) && !FallbackHit(config.providers, Providers[i])
  {
    var key := MatchKey(config, model);
    var keyword := (s: ProviderSpec) => KeywordHit(config.providers, key, s);
    var fallback := (s: ProviderSpec) => FallbackHit(config.providers, s);
    match FirstWhere(Providers, keyword)
    case Some(spec) =>
      assert exists i :: KeywordChoice(config.providers, key, i) && Providers[i] == spec by {
        var i :| IsFirst(Providers, keyword, i) && Providers[i] == spec;
        assert KeywordChoice(config.providers, key, i);
      }
      Match(Some(config.providers[spec.name]), Some(spec.name))
    case None =>
      match FirstWhere(Providers, fallback)
      case Some(spec) =>
        assert exists i :: FallbackChoice(config.providers, key, i) && Providers[i] == spec by {
          var i :| IsFirst(Providers, fallback, i) && Providers[i] == spec;
          assert FallbackChoice(config.providers, key, i);
        }
        Match(Some(config.providers[spec.name]), Some(spec.name))
      case None => Match(None, None)
  }

  /** The chosen entry is determined: the first keyword hit, whenever there is one. */
  lemma KeywordWins(config: Config, model: Option<string>, i: int)
    requires KeywordChoice(config.providers, MatchKey(config, model), i)
    ensures MatchProvider(config, model) == Match(Some(config.providers[Providers[i].name]), Some(Providers[i].name))
  {
    var key := MatchKey(config, model);
    var keyword := (s: ProviderSpec) => KeywordHit(config.providers, key, s);
    assert IsFirst(Providers, keyword, i);
    FirstWhereAt(Providers, keyword, i);
  }

  /** Without a keyword hit, the first fallback hit is chosen. */
  lemma FallbackWins(config: Config, model: Option<string>, i: int)
    requires FallbackChoice(config.providers, MatchKey(config, model), i)
    ensures MatchProvider(config, model) == Match(Some(config.providers[Providers[i].name]), Some(Providers[i].name))
  {
    var key := MatchKey(config, model);
    var keyword := (s: ProviderSpec) => KeywordHit(config.providers, key, s);
    var fallback := (s: ProviderSpec) => FallbackHit(config.providers, s);
    assert FirstWhere(Providers, keyword).None?;
    assert IsFirst(Providers, fallback, i);
    FirstWhereAt(Providers, fallback, i);
  }

  /** A provider that is neither OAuth nor keyed is never chosen, whatever its keywords. */
  lemma KeylessNeverChosen(config: Config, model: Option<string>, i: int)
    requires 0 <= i < |Providers| && !Providers[i].isOAuth
    requires Providers[i].name !in config.providers || config.providers[Providers[i].name].apiKey == ""
    ensures MatchProvider(config, model).name != Some(Providers[i].name)
  {
    NamesDistinct();
  }

  /** An OAuth provider is only ever chosen by the keyword pass. */
  lemma OAuthOnlyByKeyword(config: Config, model: Option<string>, i: int)
    requires 0 <= i < |Providers| && Providers[i].isOAuth
    requires MatchProvider(config, model).name == Some(Providers[i].name)
    ensures KeywordChoice(config.providers, MatchKey(config, model), i)
  {
    NamesDistinct();
  }

  /** With no key anywhere and no OAuth keyword hit, nothing is chosen. */
  lemma NoKeyNoMatch(config: Config, model: Option<string>)
    requires forall n :: n in config.providers ==> config.providers[n].apiKey == ""
    requires forall i :: 0 <= i < |Providers| && Providers[i].isOAuth ==>
      !KeywordHit(config.providers, MatchKey(config, model), Providers[i])
    ensures MatchProvider(config, model) == Match(None, None)
    ensures GetApiKey(config, model).None?
  {
  }

  /** Matching ignores case: a model and its lower-case form choose the same provider. */
  lemma MatchCaseInsensitive(config: Config, model: string)
    requires model != ""
    ensures MatchProvider(config, Some(model)) == MatchProvider(config, Some(Lower(model)))
  {
    LowerIdempotent(model);
  }

  /** A missing or empty model is the default model. */
  lemma DefaultModelUsed(config: Config)
    ensures MatchProvider(config, None) == MatchProvider(config, Some(config.defaults.model))
    ensures MatchProvider(config, Some("")) == MatchProvider(config, None)
  {
  }

  /** With an OpenRouter key and no keyword hit, the fallback picks OpenRouter, the first entry. */
  lemma FallbackPrefersOpenRouter(config: Config, model: Option<string>)
    requires "openrouter" in config.providers && config.providers["openrouter"].apiKey != ""
    requires forall j :: 0 <= j < |Providers| ==> !KeywordHit(config.providers, MatchKey(config, model), Providers[j])
    ensures GetProviderName(config, model) == Some("openrouter")
  {
    FallbackWins(config, model, 0);
  }

  // ---------------------------------------------------------------------------
  // Accessors
  // ---------------------------------------------------------------------------

  /** `get_provider_name`: the registry name of the chosen entry. */
  function GetProviderName(config: Config, model: Option<string>): (r: Option<string>)
    ensures r.Some? ==> r.value in config.providers && exists i :: 0 <= i < |Providers| && Providers[i].name == r.value
  {
    MatchProvider(config, model).name
  }

  /** `get_provider`: the settings of the entry `get_provider_name` names. */
  function GetProvider(config: Config, model: Option<string>): (r: Option<ProviderConfig>)
    ensures r.Some? <==> GetProviderName(config, model).Some?
    ensures r.Some? ==> r.value == config.providers[GetProviderName(config, model).value]
  {
    MatchProvider(config, model).provider
  }

  /** `get_api_key`: the chosen provider's key; empty only for an OAuth provider. */
  function GetApiKey(config: Config, model: Option<string>): (r: Option<string>)
    ensures r.Some? <==> GetProviderName(config, model).Some?
    ensures r.Some? ==> r.value == config.providers[GetProviderName(config, model).value].apiKey
    ensures r == Some("") ==> exists i :: 0 <= i < |Providers| && Providers[i].isOAuth
                                        && Providers[i].name == GetProviderName(config, model).value
  {
    var p := GetProvider(config, model);
    if p.Some? then Some(p.value.apiKey) else None
  }

  /** The registry's default base of the named entry, when that entry is a gateway that has one. */
  function GatewayDefaultBase(name: Option<string>): (r: Option<string>)
    ensures r.Some? ==> r.value != "" && Truthy(name) && FindByName(name.value).Some?
                        && FindByName(name.value).value.isGateway
                        && r.value == FindByName(name.value).value.defaultApiBase
    ensures r.None? && Truthy(name) && FindByName(name.value).Some? ==>
      !FindByName(name.value).value.isGateway || FindByName(name.value).value.defaultApiBase == ""
  {
    if Truthy(name) then
      match FindByName(name.value)
      case Some(spec) => if spec.isGateway && spec.defaultApiBase != "" then Some(spec.defaultApiBase) else None
      case None => None
    else None
  }

  /**
   * `get_api_base`: the chosen provider's configured base wins; otherwise a
   * gateway's registry default; otherwise None.
   */
  function GetApiBase(config: Config, model: Option<string>): (r: Option<string>)
    ensures GetProvider(config, model).Some? && Truthy(GetProvider(config, model).value.apiBase) ==>
      r == GetProvider(config, model).value.apiBase
    ensures !(GetProvider(config, model).Some? && Truthy(GetProvider(config, model).value.apiBase)) ==>
      r == GatewayDefaultBase(GetProviderName(config, model))
    ensures r.Some? ==> r.value != ""
  {
    var m := MatchProvider(config, model);
    if m.provider.Some? && Truthy(m.provider.value.apiBase) then m.provider.value.apiBase
    else GatewayDefaultBase(m.name)
  }

  /** A chosen OpenRouter without a configured base gets the registry's OpenRouter base. */
  lemma OpenRouterDefaultBase(config: Config, model: Option<string>)
    requires GetProviderName(config, model) == Some("openrouter")
    requires !Truthy(config.providers["openrouter"].apiBase)
    ensures GetApiBase(config, model) == Some("https://openrouter.ai/api/v1")
  {
    TableOrder();
    FindByNameOfEntry(0);
  }

  /** A standard provider (here Moonshot) gets no default base from the schema. */
  lemma StandardProviderNoDefaultBase(config: Config, model: Option<string>)
    requires GetProviderName(config, model) == Some("moonshot")
    requires !Truthy(config.providers["moonshot"].apiBase)
    ensures GetApiBase(config, model).None?
  {
    MoonshotHasNoGatewayBase();
  }

  lemma MoonshotHasNoGatewayBase()
    ensures GatewayDefaultBase(Some("moonshot")).None?
  {
    TableOrder();
    FindByNameOfEntry(7);
  }
}
