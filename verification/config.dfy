/** Settings derived from the process environment: the API key of each language
    model provider and the switches that choose between real and mocked automation.
    The environment is a map from variable names to values; an unset variable is
    absent from it. */
module Config {
  import opened Types

  type Env = map<string, string>

  const OpenAiKeyVar := "OPENAI_API_KEY"
  const AnthropicKeyVar := "ANTHROPIC_API_KEY"
  const GroqKeyVar := "GROQ_API_KEY"
  const RealAutomationVar := "USE_REAL_BROWSER_AUTOMATION"
  const HeadlessVar := "BROWSER_HEADLESS"
  const SessionUrlVar := "BROWSER_USE_SESSION_URL"
  const CloudApiKeyVar := "BROWSER_USE_CLOUD_API_KEY"
  const NodeEnvVar := "NODE_ENV"
  const CloudUrl := "https://cloud.browser-use.com/api/v1"

  /** `process.env[name] || ''`. */
  function EnvOr(env: Env, name: string): string {
    if name in env then env[name] else ""
  }

  /** `!process.env[name]`: the variable is unset or empty. */
  predicate Unset(env: Env, name: string) {
    name !in env || env[name] == ""
  }

  datatype Settings = Settings(
    openAiKey: string,
    anthropicKey: string,
    groqKey: string,
    useRealAutomation: bool,
    headless: bool,
    sessionUrl: string,
    cloudApiKey: string,
    cloudUrl: string,
    useMockData: bool)

  /** The `config` object, computed once from the environment. */
  function Load(env: Env): (c: Settings)
    ensures c.useRealAutomation ==> !c.useMockData
    ensures c.cloudUrl == CloudUrl
  {
    Settings(
      EnvOr(env, OpenAiKeyVar),
      EnvOr(env, AnthropicKeyVar),
      EnvOr(env, GroqKeyVar),
      RealAutomationVar in env && env[RealAutomationVar] == "true",
      !(HeadlessVar in env && env[HeadlessVar] == "false"),
      EnvOr(env, SessionUrlVar),
      EnvOr(env, CloudApiKeyVar),
      CloudUrl,
      EnvOr(env, NodeEnvVar) == "development" && Unset(env, RealAutomationVar))
  }

  /** Every key and URL variable that is unset reads as the empty string. */
  lemma KeysDefaultToEmpty(env: Env)
    ensures OpenAiKeyVar !in env ==> Load(env).openAiKey == ""
    ensures AnthropicKeyVar !in env ==> Load(env).anthropicKey == ""
    ensures GroqKeyVar !in env ==> Load(env).groqKey == ""
    ensures SessionUrlVar !in env ==> Load(env).sessionUrl == ""
    ensures CloudApiKeyVar !in env ==> Load(env).cloudApiKey == ""
  {
  }

  /** Both flags are set only by one exact spelling: real automation by "true",
      headed mode by "false"; every other value, and an unset variable, gives the
      opposite. */
  lemma FlagSpellings(env: Env)
    ensures Load(env).useRealAutomation <==> EnvOr(env, RealAutomationVar) == "true"
    ensures !Load(env).headless <==> EnvOr(env, HeadlessVar) == "false"
    ensures !Load(env[RealAutomationVar := "TRUE"]).useRealAutomation
    ensures Load(env[HeadlessVar := "0"]).headless
  {
  }

  /** The API key of the provider serving `llm`, or "" for a name outside `LlmChoice`. */
  function GetApiKey(env: Env, llm: string): (key: string)
    ensures !IsLlmChoice(llm) ==> key == ""
  {
    var c := Load(env);
    if llm == GptMini then c.openAiKey
    else if llm == ClaudeHaiku then c.anthropicKey
    else if llm == Llama then c.groqKey
    else ""
  }

  /** Each model name reads its own provider's variable and no other. */
  lemma ApiKeyPerModel(env: Env, v: string)
    ensures GetApiKey(env[OpenAiKeyVar := v], GptMini) == v
    ensures GetApiKey(env[AnthropicKeyVar := v], ClaudeHaiku) == v
    ensures GetApiKey(env[GroqKeyVar := v], Llama) == v
    ensures GetApiKey(env, GptMini) == EnvOr(env, OpenAiKeyVar)
    ensures GetApiKey(env, ClaudeHaiku) == EnvOr(env, AnthropicKeyVar)
    ensures GetApiKey(env, Llama) == EnvOr(env, GroqKeyVar)
    ensures forall llm :: GetApiKey(env, llm) != "" ==> IsLlmChoice(llm)
  {
  }

  /** `useRealAutomation || !useMockData`. */
  predicate ShouldUseRealAutomation(env: Env) {
    var c := Load(env);
    c.useRealAutomation || !c.useMockData
  }

  /** The truth table of the switch: real automation is chosen exactly when the
      toggle variable is non-empty, whatever it says, or the process does not run in
      development mode. */
  lemma {:induction false} ShouldUseRealAutomationIff(env: Env)
    ensures ShouldUseRealAutomation(env)
        <==> EnvOr(env, RealAutomationVar) != "" || EnvOr(env, NodeEnvVar) != "development"
  {
    var c := Load(env);
    if EnvOr(env, RealAutomationVar) != "" {
      assert !c.useMockData;
    }
  }

  /** Outside development mode (including an unset NODE_ENV) real automation is
      always chosen, and in development the toggle spelled "false" still chooses it. */
  lemma RealAutomationCases(env: Env)
    ensures EnvOr(env, NodeEnvVar) != "development" ==> ShouldUseRealAutomation(env)
    ensures ShouldUseRealAutomation(env[RealAutomationVar := "false"])
    ensures !Load(env[RealAutomationVar := "false"]).useRealAutomation
    ensures ShouldUseRealAutomation(env) <==> !Load(env).useMockData
  {
    ShouldUseRealAutomationIff(env);
    ShouldUseRealAutomationIff(env[RealAutomationVar := "false"]);
  }
}
