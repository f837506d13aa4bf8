/** `config.py`: the three configuration records and `load_config`, which
    reads them from the process environment. The environment is a map from
    variable names to values; `float()` is a parameter that either yields a
    number or fails as Python's `ValueError` does. */
module Config {
  import opened Wrappers
  import opened PyStr

  const DefaultModel: string := "gpt-4o-mini"
  const DefaultTemperatureText: string := "0.7"
  const DefaultTemperature: real := 0.7
  const DefaultApiTimeout: int := 30
  const DefaultWebsiteTimeout: int := 10
  const DefaultUserAgent: string :=
    "Mozilla/5.0 (Windows NT 10.0; Win64; x64) AppleWebKit/537.36 (KHTML, like Gecko) Chrome/58.0.3029.110 Safari/537.3"
  const DefaultLogLevel: string := "INFO"

  datatype OpenAIConfig = OpenAIConfig(model: string, temperature: real, maxTokens: Option<int>, timeout: int)

  datatype WebsiteConfig = WebsiteConfig(timeout: int, userAgent: string)

  datatype AppConfig = AppConfig(openai: OpenAIConfig, website: WebsiteConfig, debug: bool, logLevel: string)

  /** `OpenAIConfig(model=..., temperature=...)`: the other fields take
      their dataclass defaults. */
  function NewOpenAIConfig(model: string, temperature: real): (c: OpenAIConfig)
    ensures c.model == model && c.temperature == temperature
    ensures c.maxTokens == None && c.timeout == 30
  {
    OpenAIConfig(model, temperature, None, DefaultApiTimeout)
  }

  /** `OpenAIConfig()`: every field at its dataclass default. */
  function DefaultOpenAIConfig(): OpenAIConfig {
    OpenAIConfig(DefaultModel, DefaultTemperature, None, DefaultApiTimeout)
  }

  /** `WebsiteConfig()`. */
  function DefaultWebsiteConfig(): (c: WebsiteConfig)
    ensures c.timeout == 10
  {
    WebsiteConfig(DefaultWebsiteTimeout, DefaultUserAgent)
  }

  /** Why `load_config` raises `ValueError`. */
  datatype ConfigError =
    | MissingApiKey
      /** `OPENAI_TEMPERATURE` (or its default) is not a float literal. */
    | BadTemperature(text: string)

  /** `os.getenv(name, default)`. */
  function GetEnv(env: map<string, string>, name: string, default: string): string {
    if name in env then env[name] else default
  }

  /** A spelling of "true" in any mix of upper and lower case. */
  predicate SpellsTrue(s: string) {
    && |s| == 4
    && (s[0] == 't' || s[0] == 'T')
    && (s[1] == 'r' || s[1] == 'R')
    && (s[2] == 'u' || s[2] == 'U')
    && (s[3] == 'e' || s[3] == 'E')
  }

  /** The `DEBUG` test `value.lower() == "true"`. */
  predicate DebugOn(value: string) {
    Lower(value) == "true"
  }

  /** `load_config`: fail without an API key (absent or empty); then read
      the model, temperature, debug flag and log level, each with its
      default. */
  function LoadConfig(env: map<string, string>, parseFloat: string -> Option<real>): (r: Result<AppConfig, ConfigError>)
    ensures r == Err(MissingApiKey) <==> "OPENAI_API_KEY" !in env || env["OPENAI_API_KEY"] == []
    ensures r.Ok? ==> r.value.website == DefaultWebsiteConfig()
    ensures r.Ok? ==> r.value.openai.maxTokens == None && r.value.openai.timeout == DefaultApiTimeout
    ensures r.Ok? ==> r.value.openai.model == (if "OPENAI_MODEL" in env then env["OPENAI_MODEL"] else DefaultModel)
    ensures r.Ok? ==> |r.value.logLevel| == |GetEnv(env, "LOG_LEVEL", DefaultLogLevel)|
  {
    var apiKey := GetEnv(env, "OPENAI_API_KEY", []);
    if apiKey == [] then Err(MissingApiKey)
    else
      var model := GetEnv(env, "OPENAI_MODEL", DefaultModel);
      var temperatureText := GetEnv(env, "OPENAI_TEMPERATURE", DefaultTemperatureText);
      match parseFloat(temperatureText)
      case None => Err(BadTemperature(temperatureText))
      case Some(temperature) =>
        var debug := DebugOn(GetEnv(env, "DEBUG", "false"));
        var logLevel := Upper(GetEnv(env, "LOG_LEVEL", DefaultLogLevel));
        Ok(AppConfig(NewOpenAIConfig(model, temperature), DefaultWebsiteConfig(), debug, logLevel))
  }

  /** Debugging is on exactly when `DEBUG` is set to "true" in some
      capitalisation; an unset variable means off. */
  lemma DebugFlag(env: map<string, string>, parseFloat: string -> Option<real>)
    requires LoadConfig(env, parseFloat).Ok?
    ensures LoadConfig(env, parseFloat).value.debug <==> "DEBUG" in env && SpellsTrue(env["DEBUG"])
  {
    var v := GetEnv(env, "DEBUG", "false");
    DebugOnSpellsTrue(v);
    assert !SpellsTrue("false");
  }

  lemma DebugOnSpellsTrue(s: string)
    ensures DebugOn(s) <==> SpellsTrue(s)
  {
    if SpellsTrue(s) {
      assert Lower(s) == "true" by {
        assert |Lower(s)| == 4;
        assert Lower(s)[0] == 't' && Lower(s)[1] == 'r' && Lower(s)[2] == 'u' && Lower(s)[3] == 'e';
      }
    }
    if DebugOn(s) {
      assert Lower(s)[0] == 't' && Lower(s)[1] == 'r' && Lower(s)[2] == 'u' && Lower(s)[3] == 'e';
      assert LowerChar(s[0]) == 't' && LowerChar(s[1]) == 'r';
      assert LowerChar(s[2]) == 'u' && LowerChar(s[3]) == 'e';
    }
  }

  /** The log level is the variable's value in capitals, "INFO" when unset;
      it keeps no lower-case ASCII letter. */
  lemma LogLevelUpper(env: map<string, string>, parseFloat: string -> Option<real>)
    requires LoadConfig(env, parseFloat).Ok?
    ensures var l := LoadConfig(env, parseFloat).value.logLevel;
      forall i :: 0 <= i < |l| ==> !IsAsciiLower(l[i])
    ensures "LOG_LEVEL" !in env ==> LoadConfig(env, parseFloat).value.logLevel == "INFO"
    ensures var l := LoadConfig(env, parseFloat).value.logLevel;
      "LOG_LEVEL" in env ==> forall i :: 0 <= i < |l| ==> LowerChar(l[i]) == LowerChar(env["LOG_LEVEL"][i])
  {
    var l := LoadConfig(env, parseFloat).value.logLevel;
    if "LOG_LEVEL" !in env {
      assert Upper("INFO") == "INFO";
    }
  }

  /** With a key present, the temperature is read from `OPENAI_TEMPERATURE`,
      "0.7" when unset, and a value `float()` rejects is the only other
      error. */
  lemma Temperature(env: map<string, string>, parseFloat: string -> Option<real>)
    requires "OPENAI_API_KEY" in env && env["OPENAI_API_KEY"] != []
    ensures var text := GetEnv(env, "OPENAI_TEMPERATURE", "0.7");
      LoadConfig(env, parseFloat).Err? <==> parseFloat(text).None?
    ensures var text := GetEnv(env, "OPENAI_TEMPERATURE", "0.7");
      LoadConfig(env, parseFloat).Ok? ==> LoadConfig(env, parseFloat).value.openai.temperature == parseFloat(text).value
    ensures LoadConfig(env, parseFloat).Err? ==>
      LoadConfig(env, parseFloat).error == BadTemperature(GetEnv(env, "OPENAI_TEMPERATURE", "0.7"))
  {
  }

  /** An environment holding only the API key yields the dataclass
      defaults everywhere, provided `float("0.7")` is 0.7. */
  lemma KeyOnlyGivesDefaults(key: string, parseFloat: string -> Option<real>)
    requires key != []
    requires parseFloat(DefaultTemperatureText) == Some(DefaultTemperature)
    ensures LoadConfig(map["OPENAI_API_KEY" := key], parseFloat) ==
      Ok(AppConfig(DefaultOpenAIConfig(), DefaultWebsiteConfig(), false, DefaultLogLevel))
  {
    assert Upper(DefaultLogLevel) == DefaultLogLevel;
    assert !DebugOn("false");
  }

  /** `--debug`: switch debugging on and the log level to "DEBUG",
      whatever the environment said. */
  function ApplyDebugFlag(c: AppConfig, flag: bool): (r: AppConfig)
    ensures flag ==> r.debug && r.logLevel == "DEBUG"
    ensures !flag ==> r == c
    ensures r.openai == c.openai && r.website == c.website
  {
    if flag then c.(debug := true, logLevel := "DEBUG") else c
  }
}
