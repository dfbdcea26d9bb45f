/** rag_guard/config.py: GuardConfig, a dataclass whose `__post_init__`
    fills in the two optional collections and then validates the salt and
    the recogniser strategy, and whose `to_dict` reports the settings with
    the salt hidden. */
module Config {
  import opened Wrappers
  import opened Dicts
  import opened Ner
  import opened Masker

  /** The salt used when the RAG_GUARD_SALT environment variable is unset. */
  const FallbackSalt: string := "default_salt_change_me"

  /** What `to_dict` shows in place of the salt. */
  const Hidden: string := "[HIDDEN]"

  /** `logging.INFO` */
  const LogInfo: int := 20

  /** `os.getenv('RAG_GUARD_SALT', 'default_salt_change_me')`, with the
      environment lookup passed in. */
  function DefaultSalt(env: Option<string>): string {
    env.GetOr(FallbackSalt)
  }

  predicate KnownStrategy(strategy: string) {
    strategy in [RegexOnlyStrategy, LlmOnlyStrategy, HybridStrategy]
  }

  /** The validation that ends `__post_init__`: the salt is checked before
      the strategy, and each failure is a ValueError. */
  function Checked(salt: string, strategy: string): (r: Result<()>)
    ensures r.Ok? <==> |salt| >= 8 && KnownStrategy(strategy)
    ensures |salt| < 8 ==> r == Err(ValueError(SaltTooShort))
    ensures |salt| >= 8 && !KnownStrategy(strategy) ==> r == Err(ValueError(UnknownStrategy))
  {
    if |salt| < 8 then Err(ValueError(SaltTooShort))
    else if !KnownStrategy(strategy) then Err(ValueError(UnknownStrategy))
    else Ok(())
  }

  /** What `to_dict` returns. The prompt template is not part of it. */
  datatype ConfigView = ConfigView(
    salt: string,
    customPatterns: seq<string>,
    nerStrategy: string,
    useLlmNer: bool,
    llmEntityTypes: Option<seq<string>>,
    llmConfidenceThreshold: real,
    enableLogging: bool,
    logLevel: int,
    includeDebugInfo: bool,
    maxChunkLength: int,
    maxChunksCount: int)

  class GuardConfig {
    var salt: string
    var customPatterns: Option<Dict<string, string>>
    var nerStrategy: string
    var useLlmNer: bool
    var llmEntityTypes: Option<seq<string>>
    var llmConfidenceThreshold: real
    var promptTemplate: Option<string>
    var enableLogging: bool
    var logLevel: int
    var includeDebugInfo: bool
    var maxChunkLength: int
    var maxChunksCount: int

    /** The generated `__init__` up to the `__post_init__` call: every field
        as given. */
    constructor Fields(salt: string, customPatterns: Option<Dict<string, string>>, nerStrategy: string,
                       useLlmNer: bool, llmEntityTypes: Option<seq<string>>, llmConfidenceThreshold: real,
                       promptTemplate: Option<string>, enableLogging: bool, logLevel: int,
                       includeDebugInfo: bool, maxChunkLength: int, maxChunksCount: int)
      ensures this.salt == salt && this.customPatterns == customPatterns && this.nerStrategy == nerStrategy
      ensures this.useLlmNer == useLlmNer && this.llmEntityTypes == llmEntityTypes
      ensures this.llmConfidenceThreshold == llmConfidenceThreshold && this.promptTemplate == promptTemplate
      ensures this.enableLogging == enableLogging && this.logLevel == logLevel
      ensures this.includeDebugInfo == includeDebugInfo
      ensures this.maxChunkLength == maxChunkLength && this.maxChunksCount == maxChunksCount
    {
      this.salt := salt;
      this.customPatterns := customPatterns;
      this.nerStrategy := nerStrategy;
      this.useLlmNer := useLlmNer;
      this.llmEntityTypes := llmEntityTypes;
      this.llmConfidenceThreshold := llmConfidenceThreshold;
      this.promptTemplate := promptTemplate;
      this.enableLogging := enableLogging;
      this.logLevel := logLevel;
      this.includeDebugInfo := includeDebugInfo;
      this.maxChunkLength := maxChunkLength;
      this.maxChunksCount := maxChunksCount;
    }

    /** `__post_init__`: a missing pattern table becomes empty and a missing
        type list the fifteen default types (an empty list stays empty);
        these defaults are in place even when validation then fails. */
    method PostInit() returns (r: Result<()>)
      modifies this`customPatterns, this`llmEntityTypes
      ensures customPatterns == Some(old(customPatterns).GetOr([]))
      ensures llmEntityTypes == Some(old(llmEntityTypes).GetOr(DefaultEntityTypes))
      ensures r == Checked(salt, nerStrategy)
    {
      if customPatterns.None? {
        customPatterns := Some([]);
      }
      if llmEntityTypes.None? {
        llmEntityTypes := Some(DefaultEntityTypes);
      }
      if |salt| < 8 {
        return Err(ValueError(SaltTooShort));
      }
      if nerStrategy !in [RegexOnlyStrategy, LlmOnlyStrategy, HybridStrategy] {
        return Err(ValueError(UnknownStrategy));
      }
      return Ok(());
    }

    /** `GuardConfig(...)`: the fields, then `__post_init__`; a failed
        validation means no configuration is returned. */
    static method New(salt: string, customPatterns: Option<Dict<string, string>>, nerStrategy: string,
                      useLlmNer: bool, llmEntityTypes: Option<seq<string>>, llmConfidenceThreshold: real,
                      promptTemplate: Option<string>, enableLogging: bool, logLevel: int,
                      includeDebugInfo: bool, maxChunkLength: int, maxChunksCount: int)
      returns (r: Result<GuardConfig>)
      ensures r.Err? <==> Checked(salt, nerStrategy).Err?
      ensures r.Err? ==> r == Err(Checked(salt, nerStrategy).error)
      ensures r.Ok? ==> fresh(r.value) && r.value.salt == salt && r.value.nerStrategy == nerStrategy
      ensures r.Ok? ==> r.value.customPatterns == Some(customPatterns.GetOr([]))
      ensures r.Ok? ==> r.value.llmEntityTypes == Some(llmEntityTypes.GetOr(DefaultEntityTypes))
      ensures r.Ok? ==> r.value.useLlmNer == useLlmNer && r.value.llmConfidenceThreshold == llmConfidenceThreshold
      ensures r.Ok? ==> r.value.promptTemplate == promptTemplate && r.value.enableLogging == enableLogging
      ensures r.Ok? ==> r.value.logLevel == logLevel && r.value.includeDebugInfo == includeDebugInfo
      ensures r.Ok? ==> r.value.maxChunkLength == maxChunkLength && r.value.maxChunksCount == maxChunksCount
    {
      var c := new GuardConfig.Fields(salt, customPatterns, nerStrategy, useLlmNer, llmEntityTypes,
                                      llmConfidenceThreshold, promptTemplate, enableLogging, logLevel,
                                      includeDebugInfo, maxChunkLength, maxChunksCount);
      var checked := c.PostInit();
      if checked.Err? {
        return Err(checked.error);
      }
      return Ok(c);
    }

    /** `GuardConfig()` with every default: it is valid exactly when the salt
        found in the environment (or the fallback) is long enough. */
    static method Default(env: Option<string>) returns (r: Result<GuardConfig>)
      ensures r.Ok? <==> |DefaultSalt(env)| >= 8
      ensures env.None? ==> r.Ok?
      ensures r.Ok? ==> fresh(r.value) && r.value.nerStrategy == RegexOnlyStrategy
      ensures r.Ok? ==> r.value.llmEntityTypes == Some(DefaultEntityTypes) && r.value.customPatterns == Some([])
      ensures r.Ok? ==> r.value.maxChunkLength == 10000 && r.value.maxChunksCount == 50
    {
      r := New(DefaultSalt(env), None, RegexOnlyStrategy, false, None, 0.7, None, true, LogInfo, false, 10000, 50);
    }

    /** `to_dict()`: the salt is always hidden and the custom patterns are
        reported by name only, in table order. */
    function ToDict(): (v: ConfigView)
      reads this
      ensures v.salt == Hidden
      ensures customPatterns.Some? ==> v.customPatterns == Keys(customPatterns.value)
      ensures customPatterns.None? ==> v.customPatterns == []
      ensures |v.customPatterns| == |customPatterns.GetOr([])|
    {
      ConfigView(
        Hidden,
        if customPatterns.Some? && customPatterns.value != [] then Keys(customPatterns.value) else [],
        nerStrategy, useLlmNer, llmEntityTypes, llmConfidenceThreshold, enableLogging, logLevel,
        includeDebugInfo, maxChunkLength, maxChunksCount)
    }
  }

  /** Two configurations that differ only in their salts, their pattern
      texts or their prompt templates report the same view: `to_dict`
      reveals neither secret values nor the template. */
  lemma ToDictHides(a: GuardConfig, b: GuardConfig)
    requires a.customPatterns.None? == b.customPatterns.None?
    requires a.customPatterns.Some? ==> Keys(a.customPatterns.value) == Keys(b.customPatterns.value)
    requires a.nerStrategy == b.nerStrategy && a.useLlmNer == b.useLlmNer
    requires a.llmEntityTypes == b.llmEntityTypes && a.llmConfidenceThreshold == b.llmConfidenceThreshold
    requires a.enableLogging == b.enableLogging && a.logLevel == b.logLevel
    requires a.includeDebugInfo == b.includeDebugInfo
    requires a.maxChunkLength == b.maxChunkLength && a.maxChunksCount == b.maxChunksCount
    ensures a.ToDict() == b.ToDict()
  {
  }
}
